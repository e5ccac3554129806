/** `fetchTikTokData` (script.js:137-172): the reply of the content API, already
    parsed, is checked and normalised into the descriptor the page displays. The
    request itself is an input: the transport outcome is given as a value. */
module FetchClient {
  import opened Wrappers

  // ---------------------------------------------------------------------------
  // JavaScript truthiness of optional strings and the `||` operator.

  /** A string-valued JSON field is truthy when present and non-empty;
      `None` stands for `undefined` and `null`. */
  predicate Truthy(v: Option<string>) {
    v.Some? && v.value != ""
  }

  /** `c[0] || c[1] || ... || c[n-1]`: the first truthy operand, or the last
      operand when none is truthy. */
  function OrChain(c: seq<Option<string>>): (r: Option<string>)
    requires |c| > 0
    ensures r in c
    ensures Truthy(c[|c| - 1]) ==> Truthy(r)
  {
    if |c| == 1 || Truthy(c[0]) then c[0] else OrChain(c[1..])
  }

  /** v is the first truthy entry of c. */
  ghost predicate IsFirstTruthy(c: seq<Option<string>>, v: Option<string>) {
    exists k :: 0 <= k < |c| && c[k] == v && Truthy(v) && forall j :: 0 <= j < k ==> !Truthy(c[j])
  }

  /** The value of an `||` chain: the first truthy operand when there is one,
      otherwise the last operand. */
  lemma {:induction false} OrChainValue(c: seq<Option<string>>)
    requires |c| > 0
    ensures (exists k :: 0 <= k < |c| && Truthy(c[k])) <==> Truthy(OrChain(c))
    ensures Truthy(OrChain(c)) ==> IsFirstTruthy(c, OrChain(c))
    ensures !Truthy(OrChain(c)) ==> OrChain(c) == c[|c| - 1]
    decreases |c|
  {
    if |c| == 1 || Truthy(c[0]) {
      if Truthy(c[0]) {
        assert c[0] == OrChain(c);
      }
    } else {
      OrChainValue(c[1..]);
      if Truthy(OrChain(c)) {
        var k :| 0 <= k < |c[1..]| && c[1..][k] == OrChain(c) && Truthy(OrChain(c)) &&
          forall j :: 0 <= j < k ==> !Truthy(c[1..][j]);
        assert c[k + 1] == OrChain(c);
        forall j | 0 <= j < k + 1 ensures !Truthy(c[j]) {
          if j > 0 { assert c[j] == c[1..][j - 1]; }
        }
      }
      if exists k :: 0 <= k < |c| && Truthy(c[k]) {
        var k :| 0 <= k < |c| && Truthy(c[k]);
        assert c[1..][k - 1] == c[k];
      }
    }
  }

  // ---------------------------------------------------------------------------
  // The parsed reply.

  /** `data.author` of the reply (JSON keys `unique_id`, `nickname`). */
  datatype RawAuthor = RawAuthor(uniqueId: Option<string>, nickname: Option<string>)

  /** `data` of the reply (JSON keys `title`, `author`, `cover`, `origin_cover`,
      `images`, `hdplay`, `play`, `wmplay`, `duration`). */
  datatype RawData = RawData(
    title: Option<string>,
    author: Option<RawAuthor>,
    cover: Option<string>,
    originCover: Option<string>,
    images: Option<seq<string>>,
    hdplay: Option<string>,
    play: Option<string>,
    wmplay: Option<string>,
    duration: Option<int>)

  /** The top-level JSON object; `code` is `None` when absent or not a number. */
  datatype RawResult = RawResult(code: Option<int>, msg: Option<string>, data: Option<RawData>)

  /** How the request ended: a rejected `fetch` (network failure), a rejected
      `fetch` because the request was aborted, or a response with its `ok` flag
      and its body, `None` when the body is not a JSON object. */
  datatype Transport =
    | NetworkError
    | Aborted
    | Reply(ok: bool, body: Option<RawResult>)

  /** The normalised content descriptor. `None` stands for `null`/`undefined`. */
  datatype Descriptor = Descriptor(
    title: string,
    author: string,
    thumbnail: Option<string>,
    videoUrl: Option<string>,
    images: Option<seq<string>>,
    isPhoto: bool,
    duration: Option<int>)

  /** A thrown JavaScript error: its `name` and `message`. */
  datatype JsError = JsError(name: string, message: string)

  const DefaultTitle: string := "TikTok Content"
  const DefaultAuthor: string := "@tiktok"
  const FetchFailureMessage: string := "Unable to fetch content. Please check the URL and try again."

  /** Every failure inside the `try` leaves `fetchTikTokData` as
      `new Error(FetchFailureMessage)`. */
  const FetchFailure: JsError := JsError("Error", FetchFailureMessage)

  /** `data.author?.f` for a field f of the author. */
  function AuthorField(a: Option<RawAuthor>, nickname: bool): Option<string> {
    if a.None? then None else if nickname then a.value.nickname else a.value.uniqueId
  }

  /** `data.images && data.images.length > 0`. */
  predicate HasImages(d: RawData) {
    d.images.Some? && |d.images.value| > 0
  }

  /** The object literal built from a successful reply's `data`. */
  function Normalize(d: RawData): Descriptor {
    var isPhoto := HasImages(d);
    Descriptor(
      OrChain([d.title, Some(DefaultTitle)]).value,
      OrChain([AuthorField(d.author, false), AuthorField(d.author, true), Some(DefaultAuthor)]).value,
      OrChain([d.cover, d.originCover]),
      if isPhoto then None else OrChain([d.hdplay, d.play, d.wmplay]),
      if isPhoto then d.images else None,
      isPhoto,
      d.duration)
  }

  /** `fetchTikTokData(url)` given how its request ended. Every exception raised
      inside the `try` (a rejected fetch, `!response.ok`, an unparsable body,
      `code !== 0`, a missing `data`) is replaced by the same generic error. */
  function FetchTikTokData(t: Transport): Result<Descriptor, JsError> {
    if t.Reply? && t.ok && t.body.Some? && t.body.value.code == Some(0) && t.body.value.data.Some? then
      Success(Normalize(t.body.value.data.value))
    else
      Failure(FetchFailure)
  }

  // ---------------------------------------------------------------------------
  // What the caller can rely on.

  /** The fetch succeeds exactly on an OK reply with a parsable body, `code`
      equal to 0 and a `data` object; then the descriptor is the normalised
      `data`. Otherwise it fails with the generic error, whatever the cause. */
  lemma FetchOutcome(t: Transport)
    ensures FetchTikTokData(t).Success? <==>
      t.Reply? && t.ok && t.body.Some? && t.body.value.code == Some(0) && t.body.value.data.Some?
    ensures FetchTikTokData(t).Success? ==> FetchTikTokData(t).value == Normalize(t.body.value.data.value)
    ensures FetchTikTokData(t).Failure? ==> FetchTikTokData(t).error == JsError("Error", FetchFailureMessage)
  {
  }

  /** The upstream `msg` never reaches the caller: two replies that differ only
      in `msg` give the same outcome. */
  lemma UpstreamMessageDiscarded(ok: bool, code: Option<int>, m1: Option<string>, m2: Option<string>, data: Option<RawData>)
    ensures FetchTikTokData(Reply(ok, Some(RawResult(code, m1, data)))) == FetchTikTokData(Reply(ok, Some(RawResult(code, m2, data))))
  {
  }

  /** An aborted request is not reported as an `AbortError`: it is rewrapped like
      every other failure. */
  lemma AbortRewrapped()
    ensures FetchTikTokData(Aborted) == Failure(FetchFailure)
    ensures FetchTikTokData(Aborted).error.name != "AbortError"
  {
  }

  /** A descriptor is photo content exactly when the reply had a non-empty image
      list; photo content carries that list verbatim and no video URL, and
      anything else carries no image list. */
  lemma PhotoClassification(d: RawData)
    ensures Normalize(d).isPhoto <==> d.images.Some? && |d.images.value| > 0
    ensures Normalize(d).isPhoto ==> Normalize(d).videoUrl == None && Normalize(d).images == d.images
    ensures !Normalize(d).isPhoto ==> Normalize(d).images == None
  {
  }

  /** For video content the URL is the first truthy of `hdplay`, `play` and
      `wmplay`; it is truthy exactly when one of them is, and otherwise it is the
      (falsy) `wmplay` value. */
  lemma VideoUrlPriority(d: RawData)
    requires !HasImages(d)
    ensures Truthy(Normalize(d).videoUrl) <==> Truthy(d.hdplay) || Truthy(d.play) || Truthy(d.wmplay)
    ensures Truthy(d.hdplay) ==> Normalize(d).videoUrl == d.hdplay
    ensures !Truthy(d.hdplay) && Truthy(d.play) ==> Normalize(d).videoUrl == d.play
    ensures !Truthy(d.hdplay) && !Truthy(d.play) ==> Normalize(d).videoUrl == d.wmplay
  {
    var c := [d.hdplay, d.play, d.wmplay];
    OrChainValue(c);
    var v := Normalize(d).videoUrl;
    if Truthy(v) {
      var k :| 0 <= k < |c| && c[k] == v && Truthy(v) && forall j :: 0 <= j < k ==> !Truthy(c[j]);
    }
    if Truthy(d.hdplay) || Truthy(d.play) || Truthy(d.wmplay) {
      assert Truthy(c[0]) || Truthy(c[1]) || Truthy(c[2]);
    }
  }

  /** The title is the reply's title when truthy, otherwise "TikTok Content"; it
      is never empty. */
  lemma TitleFallback(d: RawData)
    ensures Normalize(d).title == if Truthy(d.title) then d.title.value else DefaultTitle
    ensures Normalize(d).title != ""
  {
    OrChainValue([d.title, Some(DefaultTitle)]);
  }

  /** The author is `unique_id`, else `nickname`, else "@tiktok"; absent author
      objects are tolerated, and the result is never empty. */
  lemma AuthorFallback(d: RawData)
    ensures var uid := AuthorField(d.author, false);
            var nick := AuthorField(d.author, true);
            Normalize(d).author ==
              if Truthy(uid) then uid.value else if Truthy(nick) then nick.value else DefaultAuthor
    ensures d.author.None? ==> Normalize(d).author == DefaultAuthor
    ensures Normalize(d).author != ""
  {
    var c := [AuthorField(d.author, false), AuthorField(d.author, true), Some(DefaultAuthor)];
    OrChainValue(c);
    var k :| 0 <= k < |c| && c[k] == OrChain(c) && Truthy(c[k]) && forall j :: 0 <= j < k ==> !Truthy(c[j]);
  }

  /** The thumbnail is `cover` when truthy, otherwise `origin_cover` as it is
      (possibly absent or empty). */
  lemma ThumbnailFallback(d: RawData)
    ensures Normalize(d).thumbnail == if Truthy(d.cover) then d.cover else d.originCover
    ensures Truthy(Normalize(d).thumbnail) <==> Truthy(d.cover) || Truthy(d.originCover)
  {
    OrChainValue([d.cover, d.originCover]);
  }

  /** A descriptor never carries both a video URL and an image list, and the
      duration passes through unchanged. */
  lemma NeverBothMedia(d: RawData)
    ensures !(Truthy(Normalize(d).videoUrl) && Normalize(d).images.Some?)
    ensures Normalize(d).isPhoto <==> Normalize(d).images.Some?
    ensures Normalize(d).duration == d.duration
  {
  }

  /** It may carry neither: a reply with no images and no truthy play field
      gives video content without a usable URL. */
  lemma NeitherMediaPossible(d: RawData)
    requires !HasImages(d) && !Truthy(d.hdplay) && !Truthy(d.play) && !Truthy(d.wmplay)
    ensures !Normalize(d).isPhoto && Normalize(d).images.None? && !Truthy(Normalize(d).videoUrl)
  {
    VideoUrlPriority(d);
  }

  /** Such replies exist: an empty image list and an empty `hdplay`. */
  lemma NeitherMediaExample()
    ensures var d := Normalize(RawData(None, None, None, None, Some([]), Some(""), None, None, None));
            !d.isPhoto && d.images.None? && !Truthy(d.videoUrl)
  {
  }
}
