/** The decisions `displayResult` (script.js:189-221) takes when it renders a
    descriptor: the texts it writes and which panels it switches on or off. */
module Display {
  import opened Wrappers
  import opened FetchClient

  // ---------------------------------------------------------------------------
  // Decimal rendering of the image count, as in a template literal.

  function DigitChar(d: nat): (c: char)
    requires d < 10
    ensures '0' <= c <= '9' && c as int - '0' as int == d
  {
    ['0', '1', '2', '3', '4', '5', '6', '7', '8', '9'][d]
  }

  /** `String(n)` for a non-negative integer: its decimal digits, most
      significant first. */
  function DecimalString(n: nat): (r: string)
    ensures r != [] && forall i :: 0 <= i < |r| ==> '0' <= r[i] <= '9'
    ensures r[0] == '0' ==> n == 0
    ensures n == 0 ==> r == "0"
    decreases n
  {
    if n < 10 then [DigitChar(n)] else DecimalString(n / 10) + [DigitChar(n % 10)]
  }

  /** The value of a string of decimal digits. */
  function DecimalValue(s: string): nat
    requires forall i :: 0 <= i < |s| ==> '0' <= s[i] <= '9'
  {
    if s == [] then 0 else DecimalValue(s[..|s| - 1]) * 10 + (s[|s| - 1] as int - '0' as int)
  }

  /** Reading back the rendered count gives the count. */
  lemma {:induction false} DecimalRoundTrip(n: nat)
    ensures DecimalValue(DecimalString(n)) == n
    decreases n
  {
    if n >= 10 {
      var r := DecimalString(n);
      assert r[..|r| - 1] == DecimalString(n / 10);
      DecimalRoundTrip(n / 10);
    }
  }

  // ---------------------------------------------------------------------------
  // Texts.

  const AuthorPlaceholder: string := "tiktok"
  const VideoLabel: string := "VIDEO"
  const PhotoLabelPrefix: string := "PHOTO · "
  const PhotoLabelSuffix: string := " IMAGES"

  predicate StartsWithAt(s: string) {
    |s| > 0 && s[0] == '@'
  }

  /** The author line: the author, or "tiktok" when empty, with an `@` put in
      front unless it already starts with one. */
  function AuthorHandle(author: string): (r: string)
    ensures StartsWithAt(r)
    ensures author != "" ==> |author| <= |r| <= |author| + 1 && r[|r| - |author|..] == author
  {
    var a := if author != "" then author else AuthorPlaceholder;
    if StartsWithAt(a) then a else "@" + a
  }

  /** An author that already has its `@` is shown unchanged, so prefixing twice
      is prefixing once; an empty author is shown as "@tiktok". */
  lemma AuthorHandleFixed(author: string)
    ensures StartsWithAt(author) ==> AuthorHandle(author) == author
    ensures AuthorHandle(AuthorHandle(author)) == AuthorHandle(author)
    ensures AuthorHandle("") == "@tiktok"
  {
  }

  /** The name with its leading `@`, if any, removed. */
  function StripAt(s: string): string {
    if StartsWithAt(s) then s[1..] else s
  }

  /** A non-empty author is shown as `@` followed by its name without the `@`,
      so two authors look the same exactly when they differ at most by that
      leading `@`. */
  lemma AuthorHandleNames(a: string, b: string)
    requires a != "" && b != ""
    ensures AuthorHandle(a) == "@" + StripAt(a)
    ensures AuthorHandle(a) == AuthorHandle(b) <==> StripAt(a) == StripAt(b)
  {
    assert AuthorHandle(a) == "@" + StripAt(a);
    assert AuthorHandle(b) == "@" + StripAt(b);
    if AuthorHandle(a) == AuthorHandle(b) {
      assert StripAt(a) == AuthorHandle(a)[1..];
      assert StripAt(b) == AuthorHandle(b)[1..];
    }
  }

  /** The content-type label: "PHOTO · n IMAGES" with the image count n for
      photo content, "VIDEO" otherwise. */
  function ContentLabel(isPhoto: bool, count: nat): string {
    if isPhoto then PhotoLabelPrefix + DecimalString(count) + PhotoLabelSuffix else VideoLabel
  }

  /** A photo label names its count: the characters between the prefix and the
      suffix are the count's digits, so different counts give different labels,
      and no photo label reads "VIDEO". */
  lemma PhotoLabelCount(n: nat, m: nat)
    ensures var l := ContentLabel(true, n);
            |l| > |PhotoLabelPrefix| + |PhotoLabelSuffix| &&
            l[..|PhotoLabelPrefix|] == PhotoLabelPrefix &&
            DecimalValue(l[|PhotoLabelPrefix|..|l| - |PhotoLabelSuffix|]) == n
    ensures ContentLabel(true, n) == ContentLabel(true, m) ==> n == m
    ensures ContentLabel(true, n) != ContentLabel(false, m)
  {
    var l := ContentLabel(true, n);
    var ds := DecimalString(n);
    assert l[|PhotoLabelPrefix|..|l| - |PhotoLabelSuffix|] == ds;
    DecimalRoundTrip(n);
    if l == ContentLabel(true, m) {
      var dm := DecimalString(m);
      assert ContentLabel(true, m)[|PhotoLabelPrefix|..|l| - |PhotoLabelSuffix|] == dm;
      DecimalRoundTrip(m);
    }
    assert l[0] == 'P';
  }

  // ---------------------------------------------------------------------------
  // The rendered view.

  /** What `displayResult` leaves on the page. `gallery` is the image list handed
      to the photo grid, `downloadHref` the link it sets; `None` means the call
      leaves that element as it was. */
  datatype View = View(
    title: string,
    author: string,
    contentLabel: string,
    galleryActive: bool,
    gallery: Option<seq<string>>,
    videoOptionsActive: bool,
    downloadHref: Option<string>,
    resultActive: bool)

  /** A photo descriptor has its image list; `displayResult` reads its length. */
  predicate WellFormed(d: Descriptor) {
    d.isPhoto ==> d.images.Some?
  }

  function DisplayResult(d: Descriptor): View
    requires WellFormed(d)
  {
    var title := if d.title != "" then d.title else DefaultTitle;
    var author := AuthorHandle(d.author);
    if d.isPhoto then
      View(title, author, ContentLabel(true, |d.images.value|), true, d.images, false, None, true)
    else if Truthy(d.videoUrl) then
      View(title, author, ContentLabel(false, 0), false, None, true, d.videoUrl, true)
    else
      View(title, author, ContentLabel(false, 0), false, None, false, None, true)
  }

  /** The panels `displayResult` switches: the result is always shown; the photo
      gallery is on exactly for photos, with their images; the video options are
      on exactly for non-photo content with a truthy URL, and then the download
      link is that URL. The two panels are never both on. */
  lemma DisplayPanels(d: Descriptor)
    requires WellFormed(d)
    ensures var v := DisplayResult(d);
            v.resultActive &&
            (v.galleryActive <==> d.isPhoto) &&
            (v.galleryActive ==> v.gallery == d.images) &&
            (v.videoOptionsActive <==> !d.isPhoto && Truthy(d.videoUrl)) &&
            (v.downloadHref.Some? <==> v.videoOptionsActive) &&
            (v.downloadHref.Some? ==> v.downloadHref == d.videoUrl && v.downloadHref.value != "") &&
            !(v.galleryActive && v.videoOptionsActive)
  {
  }

  /** The texts: the title is the descriptor's, or "TikTok Content" when that is
      empty; the author line is the `@` handle of the author; and the label is
      the photo label with the image count or "VIDEO". */
  lemma DisplayTexts(d: Descriptor)
    requires WellFormed(d)
    ensures var v := DisplayResult(d);
            v.title != "" &&
            (d.title != "" ==> v.title == d.title) &&
            (d.title == "" ==> v.title == DefaultTitle) &&
            v.author == AuthorHandle(d.author) && StartsWithAt(v.author) &&
            (d.isPhoto ==> v.contentLabel == PhotoLabelPrefix + DecimalString(|d.images.value|) + PhotoLabelSuffix) &&
            (!d.isPhoto ==> v.contentLabel == VideoLabel)
  {
  }

  /** Every descriptor the fetch produces can be displayed, and its texts pass
      through `displayResult` unchanged except for the `@` of the author. */
  lemma FetchedDisplayable(t: Transport)
    requires FetchTikTokData(t).Success?
    ensures WellFormed(FetchTikTokData(t).value)
    ensures var d := FetchTikTokData(t).value;
            DisplayResult(d).title == d.title &&
            DisplayResult(d).author == AuthorHandle(d.author) &&
            (DisplayResult(d).galleryActive <==> HasImages(t.body.value.data.value))
  {
    var raw := t.body.value.data.value;
    TitleFallback(raw);
    PhotoClassification(raw);
  }
}
