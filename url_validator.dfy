/** `isValidTikTokUrl` (script.js:175-187): the seven URL shapes the client
    accepts, each tested unanchored, and what follows from them. */
module UrlValidator {
  import opened JsRegex

  /** The host literal every pattern contains. */
  const Host: string := "tiktok.com"

  /** `tiktok\.com\/@[\w.-]+\/video\/\d+` */
  const VideoByHandle: Pattern := [Lit("tiktok.com/@"), Plus(WordDotDash), Lit("/video/"), Plus(Digit)]
  /** `tiktok\.com\/.*\/video\/\d+` */
  const VideoAnyPath: Pattern := [Lit("tiktok.com/"), Star(AnyButLineTerminator), Lit("/video/"), Plus(Digit)]
  /** `tiktok\.com\/@[\w.-]+\/photo\/\d+` */
  const PhotoByHandle: Pattern := [Lit("tiktok.com/@"), Plus(WordDotDash), Lit("/photo/"), Plus(Digit)]
  /** `tiktok\.com\/.*\/photo\/\d+` */
  const PhotoAnyPath: Pattern := [Lit("tiktok.com/"), Star(AnyButLineTerminator), Lit("/photo/"), Plus(Digit)]
  /** `vm\.tiktok\.com\/[\w-]+` */
  const VmShortLink: Pattern := [Lit("vm.tiktok.com/"), Plus(WordDash)]
  /** `vt\.tiktok\.com\/[\w-]+` */
  const VtShortLink: Pattern := [Lit("vt.tiktok.com/"), Plus(WordDash)]
  /** `tiktok\.com\/t\/[\w-]+` */
  const TShortLink: Pattern := [Lit("tiktok.com/t/"), Plus(WordDash)]

  /** The pattern list, in the source's order. */
  const Patterns: seq<Pattern> :=
    [VideoByHandle, VideoAnyPath, PhotoByHandle, PhotoAnyPath, VmShortLink, VtShortLink, TShortLink]

  /** `ps.some(pattern => pattern.test(url))` */
  function AnyTest(ps: seq<Pattern>, url: string): bool {
    |ps| > 0 && (Test(ps[0], url) || AnyTest(ps[1..], url))
  }

  function IsValidTikTokUrl(url: string): bool {
    AnyTest(Patterns, url)
  }

  /** The `some` call holds exactly when one of the patterns tests true. */
  lemma {:induction false} AnyTestExists(ps: seq<Pattern>, url: string)
    ensures AnyTest(ps, url) <==> exists k :: 0 <= k < |ps| && Test(ps[k], url)
  {
    if ps != [] {
      AnyTestExists(ps[1..], url);
      if exists k :: 0 <= k < |ps| && Test(ps[k], url) {
        var k :| 0 <= k < |ps| && Test(ps[k], url);
        if k > 0 {
          assert ps[1..][k - 1] == ps[k];
        }
      }
      if AnyTest(ps[1..], url) {
        var k :| 0 <= k < |ps[1..]| && Test(ps[1..][k], url);
        assert ps[k + 1] == ps[1..][k];
      }
    }
  }

  /** The validator accepts exactly the strings in which at least one of the
      seven patterns matches some substring, at any offset. */
  lemma ValidIffSomePatternOccurs(url: string)
    ensures |Patterns| == 7
    ensures IsValidTikTokUrl(url) <==> exists k :: 0 <= k < |Patterns| && Occurs(Patterns[k], url)
  {
    AnyTestExists(Patterns, url);
    forall k | 0 <= k < |Patterns| ensures Test(Patterns[k], url) <==> Occurs(Patterns[k], url) {
      TestCorrect(Patterns[k], url);
    }
  }

  // ---------------------------------------------------------------------------
  // Every accepted string names the host.

  /** s contains the host literal at some offset. */
  ghost predicate NamesHost(s: string) {
    exists x: nat :: LiteralAt(s, x, Host)
  }

  /** A literal that holds the host at offset o puts the host into s. */
  lemma HostInLiteral(w: string, o: nat, s: string, i: nat)
    requires LiteralAt(s, i, w) && o + |Host| <= |w| && w[o..o + |Host|] == Host
    ensures LiteralAt(s, i + o, Host)
  {
    var inner, outer := s[i + o..i + o + |Host|], s[i..i + |w|][o..o + |Host|];
    forall x | 0 <= x < |Host| ensures inner[x] == outer[x] { }
  }

  /** A match of a pattern whose leading literal holds the host at offset o
      puts the host into s. */
  lemma LeadingHost(p: Pattern, o: nat, s: string, i: nat, j: nat)
    requires p != [] && p[0].Lit? && o + |Host| <= |p[0].w| && p[0].w[o..o + |Host|] == Host
    requires MatchesAt(p, s, i, j)
    ensures NamesHost(s)
  {
    var m :| i <= m <= j && AtomAt(p[0], s, i, m) && MatchesAt(p[1..], s, m, j);
    HostInLiteral(p[0].w, o, s, i);
  }

  /** Any accepted string contains `tiktok.com`; in particular it is not empty. */
  lemma AcceptedNamesHost(url: string)
    requires IsValidTikTokUrl(url)
    ensures NamesHost(url)
    ensures |url| >= |Host|
  {
    ValidIffSomePatternOccurs(url);
    var k :| 0 <= k < |Patterns| && Occurs(Patterns[k], url);
    var i, j :| 0 <= i <= j <= |url| && MatchesAt(Patterns[k], url, i, j);
    LeadingHost(Patterns[k], HostOffset(k), url, i, j);
  }

  /** Where the host starts inside pattern k's leading literal. */
  function HostOffset(k: nat): (o: nat)
    requires k < |Patterns|
    ensures Patterns[k] != [] && Patterns[k][0].Lit?
    ensures o + |Host| <= |Patterns[k][0].w| && Patterns[k][0].w[o..o + |Host|] == Host
  {
    if k == 0 then
      assert "tiktok.com/@"[0..10] == Host; 0
    else if k == 1 then
      assert "tiktok.com/"[0..10] == Host; 0
    else if k == 2 then
      assert "tiktok.com/@"[0..10] == Host; 0
    else if k == 3 then
      assert "tiktok.com/"[0..10] == Host; 0
    else if k == 4 then
      assert "vm.tiktok.com/"[3..13] == Host; 3
    else if k == 5 then
      assert "vt.tiktok.com/"[3..13] == Host; 3
    else
      assert "tiktok.com/t/"[0..10] == Host; 0
  }

  lemma EmptyRejected()
    ensures !IsValidTikTokUrl("")
  {
    if IsValidTikTokUrl("") {
      AcceptedNamesHost("");
    }
  }

  /** Acceptance is not anchored: text before and after an accepted URL keeps it accepted. */
  lemma ValidExtend(url: string, a: string, b: string)
    requires IsValidTikTokUrl(url)
    ensures IsValidTikTokUrl(a + url + b)
  {
    ValidIffSomePatternOccurs(url);
    ValidIffSomePatternOccurs(a + url + b);
    var k :| 0 <= k < |Patterns| && Occurs(Patterns[k], url);
    OccursExtend(Patterns[k], url, a, b);
  }

  // ---------------------------------------------------------------------------
  // Patterns 1 and 3 add nothing to patterns 2 and 4.

  /** Where a pattern starts with `tiktok\.com\/@[\w.-]+` and another with
      `tiktok\.com\/.*`, and the rest is the same, every match of the first is a
      match of the second. */
  lemma ByHandleWithinAnyPath(p: Pattern, q: Pattern, s: string, i: nat, j: nat)
    requires |p| >= 2 && p[0] == Lit("tiktok.com/@") && p[1] == Plus(WordDotDash)
    requires |q| >= 2 && q[0] == Lit("tiktok.com/") && q[1] == Star(AnyButLineTerminator)
    requires p[2..] == q[2..]
    requires MatchesAt(p, s, i, j)
    ensures MatchesAt(q, s, i, j)
  {
    var m :| i <= m <= j && AtomAt(p[0], s, i, m) && MatchesAt(p[1..], s, m, j);
    var n :| m <= n <= j && AtomAt(p[1..][0], s, m, n) && MatchesAt(p[1..][1..], s, n, j);
    assert m == i + 12 && s[i..i + 12] == "tiktok.com/@";
    var head, whole := s[i..i + 11], s[i..i + 12];
    forall x | 0 <= x < 11 ensures head[x] == whole[x] { }
    assert head == "tiktok.com/";
    assert s[i + 11] == whole[11] == '@';
    assert AllIn(AnyButLineTerminator, s, i + 11, n);
    assert p[1..][1..] == q[1..][1..];
    assert AtomAt(q[1..][0], s, i + 11, n);
    assert MatchesAt(q[1..], s, i + 11, j);
    assert AtomAt(q[0], s, i, i + 11);
  }

  /** Every match of pattern 1 is a match of pattern 2, and every match of
      pattern 3 is a match of pattern 4. */
  lemma HandlePatternsRedundant(s: string, i: nat, j: nat)
    ensures MatchesAt(VideoByHandle, s, i, j) ==> MatchesAt(VideoAnyPath, s, i, j)
    ensures MatchesAt(PhotoByHandle, s, i, j) ==> MatchesAt(PhotoAnyPath, s, i, j)
  {
    if MatchesAt(VideoByHandle, s, i, j) {
      ByHandleWithinAnyPath(VideoByHandle, VideoAnyPath, s, i, j);
    }
    if MatchesAt(PhotoByHandle, s, i, j) {
      ByHandleWithinAnyPath(PhotoByHandle, PhotoAnyPath, s, i, j);
    }
  }

  /** Dropping patterns 1 and 3 does not change any verdict. */
  lemma ValidWithoutHandlePatterns(url: string)
    ensures IsValidTikTokUrl(url) <==>
            AnyTest([VideoAnyPath, PhotoAnyPath, VmShortLink, VtShortLink, TShortLink], url)
  {
    var fewer := [VideoAnyPath, PhotoAnyPath, VmShortLink, VtShortLink, TShortLink];
    AnyTestExists(Patterns, url);
    AnyTestExists(fewer, url);
    if IsValidTikTokUrl(url) {
      var k :| 0 <= k < |Patterns| && Test(Patterns[k], url);
      if k == 0 || k == 2 {
        TestCorrect(Patterns[k], url);
        var i, j :| 0 <= i <= j <= |url| && MatchesAt(Patterns[k], url, i, j);
        HandlePatternsRedundant(url, i, j);
        TestCorrect(Patterns[k + 1], url);
        assert Test(fewer[k / 2], url);
      } else {
        assert Test(fewer[if k == 1 then 0 else k - 2], url);
      }
    }
    if AnyTest(fewer, url) {
      var k :| 0 <= k < |fewer| && Test(fewer[k], url);
      assert Test(Patterns[if k < 2 then 2 * k + 1 else k + 2], url);
    }
  }

  // ---------------------------------------------------------------------------
  // The short-link patterns, stated directly on characters.

  /** A literal followed by one or more characters of a class occurs exactly
      when the literal occurs and is followed by such a character. */
  lemma LiteralThenPlus(w: string, k: CharClass, s: string)
    ensures Occurs([Lit(w), Plus(k)], s) <==>
            exists i: nat :: LiteralAt(s, i, w) && ClassAt(k, s, i + |w|)
  {
    var p: Pattern := [Lit(w), Plus(k)];
    if Occurs(p, s) {
      var i, j :| 0 <= i <= j <= |s| && MatchesAt(p, s, i, j);
      var m :| i <= m <= j && AtomAt(p[0], s, i, m) && MatchesAt(p[1..], s, m, j);
      var n :| m <= n <= j && AtomAt(p[1..][0], s, m, n) && MatchesAt(p[1..][1..], s, n, j);
      assert LiteralAt(s, i, w) && ClassAt(k, s, i + |w|);
    }
    if exists i: nat :: LiteralAt(s, i, w) && ClassAt(k, s, i + |w|) {
      var i: nat :| LiteralAt(s, i, w) && ClassAt(k, s, i + |w|);
      var m := i + |w|;
      assert MatchesAt(p[1..][1..], s, m + 1, m + 1);
      assert AtomAt(p[1..][0], s, m, m + 1);
      assert MatchesAt(p[1..], s, m, m + 1);
      assert AtomAt(p[0], s, i, m);
      assert MatchesAt(p, s, i, m + 1);
    }
  }

  /** `vm.tiktok.com/` followed by a word character or `-`, anywhere in the string. */
  lemma VmShortLinkOccurs(s: string)
    ensures Occurs(VmShortLink, s) <==>
            exists i: nat :: LiteralAt(s, i, "vm.tiktok.com/") && ClassAt(WordDash, s, i + 14)
  {
    LiteralThenPlus("vm.tiktok.com/", WordDash, s);
  }

  /** `vt.tiktok.com/` followed by a word character or `-`, anywhere in the string. */
  lemma VtShortLinkOccurs(s: string)
    ensures Occurs(VtShortLink, s) <==>
            exists i: nat :: LiteralAt(s, i, "vt.tiktok.com/") && ClassAt(WordDash, s, i + 14)
  {
    LiteralThenPlus("vt.tiktok.com/", WordDash, s);
  }

  /** `tiktok.com/t/` followed by a word character or `-`, anywhere in the string. */
  lemma TShortLinkOccurs(s: string)
    ensures Occurs(TShortLink, s) <==>
            exists i: nat :: LiteralAt(s, i, "tiktok.com/t/") && ClassAt(WordDash, s, i + 13)
  {
    LiteralThenPlus("tiktok.com/t/", WordDash, s);
  }

  /** A short link such as `https://vm.tiktok.com/ZMabcdef/` is accepted. */
  lemma ShortLinkAccepted(code: string)
    requires code != [] && InClass(WordDash, code[0])
    ensures IsValidTikTokUrl("https://vm.tiktok.com/" + code)
  {
    var s := "https://vm.tiktok.com/" + code;
    var lit := s[8..22];
    forall x | 0 <= x < 14 ensures lit[x] == "vm.tiktok.com/"[x] { }
    assert LiteralAt(s, 8, "vm.tiktok.com/") && ClassAt(WordDash, s, 22);
    VmShortLinkOccurs(s);
    ValidIffSomePatternOccurs(s);
    assert Patterns[4] == VmShortLink;
  }

  // ---------------------------------------------------------------------------
  // Canonical links of each shape are accepted.

  /** `https://www.tiktok.com/@` + user + mid + id matches the by-handle shape
      with middle literal mid, from the host to the end of the string. */
  lemma {:induction false} ByHandleLinkMatches(mid: string, user: string, id: string)
    requires user != [] && forall x :: 0 <= x < |user| ==> InClass(WordDotDash, user[x])
    requires id != [] && forall x :: 0 <= x < |id| ==> IsDigit(id[x])
    ensures var s := "https://www.tiktok.com/@" + user + mid + id;
            MatchesAt([Lit("tiktok.com/@"), Plus(WordDotDash), Lit(mid), Plus(Digit)], s, 12, |s|)
  {
    var s := "https://www.tiktok.com/@" + user + mid + id;
    var p: Pattern := [Lit("tiktok.com/@"), Plus(WordDotDash), Lit(mid), Plus(Digit)];
    var u := 24 + |user|;
    var v := u + |mid|;
    var e := |s|;
    var host, midS := s[12..24], s[u..v];
    forall x | 0 <= x < 12 ensures host[x] == "tiktok.com/@"[x] { }
    forall x | 0 <= x < |mid| ensures midS[x] == mid[x] { }
    assert p[1..][1..][1..][1..] == [];
    assert MatchesAt(p[1..][1..][1..][1..], s, e, e);
    assert AllIn(Digit, s, v, e) by {
      forall x | v <= x < e ensures InClass(Digit, s[x]) { assert s[x] == id[x - v]; }
    }
    assert AtomAt(p[1..][1..][1..][0], s, v, e);
    assert MatchesAt(p[1..][1..][1..], s, v, e);
    assert AtomAt(p[1..][1..][0], s, u, v);
    assert MatchesAt(p[1..][1..], s, u, e);
    assert AllIn(WordDotDash, s, 24, u) by {
      forall x | 24 <= x < u ensures InClass(WordDotDash, s[x]) { assert s[x] == user[x - 24]; }
    }
    assert AtomAt(p[1..][0], s, 24, u);
    assert MatchesAt(p[1..], s, 24, e);
    assert AtomAt(p[0], s, 12, 24);
  }

  /** A video link `https://www.tiktok.com/@user/video/id` is accepted for every
      handle of `[\w.-]` characters and every numeric id. */
  lemma VideoLinkAccepted(user: string, id: string)
    requires user != [] && forall x :: 0 <= x < |user| ==> InClass(WordDotDash, user[x])
    requires id != [] && forall x :: 0 <= x < |id| ==> IsDigit(id[x])
    ensures IsValidTikTokUrl("https://www.tiktok.com/@" + user + "/video/" + id)
  {
    var s := "https://www.tiktok.com/@" + user + "/video/" + id;
    ByHandleLinkMatches("/video/", user, id);
    assert MatchesAt(Patterns[0], s, 12, |s|);
    ValidIffSomePatternOccurs(s);
  }

  /** A photo link `https://www.tiktok.com/@user/photo/id` is accepted for every
      handle of `[\w.-]` characters and every numeric id. */
  lemma PhotoLinkAccepted(user: string, id: string)
    requires user != [] && forall x :: 0 <= x < |user| ==> InClass(WordDotDash, user[x])
    requires id != [] && forall x :: 0 <= x < |id| ==> IsDigit(id[x])
    ensures IsValidTikTokUrl("https://www.tiktok.com/@" + user + "/photo/" + id)
  {
    var s := "https://www.tiktok.com/@" + user + "/photo/" + id;
    ByHandleLinkMatches("/photo/", user, id);
    assert MatchesAt(Patterns[2], s, 12, |s|);
    ValidIffSomePatternOccurs(s);
  }

  /** A short link `https://vt.tiktok.com/` + code is accepted when the code
      starts with a word character or `-`. */
  lemma VtShortLinkAccepted(code: string)
    requires code != [] && InClass(WordDash, code[0])
    ensures IsValidTikTokUrl("https://vt.tiktok.com/" + code)
  {
    var s := "https://vt.tiktok.com/" + code;
    var lit := s[8..22];
    forall x | 0 <= x < 14 ensures lit[x] == "vt.tiktok.com/"[x] { }
    assert LiteralAt(s, 8, "vt.tiktok.com/") && ClassAt(WordDash, s, 22);
    VtShortLinkOccurs(s);
    ValidIffSomePatternOccurs(s);
    assert Patterns[5] == VtShortLink;
  }

  /** A short link `https://www.tiktok.com/t/` + code is accepted when the code
      starts with a word character or `-`. */
  lemma TShortLinkAccepted(code: string)
    requires code != [] && InClass(WordDash, code[0])
    ensures IsValidTikTokUrl("https://www.tiktok.com/t/" + code)
  {
    var s := "https://www.tiktok.com/t/" + code;
    var lit := s[12..25];
    forall x | 0 <= x < 13 ensures lit[x] == "tiktok.com/t/"[x] { }
    assert LiteralAt(s, 12, "tiktok.com/t/") && ClassAt(WordDash, s, 25);
    TShortLinkOccurs(s);
    ValidIffSomePatternOccurs(s);
    assert Patterns[6] == TShortLink;
  }
}
