/** The validation gate at the top of `handleDownload` (script.js:96-106): the
    raw input is trimmed, and an empty or unrecognised value is reported before
    any request is made. */
module InputGate {
  import opened UrlValidator

  /** ECMAScript's WhiteSpace and LineTerminator code points (Zs as of current
      Unicode), the characters `String.prototype.trim` removes at both ends. */
  predicate IsTrimmable(c: char) {
    c == '\t' || c == '\n' || c == '\U{000B}' || c == '\U{000C}' || c == '\r' || c == ' ' ||
    c == '\U{00A0}' || c == '\U{1680}' || '\U{2000}' <= c <= '\U{200A}' ||
    c == '\U{2028}' || c == '\U{2029}' || c == '\U{202F}' || c == '\U{205F}' ||
    c == '\U{3000}' || c == '\U{FEFF}'
  }

  predicate AllTrimmable(s: string) {
    forall i :: 0 <= i < |s| ==> IsTrimmable(s[i])
  }

  /** Drops the leading trimmable characters: the result is the suffix of s that
      starts at its first other character. */
  function TrimStart(s: string): (r: string)
    ensures |r| <= |s| && r == s[|s| - |r|..]
    ensures AllTrimmable(s[..|s| - |r|])
    ensures r == [] || !IsTrimmable(r[0])
  {
    if s != [] && IsTrimmable(s[0]) then
      var r := TrimStart(s[1..]);
      assert s[1..][..|s| - 1 - |r|] == s[1..|s| - |r|];
      r
    else
      s
  }

  /** Drops the trailing trimmable characters: the result is the prefix of s that
      ends at its last other character. */
  function TrimEnd(s: string): (r: string)
    ensures |r| <= |s| && r == s[..|r|]
    ensures AllTrimmable(s[|r|..])
    ensures r == [] || !IsTrimmable(r[|r| - 1])
  {
    if s != [] && IsTrimmable(s[|s| - 1]) then
      var r := TrimEnd(s[..|s| - 1]);
      assert s[..|s| - 1][|r|..] == s[|r|..|s| - 1];
      r
    else
      s
  }

  /** `String.prototype.trim`: s with its leading and trailing trimmable
      characters removed. */
  function Trim(s: string): (r: string)
    ensures exists a: nat, b: nat :: a <= b <= |s| && r == s[a..b] && AllTrimmable(s[..a]) && AllTrimmable(s[b..])
    ensures r == [] || (!IsTrimmable(r[0]) && !IsTrimmable(r[|r| - 1]))
  {
    var t := TrimStart(s);
    var r := TrimEnd(t);
    var a := |s| - |t|;
    assert r == s[a..a + |r|];
    assert s[a + |r|..] == t[|r|..];
    r
  }

  /** Trim yields the empty string exactly when every character is trimmable. */
  lemma TrimEmptyIff(s: string)
    ensures Trim(s) == [] <==> AllTrimmable(s)
  {
    var t := TrimStart(s);
    if Trim(s) == [] {
      assert TrimEnd(t) == [] && t == [];
      forall i | 0 <= i < |s| ensures IsTrimmable(s[i]) {
        assert s[i] == s[..|s|][i];
      }
    }
  }

  /** Trimming twice is trimming once. */
  lemma TrimIdempotent(s: string)
    ensures Trim(Trim(s)) == Trim(s)
  {
  }

  lemma {:induction false} TrimStartSkip(a: string, x: string)
    requires AllTrimmable(a)
    ensures TrimStart(a + x) == TrimStart(x)
    decreases |a|
  {
    if a != [] {
      assert (a + x)[0] == a[0] && (a + x)[1..] == a[1..] + x;
      TrimStartSkip(a[1..], x);
    } else {
      assert a + x == x;
    }
  }

  lemma {:induction false} TrimEndSkip(x: string, b: string)
    requires AllTrimmable(b)
    ensures TrimEnd(x + b) == TrimEnd(x)
    decreases |b|
  {
    if b != [] {
      var xb := x + b;
      assert xb[|xb| - 1] == b[|b| - 1] && xb[..|xb| - 1] == x + b[..|b| - 1];
      TrimEndSkip(x, b[..|b| - 1]);
    } else {
      assert x + b == x;
    }
  }

  lemma {:induction false} TrimStartAppend(x: string, b: string)
    requires !AllTrimmable(x)
    ensures TrimStart(x + b) == TrimStart(x) + b
    decreases |x|
  {
    assert (x + b)[0] == x[0];
    if IsTrimmable(x[0]) {
      assert (x + b)[1..] == x[1..] + b;
      assert !AllTrimmable(x[1..]) by {
        var i :| 0 <= i < |x| && !IsTrimmable(x[i]);
        assert x[1..][i - 1] == x[i];
      }
      TrimStartAppend(x[1..], b);
    }
  }

  /** Trimmable padding around the input never changes what the gate sees. */
  lemma TrimPadded(a: string, s: string, b: string)
    requires AllTrimmable(a) && AllTrimmable(b)
    ensures Trim(a + s + b) == Trim(s)
  {
    assert a + s + b == a + (s + b);
    TrimStartSkip(a, s + b);
    if AllTrimmable(s) {
      TrimEmptyIff(s);
      assert AllTrimmable(s + b) by {
        forall i | 0 <= i < |s + b| ensures IsTrimmable((s + b)[i]) {
          if i >= |s| { assert (s + b)[i] == b[i - |s|]; }
        }
      }
      TrimStartSkip(s + b, []);
      assert s + b + [] == s + b;
    } else {
      TrimStartAppend(s, b);
      TrimEndSkip(TrimStart(s), b);
    }
  }

  const EmptyInputMessage: string := "Please enter a TikTok URL"
  const InvalidUrlMessage: string := "Please enter a valid TikTok URL"

  /** What the gate decides: report an error and stop, or go on with the trimmed URL. */
  datatype GateOutcome = Reject(message: string) | Proceed(url: string)

  function Gate(raw: string): GateOutcome {
    var url := Trim(raw);
    if url == [] then Reject(EmptyInputMessage)
    else if !IsValidTikTokUrl(url) then Reject(InvalidUrlMessage)
    else Proceed(url)
  }

  /** The three outcomes of the gate, each characterised on the raw input. */
  lemma GateOutcomes(raw: string)
    ensures Gate(raw) == Reject(EmptyInputMessage) <==> AllTrimmable(raw)
    ensures Gate(raw) == Reject(InvalidUrlMessage) <==> !AllTrimmable(raw) && !IsValidTikTokUrl(Trim(raw))
    ensures Gate(raw) == Proceed(Trim(raw)) <==> IsValidTikTokUrl(Trim(raw))
    ensures Gate(raw).Reject? || Gate(raw) == Proceed(Trim(raw))
  {
    TrimEmptyIff(raw);
    EmptyRejected();
  }

  /** What the gate lets through is trimmed and names the host. */
  lemma ProceedNamesHost(raw: string)
    requires Gate(raw).Proceed?
    ensures Gate(raw).url == Trim(raw) && Trim(Gate(raw).url) == Gate(raw).url
    ensures NamesHost(Gate(raw).url)
  {
    var url := Trim(raw);
    assert Gate(raw) == Proceed(url);
    TrimIdempotent(raw);
    AcceptedNamesHost(url);
  }

  /** Whitespace typed or pasted around the URL does not change the decision. */
  lemma GateIgnoresPadding(a: string, raw: string, b: string)
    requires AllTrimmable(a) && AllTrimmable(b)
    ensures Gate(a + raw + b) == Gate(raw)
  {
    TrimPadded(a, raw, b);
  }
}
