/** The fragment of JavaScript regular expressions that the URL validator uses:
    a pattern is a sequence of atoms, each a literal character, a character class
    repeated one or more times (`+`), or a class repeated zero or more times (`*`).
    A run of literal characters is one atom. No flags are set, so classes follow ECMAScript's non-Unicode, case-sensitive
    rules.

    `MatchesAt` is the declarative meaning of a pattern (the set of substrings it
    denotes); `Test` is a greedy backtracking search like `RegExp.prototype.test`,
    and `TestCorrect` proves the two agree. */
module JsRegex {

  /** The classes the validator's patterns use; `\w` occurs only inside the
      bracketed classes. */
  datatype CharClass =
    | Digit                 // \d
    | WordDash              // [\w-]
    | WordDotDash           // [\w.-]
    | AnyButLineTerminator  // .

  predicate IsDigit(c: char) { '0' <= c <= '9' }

  /** `\w` without the `u` and `i` flags: ASCII letters, digits and underscore. */
  predicate IsWordChar(c: char) {
    'A' <= c <= 'Z' || 'a' <= c <= 'z' || IsDigit(c) || c == '_'
  }

  /** ECMAScript's LineTerminator: the characters `.` does not match without the `s` flag. */
  predicate IsLineTerminator(c: char) {
    c == '\n' || c == '\r' || c == '\U{2028}' || c == '\U{2029}'
  }

  predicate InClass(k: CharClass, c: char) {
    match k
    case Digit => IsDigit(c)
    case WordDash => IsWordChar(c) || c == '-'
    case WordDotDash => IsWordChar(c) || c == '.' || c == '-'
    case AnyButLineTerminator => !IsLineTerminator(c)
  }

  /** `Lit(w)` is the escaped literal w; `Plus(k)` is `k+`; `Star(k)` is `k*`. */
  datatype Atom = Lit(w: string) | Plus(k: CharClass) | Star(k: CharClass)

  type Pattern = seq<Atom>

  /** The literal w occurs in s at offset i. */
  predicate LiteralAt(s: string, i: nat, w: string) {
    i + |w| <= |s| && s[i..i + |w|] == w
  }

  /** Position x of s holds a character of class k. */
  predicate ClassAt(k: CharClass, s: string, x: nat) {
    x < |s| && InClass(k, s[x])
  }

  /** Every character of s[i..e] belongs to class k. */
  predicate AllIn(k: CharClass, s: string, i: nat, e: nat) {
    i <= e <= |s| && forall x :: i <= x < e ==> InClass(k, s[x])
  }

  /** Atom `a` matches exactly the substring s[i..m]. */
  predicate AtomAt(a: Atom, s: string, i: nat, m: nat) {
    i <= m <= |s| &&
    match a
    case Lit(w) => m == i + |w| && s[i..m] == w
    case Plus(k) => i < m && AllIn(k, s, i, m)
    case Star(k) => AllIn(k, s, i, m)
  }

  /** Pattern p matches exactly the substring s[i..j]: s[i..j] splits into
      consecutive pieces, one per atom, each matched by its atom. */
  ghost predicate MatchesAt(p: Pattern, s: string, i: nat, j: nat)
    decreases |p|
  {
    i <= j <= |s| &&
    if p == [] then i == j
    else exists m :: i <= m <= j && AtomAt(p[0], s, i, m) && MatchesAt(p[1..], s, m, j)
  }

  /** Some substring of s is matched by p: the meaning of an unanchored regex test. */
  ghost predicate Occurs(p: Pattern, s: string) {
    exists i, j :: 0 <= i <= j <= |s| && MatchesAt(p, s, i, j)
  }

  /** Whether p matches some substring of s that starts at position i
      (depth-first, as a backtracking regex engine explores it). */
  function MatchFrom(p: Pattern, s: string, i: nat): bool
    requires i <= |s|
    decreases |p|, 1, 0
  {
    if p == [] then true
    else match p[0]
      case Lit(w) => LiteralAt(s, i, w) && MatchFrom(p[1..], s, i + |w|)
      case Plus(k) => i < |s| && InClass(k, s[i]) && Repeat(k, p[1..], s, i + 1)
      case Star(k) => Repeat(k, p[1..], s, i)
  }

  /** A repetition of class k has consumed up to position m; greedily try to
      consume one more character, and on failure continue with `rest` at m. */
  function Repeat(k: CharClass, rest: Pattern, s: string, m: nat): bool
    requires m <= |s|
    decreases |rest| + 1, 0, |s| - m
  {
    (m < |s| && InClass(k, s[m]) && Repeat(k, rest, s, m + 1)) || MatchFrom(rest, s, m)
  }

  /** Try every start position from i to |s|, leftmost first. */
  function SearchFrom(p: Pattern, s: string, i: nat): bool
    requires i <= |s|
    decreases |s| - i
  {
    MatchFrom(p, s, i) || (i < |s| && SearchFrom(p, s, i + 1))
  }

  /** `pattern.test(s)` for a pattern without the `g` and `y` flags: the search
      starts at index 0. */
  function Test(p: Pattern, s: string): bool {
    SearchFrom(p, s, 0)
  }

  // ---------------------------------------------------------------------------
  // The engine agrees with the declarative meaning: everything it accepts is a
  // match (Elim lemmas), and it finds every match (Intro lemmas).

  lemma {:induction false} RepeatIntro(k: CharClass, rest: Pattern, s: string, start: nat, m: nat, e: nat, j: nat)
    requires start <= m <= e && AllIn(k, s, start, e) && MatchesAt(rest, s, e, j)
    ensures Repeat(k, rest, s, m)
    decreases |rest| + 1, 0, e - m
  {
    if m == e {
      MatchFromIntro(rest, s, e, j);
    } else {
      assert InClass(k, s[m]);
      RepeatIntro(k, rest, s, start, m + 1, e, j);
    }
  }

  lemma {:induction false} MatchFromIntro(p: Pattern, s: string, i: nat, j: nat)
    requires MatchesAt(p, s, i, j)
    ensures MatchFrom(p, s, i)
    decreases |p|, 1, 0
  {
    if p != [] {
      var m :| i <= m <= j && AtomAt(p[0], s, i, m) && MatchesAt(p[1..], s, m, j);
      match p[0]
      case Lit(w) =>
        MatchFromIntro(p[1..], s, m, j);
      case Plus(k) =>
        assert InClass(k, s[i]);
        RepeatIntro(k, p[1..], s, i, i + 1, m, j);
      case Star(k) =>
        RepeatIntro(k, p[1..], s, i, i, m, j);
    }
  }

  lemma {:induction false} RepeatElim(k: CharClass, rest: Pattern, s: string, start: nat, m: nat)
    requires start <= m <= |s| && AllIn(k, s, start, m) && Repeat(k, rest, s, m)
    ensures exists e, j :: m <= e <= j <= |s| && AllIn(k, s, start, e) && MatchesAt(rest, s, e, j)
    decreases |rest| + 1, 0, |s| - m
  {
    if m < |s| && InClass(k, s[m]) && Repeat(k, rest, s, m + 1) {
      RepeatElim(k, rest, s, start, m + 1);
    } else {
      MatchFromElim(rest, s, m);
      var j :| m <= j <= |s| && MatchesAt(rest, s, m, j);
      assert m <= m <= j <= |s| && AllIn(k, s, start, m) && MatchesAt(rest, s, m, j);
    }
  }

  lemma {:induction false} MatchFromElim(p: Pattern, s: string, i: nat)
    requires i <= |s| && MatchFrom(p, s, i)
    ensures exists j :: i <= j <= |s| && MatchesAt(p, s, i, j)
    decreases |p|, 1, 0
  {
    if p == [] {
      assert MatchesAt(p, s, i, i);
    } else {
      match p[0]
      case Lit(w) =>
        MatchFromElim(p[1..], s, i + |w|);
        var j :| i + |w| <= j <= |s| && MatchesAt(p[1..], s, i + |w|, j);
        assert AtomAt(p[0], s, i, i + |w|);
        assert MatchesAt(p, s, i, j);
      case Plus(k) =>
        RepeatElim(k, p[1..], s, i, i + 1);
        var e, j :| i + 1 <= e <= j <= |s| && AllIn(k, s, i, e) && MatchesAt(p[1..], s, e, j);
        assert AtomAt(p[0], s, i, e);
        assert MatchesAt(p, s, i, j);
      case Star(k) =>
        RepeatElim(k, p[1..], s, i, i);
        var e, j :| i <= e <= j <= |s| && AllIn(k, s, i, e) && MatchesAt(p[1..], s, e, j);
        assert AtomAt(p[0], s, i, e);
        assert MatchesAt(p, s, i, j);
    }
  }

  lemma {:induction false} SearchIntro(p: Pattern, s: string, i: nat, a: nat, j: nat)
    requires i <= a && MatchesAt(p, s, a, j)
    ensures SearchFrom(p, s, i)
    decreases a - i
  {
    if i == a {
      MatchFromIntro(p, s, a, j);
    } else {
      SearchIntro(p, s, i + 1, a, j);
    }
  }

  lemma {:induction false} SearchElim(p: Pattern, s: string, i: nat)
    requires i <= |s| && SearchFrom(p, s, i)
    ensures exists a, j :: i <= a <= j <= |s| && MatchesAt(p, s, a, j)
    decreases |s| - i
  {
    if MatchFrom(p, s, i) {
      MatchFromElim(p, s, i);
      var j :| i <= j <= |s| && MatchesAt(p, s, i, j);
      assert i <= i <= j <= |s| && MatchesAt(p, s, i, j);
    } else {
      SearchElim(p, s, i + 1);
      var a, j :| i + 1 <= a <= j <= |s| && MatchesAt(p, s, a, j);
      assert i <= a <= j <= |s| && MatchesAt(p, s, a, j);
    }
  }

  /** `pattern.test(s)` is true exactly when the pattern matches some substring of s. */
  lemma TestCorrect(p: Pattern, s: string)
    ensures Test(p, s) <==> Occurs(p, s)
  {
    if Test(p, s) {
      SearchElim(p, s, 0);
      var a, j :| 0 <= a <= j <= |s| && MatchesAt(p, s, a, j);
      assert Occurs(p, s);
    }
    if Occurs(p, s) {
      var a, j :| 0 <= a <= j <= |s| && MatchesAt(p, s, a, j);
      SearchIntro(p, s, 0, a, j);
    }
  }

  // ---------------------------------------------------------------------------
  // Algebra of the declarative meaning.

  /** A match survives text added before and after the subject string. */
  lemma {:induction false} ShiftAt(p: Pattern, s: string, i: nat, j: nat, a: string, b: string)
    requires MatchesAt(p, s, i, j)
    ensures MatchesAt(p, a + s + b, |a| + i, |a| + j)
    decreases |p|
  {
    var t := a + s + b;
    if p != [] {
      var m :| i <= m <= j && AtomAt(p[0], s, i, m) && MatchesAt(p[1..], s, m, j);
      ShiftAt(p[1..], s, m, j, a, b);
      forall x | i <= x < m ensures t[|a| + x] == s[x] { }
      if p[0].Lit? {
        assert t[|a| + i..|a| + m] == s[i..m];
      }
      assert AtomAt(p[0], t, |a| + i, |a| + m);
    }
  }

  /** Occurrence is preserved under arbitrary prefixes and suffixes. */
  lemma OccursExtend(p: Pattern, s: string, a: string, b: string)
    requires Occurs(p, s)
    ensures Occurs(p, a + s + b)
  {
    var i, j :| 0 <= i <= j <= |s| && MatchesAt(p, s, i, j);
    ShiftAt(p, s, i, j, a, b);
  }
}
