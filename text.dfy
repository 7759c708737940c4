/**
 Models of the Python `str` operations and the few regular expressions the
 pipeline uses. Characters are treated as ASCII: `Lower` folds only 'A'..'Z',
 and `IsSpace` / `IsWordChar` cover the ASCII members of Python's classes.
 */
module Text {
  import opened Wrappers

  // ---------------------------------------------------------------------
  // Characters

  function LowerChar(c: char): char {
    if 'A' <= c <= 'Z' then (c as int + 32) as char else c
  }

  /** `str.lower()` (ASCII letters only). */
  function Lower(s: string): string {
    seq(|s|, i requires 0 <= i < |s| => LowerChar(s[i]))
  }

  /** `str.isspace()` for one character. */
  predicate IsSpace(c: char) {
    c == ' ' || c == '\t' || c == '\n' || c == '\r' || c == '\U{000B}' || c == '\U{000C}'
    || ('\U{001C}' <= c <= '\U{001F}')
  }

  /** A character of the regular-expression class `\w`. */
  predicate IsWordChar(c: char) {
    ('a' <= c <= 'z') || ('A' <= c <= 'Z') || ('0' <= c <= '9') || c == '_'
  }

  /** A character at which `str.splitlines()` ends a line. */
  predicate IsLineBreak(c: char) {
    c == '\n' || c == '\r' || c == '\U{000B}' || c == '\U{000C}' || ('\U{001C}' <= c <= '\U{001E}')
    || c == '\U{0085}' || c == '\U{2028}' || c == '\U{2029}'
  }

  predicate NoLineBreaks(s: string) {
    forall i | 0 <= i < |s| :: !IsLineBreak(s[i])
  }

  predicate IsDigit(c: char) { '0' <= c <= '9' }

  predicate IsDigits(s: string) { forall i | 0 <= i < |s| :: IsDigit(s[i]) }

  // ---------------------------------------------------------------------
  // Substrings

  predicate StartsWith(s: string, p: string) {
    |p| <= |s| && s[..|p|] == p
  }

  /** `p` occurs in `s` at position `i`. */
  predicate Occurs(s: string, p: string, i: int) {
    0 <= i && i + |p| <= |s| && s[i..i + |p|] == p
  }

  /** Python's `p in s`. */
  predicate Contains(s: string, p: string) {
    exists i | 0 <= i <= |s| - |p| :: Occurs(s, p, i)
  }

  /** `str.contains(p, case=False)` for a pattern without special characters. */
  predicate ContainsCI(s: string, p: string) {
    Contains(Lower(s), Lower(p))
  }

  /** The regular expression `\bw\b` (case-insensitive when `ci`) finds a match at `i`. */
  predicate WordAt(s: string, w: string, i: int, ci: bool) {
    && 0 <= i && i + |w| <= |s|
    && (if ci then Lower(s[i..i + |w|]) == Lower(w) else s[i..i + |w|] == w)
    && (i == 0 || !IsWordChar(s[i - 1]))
    && (i + |w| == |s| || !IsWordChar(s[i + |w|]))
  }

  /** `re.search(r'\bw\b', s)` for a word `w` that starts and ends with a word character. */
  predicate ContainsWord(s: string, w: string, ci: bool) {
    exists i | 0 <= i <= |s| - |w| :: WordAt(s, w, i, ci)
  }

  /** The first occurrence of `p` in `s` at or after `i`. */
  function FindFrom(s: string, p: string, i: nat): (r: Option<nat>)
    decreases |s| - i
    ensures r.Some? ==> i <= r.value && r.value + |p| <= |s|
  {
    if i + |p| > |s| then None
    else if Occurs(s, p, i) then Some(i)
    else FindFrom(s, p, i + 1)
  }

  /** `FindFrom` finds an occurrence, and none before it; `None` means there is none from `i` on. */
  lemma {:induction false} FindFromSpec(s: string, p: string, i: nat)
    ensures var r := FindFrom(s, p, i);
      && (r.Some? ==> Occurs(s, p, r.value) && forall j | i <= j < r.value :: !Occurs(s, p, j))
      && (r.None? ==> forall j | i <= j :: !Occurs(s, p, j))
    decreases |s| - i
  {
    if i + |p| <= |s| && !Occurs(s, p, i) {
      FindFromSpec(s, p, i + 1);
    }
  }

  /** `s.find(p)`, with `None` for -1. */
  function Find(s: string, p: string): Option<nat> {
    FindFrom(s, p, 0)
  }

  lemma FindSpec(s: string, p: string)
    ensures var r := Find(s, p);
      && (r.Some? ==> Occurs(s, p, r.value) && forall j | 0 <= j < r.value :: !Occurs(s, p, j))
      && (r.None? ==> forall j | 0 <= j :: !Occurs(s, p, j))
  {
    FindFromSpec(s, p, 0);
  }

  lemma FindNoneIff(s: string, p: string)
    ensures Find(s, p).None? <==> !Contains(s, p)
  {
    FindSpec(s, p);
    if Find(s, p).Some? {
      assert Occurs(s, p, Find(s, p).value);
    }
  }

  /** The character `c` does not occur in `s`. */
  predicate LacksChar(s: string, c: char) {
    forall i | 0 <= i < |s| :: s[i] != c
  }

  lemma LacksCharConcat(a: string, b: string, c: char)
    requires LacksChar(a, c) && LacksChar(b, c)
    ensures LacksChar(a + b, c)
  {
    forall i | 0 <= i < |a + b| ensures (a + b)[i] != c {
      if i < |a| { assert (a + b)[i] == a[i]; } else { assert (a + b)[i] == b[i - |a|]; }
    }
  }

  /** A pattern one of whose characters never occurs in `s` does not occur in `s`. */
  lemma AbsentChar(s: string, p: string, k: nat)
    requires k < |p|
    requires LacksChar(s, p[k])
    ensures !Contains(s, p)
  {
    forall i | 0 <= i <= |s| - |p| ensures !Occurs(s, p, i) {
      assert s[i..i + |p|][k] == s[i + k] != p[k];
    }
  }

  /** No two adjacent characters of `s` are `c`, `d`. */
  predicate LacksPair(s: string, c: char, d: char) {
    forall i | 0 <= i < |s| - 1 :: !(s[i] == c && s[i + 1] == d)
  }

  lemma LacksPairConcat(a: string, b: string, c: char, d: char)
    requires LacksPair(a, c, d) && LacksPair(b, c, d)
    requires a != [] && b != [] && !(a[|a| - 1] == c && b[0] == d)
    ensures LacksPair(a + b, c, d)
  {
    var t := a + b;
    forall i | 0 <= i < |t| - 1 ensures !(t[i] == c && t[i + 1] == d) {
      if i + 1 < |a| {
        assert t[i] == a[i] && t[i + 1] == a[i + 1];
      } else if i + 1 == |a| {
        assert t[i] == a[|a| - 1] && t[i + 1] == b[0];
      } else {
        assert t[i] == b[i - |a|] && t[i + 1] == b[i + 1 - |a|];
      }
    }
  }

  /** A pattern two of whose adjacent characters never occur adjacently in `s` does not occur in `s`. */
  lemma AbsentPair(s: string, p: string, k: nat)
    requires k + 1 < |p|
    requires LacksPair(s, p[k], p[k + 1])
    ensures !Contains(s, p)
  {
    forall i | 0 <= i <= |s| - |p| ensures !Occurs(s, p, i) {
      assert s[i..i + |p|][k] == s[i + k];
      assert s[i..i + |p|][k + 1] == s[i + k + 1];
    }
  }

  // ---------------------------------------------------------------------
  // Stripping

  /** `str.lstrip()` */
  function StripLeft(s: string): (r: string)
    ensures |r| <= |s| && r == s[|s| - |r|..]
    ensures r == [] || !IsSpace(r[0])
  {
    if |s| > 0 && IsSpace(s[0]) then StripLeft(s[1..]) else s
  }

  /** What `lstrip` removes is white space. */
  lemma {:induction false} StripLeftSpaces(s: string)
    ensures forall i | 0 <= i < |s| - |StripLeft(s)| :: IsSpace(s[i])
    decreases |s|
  {
    if |s| > 0 && IsSpace(s[0]) {
      StripLeftSpaces(s[1..]);
      forall i | 1 <= i < |s| - |StripLeft(s)| ensures IsSpace(s[i]) {
        assert s[i] == s[1..][i - 1];
      }
    }
  }

  /** `str.rstrip()` */
  function StripRight(s: string): (r: string)
    ensures |r| <= |s| && r == s[..|r|]
    ensures r == [] || !IsSpace(r[|r| - 1])
  {
    if |s| > 0 && IsSpace(s[|s| - 1]) then StripRight(s[..|s| - 1]) else s
  }

  /** What `rstrip` removes is white space. */
  lemma {:induction false} StripRightSpaces(s: string)
    ensures forall i | |StripRight(s)| <= i < |s| :: IsSpace(s[i])
    decreases |s|
  {
    if |s| > 0 && IsSpace(s[|s| - 1]) {
      StripRightSpaces(s[..|s| - 1]);
      forall i | |StripRight(s)| <= i < |s| - 1 ensures IsSpace(s[i]) {
        assert s[i] == s[..|s| - 1][i];
      }
    }
  }

  /** `str.strip()` */
  function Strip(s: string): string {
    StripRight(StripLeft(s))
  }

  /** `s.strip() == ""` exactly when every character of `s` is white space. */
  lemma StripEmptyIff(s: string)
    ensures Strip(s) == "" <==> forall i | 0 <= i < |s| :: IsSpace(s[i])
  {
    var l := StripLeft(s);
    if Strip(s) == "" {
      StripRightSpaces(l);
      StripLeftSpaces(s);
    } else {
      var r := Strip(s);
      assert !IsSpace(r[0]);
      assert r[0] == l[0] == s[|s| - |l|];
    }
  }

  /** Stripping a string with no white space at either end changes nothing. */
  lemma StripTrimmed(s: string)
    requires s == [] || (!IsSpace(s[0]) && !IsSpace(s[|s| - 1]))
    ensures Strip(s) == s
  {
  }

  /** Stripping twice is stripping once. */
  lemma StripIdempotent(s: string)
    ensures Strip(Strip(s)) == Strip(s)
  {
    var l := StripLeft(s);
    var r := Strip(s);
    if r != [] {
      assert r[0] == l[0];
      StripTrimmed(r);
    }
  }

  /** White space in front of a string is removed by `strip`. */
  lemma {:induction false} StripSpacePrefix(sp: string, s: string)
    requires forall i | 0 <= i < |sp| :: IsSpace(sp[i])
    ensures StripLeft(sp + s) == StripLeft(s)
    ensures Strip(sp + s) == Strip(s)
    decreases |sp|
  {
    if |sp| > 0 {
      var t := sp + s;
      assert t[0] == sp[0];
      assert t[1..] == sp[1..] + s;
      StripSpacePrefix(sp[1..], s);
    } else {
      assert sp + s == s;
    }
  }

  // ---------------------------------------------------------------------
  // Joining and splitting

  /** `sep.join(xs)` */
  function Join(xs: seq<string>, sep: string): string {
    if |xs| == 0 then ""
    else if |xs| == 1 then xs[0]
    else xs[0] + sep + Join(xs[1..], sep)
  }

  /** `s.split(sep)` for a non-empty separator. */
  function SplitOn(s: string, sep: string): (r: seq<string>)
    requires |sep| > 0
    decreases |s|
    ensures |r| >= 1
  {
    match Find(s, sep)
    case None => [s]
    case Some(i) => [s[..i]] + SplitOn(s[i + |sep|..], sep)
  }

  /** Splitting and joining with the same separator gives back the string. */
  lemma {:induction false} JoinSplitOn(s: string, sep: string)
    requires |sep| > 0
    ensures Join(SplitOn(s, sep), sep) == s
    decreases |s|
  {
    match Find(s, sep)
    case None =>
    case Some(i) =>
      var rest := s[i + |sep|..];
      FindSpec(s, sep);
      JoinSplitOn(rest, sep);
      assert s[i..i + |sep|] == sep;
      assert s == s[..i] + sep + rest;
  }

  /** A string in which the separator does not occur splits into itself alone. */
  lemma SplitOnAbsent(s: string, sep: string)
    requires |sep| > 0
    requires !Contains(s, sep)
    ensures SplitOn(s, sep) == [s]
  {
    FindNoneIff(s, sep);
  }

  /** If `sep` is not in `a`, then `a + sep + b` splits at the end of `a`. */
  lemma SplitOnFirst(a: string, sep: string, b: string)
    requires |sep| > 0
    requires !Contains(a + sep[..|sep| - 1], sep)
    ensures SplitOn(a + sep + b, sep) == [a] + SplitOn(b, sep)
  {
    var s := a + sep + b;
    assert Occurs(s, sep, |a|) by { assert s[|a|..|a| + |sep|] == sep; }
    forall j | 0 <= j < |a| ensures !Occurs(s, sep, j) {
      if Occurs(s, sep, j) {
        var t := a + sep[..|sep| - 1];
        assert s[j..j + |sep|] == t[j..j + |sep|];
        assert Occurs(t, sep, j);
      }
    }
    FindSpec(s, sep);
    var f := Find(s, sep);
    assert f == Some(|a|);
    assert s[..|a|] == a;
    assert s[|a| + |sep|..] == b;
  }

  /** `s.replace(pat, rep)` for a non-empty `pat`: every occurrence, left to right, without overlap. */
  function Replace(s: string, pat: string, rep: string): string
    requires |pat| > 0
    decreases |s|
  {
    match Find(s, pat)
    case None => s
    case Some(i) => s[..i] + rep + Replace(s[i + |pat|..], pat, rep)
  }

  /** Python's identity `s.replace(a, b) == b.join(s.split(a))`. */
  lemma {:induction false} ReplaceIsJoinOfSplit(s: string, pat: string, rep: string)
    requires |pat| > 0
    ensures Replace(s, pat, rep) == Join(SplitOn(s, pat), rep)
    decreases |s|
  {
    match Find(s, pat)
    case None =>
    case Some(i) =>
      ReplaceIsJoinOfSplit(s[i + |pat|..], pat, rep);
  }

  /** Replacing a pattern that does not occur changes nothing. */
  lemma ReplaceAbsent(s: string, pat: string, rep: string)
    requires |pat| > 0
    requires !Contains(s, pat)
    ensures Replace(s, pat, rep) == s
  {
    FindNoneIff(s, pat);
  }

  /** A string that starts with `pat`, followed by a tail free of `pat`, has only that occurrence replaced. */
  lemma ReplaceLeading(pat: string, tail: string, rep: string)
    requires |pat| > 0
    requires !Contains(tail, pat)
    ensures Replace(pat + tail, pat, rep) == rep + tail
  {
    var s := pat + tail;
    assert Occurs(s, pat, 0) by { assert s[0..|pat|] == pat; }
    assert Find(s, pat) == Some(0);
    assert s[|pat|..] == tail;
    ReplaceAbsent(tail, pat, rep);
  }

  /** The index of the first line break at or after `i`, or `|s|`. */
  function BreakFrom(s: string, i: nat): (r: nat)
    requires i <= |s|
    decreases |s| - i
    ensures i <= r <= |s|
    ensures r < |s| ==> IsLineBreak(s[r])
    ensures forall j | i <= j < r :: !IsLineBreak(s[j])
  {
    if i == |s| || IsLineBreak(s[i]) then i else BreakFrom(s, i + 1)
  }

  /** `str.splitlines()`: "\r\n" is one break, and a final break opens no empty line. */
  function Lines(s: string): seq<string>
    decreases |s|
  {
    if s == [] then []
    else
      var i := BreakFrom(s, 0);
      if i == |s| then [s]
      else
        var next := if s[i] == '\r' && i + 1 < |s| && s[i + 1] == '\n' then i + 2 else i + 1;
        [s[..i]] + Lines(s[next..])
  }

  /** Lines joined by "\n" split back into the same lines when none holds a break and the last is not empty. */
  lemma {:induction false} LinesOfJoin(xs: seq<string>)
    requires forall k | 0 <= k < |xs| :: NoLineBreaks(xs[k])
    requires xs == [] || xs[|xs| - 1] != ""
    ensures Lines(Join(xs, "\n")) == xs
  {
    if |xs| == 1 {
      var s := xs[0];
      assert BreakFrom(s, 0) == |s|;
    } else if |xs| > 1 {
      var rest := Join(xs[1..], "\n");
      var s := xs[0] + "\n" + rest;
      assert Join(xs, "\n") == s;
      var i := BreakFrom(s, 0);
      assert s[|xs[0]|] == '\n';
      assert i == |xs[0]| by {
        forall j | 0 <= j < |xs[0]| ensures !IsLineBreak(s[j]) {
          assert s[j] == xs[0][j];
        }
      }
      assert s[..i] == xs[0];
      assert s[i + 1..] == rest;
      LinesOfJoin(xs[1..]);
      assert s[i] != '\r';
    }
  }

  // ---------------------------------------------------------------------
  // Numbers

  function DigitChar(d: nat): char
    requires d < 10
  {
    ('0' as int + d) as char
  }

  function DigitValue(c: char): nat
    requires IsDigit(c)
  {
    c as int - '0' as int
  }

  /** `str(n)` for a natural number. */
  function NatToString(n: nat): (r: string)
    ensures |r| > 0 && IsDigits(r)
  {
    if n < 10 then [DigitChar(n)] else NatToString(n / 10) + [DigitChar(n % 10)]
  }

  /** The value of a run of decimal digits ("" is 0). */
  function DigitsValue(s: string): nat
    requires IsDigits(s)
  {
    if s == [] then 0 else DigitsValue(s[..|s| - 1]) * 10 + DigitValue(s[|s| - 1])
  }

  function Pow10(k: nat): (r: nat)
    ensures r > 0
  {
    if k == 0 then 1 else 10 * Pow10(k - 1)
  }

  /** `int(s)` over optional sign and ASCII digits; `None` where Python raises ValueError. */
  function ParseInt(s: string): Option<int> {
    if |s| > 0 && (s[0] == '+' || s[0] == '-') then
      var d := s[1..];
      if |d| > 0 && IsDigits(d) then Some(if s[0] == '-' then -(DigitsValue(d) as int) else DigitsValue(d) as int)
      else None
    else if |s| > 0 && IsDigits(s) then Some(DigitsValue(s) as int)
    else None
  }

  /** Reading the decimal text of a natural number gives the number back. */
  lemma {:induction false} DigitsOfNat(n: nat)
    ensures DigitsValue(NatToString(n)) == n
  {
    var s := NatToString(n);
    if n >= 10 {
      DigitsOfNat(n / 10);
      assert s[..|s| - 1] == NatToString(n / 10);
    }
  }

  /** `int(str(n)) == n` for every natural number. */
  lemma ParseIntOfNat(n: nat)
    ensures ParseInt(NatToString(n)) == Some(n)
  {
    DigitsOfNat(n);
    var s := NatToString(n);
    assert IsDigit(s[0]);
  }

  /** `float(s)` over optional sign, digits and one optional '.'; `None` where Python raises ValueError. */
  function ParseDecimal(s: string): Option<real> {
    if |s| > 0 && (s[0] == '+' || s[0] == '-') then
      match ParseUnsignedDecimal(s[1..])
      case Some(v) => Some(if s[0] == '-' then -v else v)
      case None => None
    else ParseUnsignedDecimal(s)
  }

  function ParseUnsignedDecimal(s: string): Option<real> {
    match Find(s, ".")
    case None =>
      if |s| > 0 && IsDigits(s) then Some(DigitsValue(s) as real) else None
    case Some(i) =>
      var whole, frac := s[..i], s[i + 1..];
      if IsDigits(whole) && IsDigits(frac) && |whole| + |frac| > 0 then
        Some(DigitsValue(whole) as real + DigitsValue(frac) as real / Pow10(|frac|) as real)
      else None
  }

  /** `float(str(n)) == n` for every natural number. */
  lemma ParseDecimalOfNat(n: nat)
    ensures ParseDecimal(NatToString(n)) == Some(n as real)
  {
    var s := NatToString(n);
    DigitsOfNat(n);
    assert IsDigit(s[0]);
    forall j | 0 <= j ensures !Occurs(s, ".", j) {
      if j + 1 <= |s| {
        assert s[j..j + 1][0] == s[j];
      }
    }
    FindNoneIff(s, ".");
  }

  /** A text that starts with a letter is not a number. */
  lemma ParseDecimalLetter(s: string)
    requires |s| > 0 && ('a' <= s[0] <= 'z' || 'A' <= s[0] <= 'Z')
    ensures ParseDecimal(s) == None
  {
    match Find(s, ".")
    case None =>
    case Some(i) =>
      if i > 0 {
        assert s[..i][0] == s[0];
      }
  }
}
