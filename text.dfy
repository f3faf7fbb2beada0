/**
  The string built-ins the front-ends lean on: `String.prototype.trim`,
  `toLowerCase` / `toUpperCase` (ASCII letters only), `includes`, and the
  decimal rendering of a status code inside a template literal.
 */
module Text {

  /** The code points ECMAScript's `trim` removes: WhiteSpace and LineTerminator. */
  predicate IsSpace(c: char) {
    || c == '\t' || c == '\n' || c == '\U{000B}' || c == '\U{000C}' || c == '\r' || c == ' '
    || c == '\U{00A0}' || c == '\U{1680}' || ('\U{2000}' <= c <= '\U{200A}')
    || c == '\U{2028}' || c == '\U{2029}' || c == '\U{202F}' || c == '\U{205F}'
    || c == '\U{3000}' || c == '\U{FEFF}'
  }

  predicate AllSpace(s: string) {
    forall i :: 0 <= i < |s| ==> IsSpace(s[i])
  }

  /** How many white-space characters `s` starts with. */
  function LeadingSpaces(s: string): (n: nat)
    ensures n <= |s| && AllSpace(s[..n])
    ensures n < |s| ==> !IsSpace(s[n])
  {
    if s != [] && IsSpace(s[0]) then
      var rest := s[1..];
      var m := LeadingSpaces(rest);
      assert s[..m + 1] == [s[0]] + rest[..m];
      AllSpaceConcat([s[0]], rest[..m]);
      assert m + 1 < |s| ==> s[m + 1] == rest[m];
      m + 1
    else 0
  }

  /** How many white-space characters `s` ends with. */
  function TrailingSpaces(s: string): (n: nat)
    ensures n <= |s| && AllSpace(s[|s| - n..])
    ensures n < |s| ==> !IsSpace(s[|s| - n - 1])
  {
    if s != [] && IsSpace(s[|s| - 1]) then
      var init := s[..|s| - 1];
      var m := TrailingSpaces(init);
      assert s[|s| - m - 1..] == init[|init| - m..] + [s[|s| - 1]];
      AllSpaceConcat(init[|init| - m..], [s[|s| - 1]]);
      assert m + 1 < |s| ==> s[|s| - m - 2] == init[|init| - m - 1];
      m + 1
    else 0
  }

  /** `s` with its leading white space removed. */
  function TrimStart(s: string): string {
    s[LeadingSpaces(s)..]
  }

  /** `s` with its trailing white space removed. */
  function TrimEnd(s: string): string {
    s[..|s| - TrailingSpaces(s)]
  }

  /** No white space at either end. */
  predicate Trimmed(r: string) {
    r == [] || (!IsSpace(r[0]) && !IsSpace(r[|r| - 1]))
  }

  /** `String.prototype.trim`. */
  function Trim(s: string): (r: string)
    ensures Trimmed(r)
  {
    var t := TrimStart(s);
    assert TrimEnd(t) == [] || TrimEnd(t)[0] == t[0];
    TrimEnd(t)
  }

  /** The trimmed string is the part of `s` left between a blank prefix and a blank suffix. */
  lemma TrimIsCore(s: string) returns (n: nat, m: nat)
    ensures n <= m <= |s|
    ensures Trim(s) == s[n..m]
    ensures AllSpace(s[..n]) && AllSpace(s[m..])
  {
    n := LeadingSpaces(s);
    var t := s[n..];
    var k := TrailingSpaces(t);
    m := n + |t| - k;
    assert TrimStart(s) == t;
    assert Trim(s) == t[..|t| - k] == s[n..m];
    assert AllSpace(t[|t| - k..]) && t[|t| - k..] == s[m..];
  }

  /** A string with no white space at either end is its own trim. */
  lemma TrimOfTrimmed(s: string)
    requires Trimmed(s)
    ensures Trim(s) == s
  {
    assert LeadingSpaces(s) == 0;
    assert TrailingSpaces(s) == 0;
  }

  /** Trimming gives the empty string exactly when the input is all white space. */
  lemma TrimEmptyIff(s: string)
    ensures Trim(s) == [] <==> AllSpace(s)
  {
    var n, m := TrimIsCore(s);
    if Trim(s) == [] {
      assert s == s[..n] + s[m..];
      AllSpaceConcat(s[..n], s[m..]);
    } else {
      assert s[n] == Trim(s)[0];
    }
  }

  lemma {:induction false} LeadingSpacesOfBlankPrefix(a: string, s: string)
    requires AllSpace(a)
    requires s == [] || !IsSpace(s[0])
    ensures LeadingSpaces(a + s) == |a|
    decreases |a|
  {
    if a != [] {
      assert (a + s)[1..] == a[1..] + s;
      LeadingSpacesOfBlankPrefix(a[1..], s);
    } else {
      assert a + s == s;
    }
  }

  lemma {:induction false} TrailingSpacesOfBlankSuffix(s: string, b: string)
    requires AllSpace(b)
    requires s == [] || !IsSpace(s[|s| - 1])
    ensures TrailingSpaces(s + b) == |b|
    decreases |b|
  {
    if b != [] {
      assert (s + b)[..|s + b| - 1] == s + b[..|b| - 1];
      TrailingSpacesOfBlankSuffix(s, b[..|b| - 1]);
    } else {
      assert s + b == s;
    }
  }

  lemma AllSpaceConcat(x: string, y: string)
    requires AllSpace(x) && AllSpace(y)
    ensures AllSpace(x + y)
  {
    forall i | 0 <= i < |x + y| ensures IsSpace((x + y)[i]) {
      if i >= |x| { assert (x + y)[i] == y[i - |x|]; }
    }
  }

  /** A string already free of outer white space comes back out of any blank padding. */
  lemma TrimOfPadded(x: string, r: string, y: string)
    requires AllSpace(x) && AllSpace(y) && Trimmed(r)
    ensures Trim(x + r + y) == r
  {
    var s := x + r + y;
    if r == [] {
      AllSpaceConcat(x, y);
      assert s == (x + y) + [];
      LeadingSpacesOfBlankPrefix(x + y, []);
      assert TrimStart(s) == [];
    } else {
      assert s == x + (r + y);
      LeadingSpacesOfBlankPrefix(x, r + y);
      assert TrimStart(s) == r + y;
      TrailingSpacesOfBlankSuffix(r, y);
      assert (r + y)[..|r|] == r;
    }
  }

  lemma Regroup(a: string, s: string, b: string, n: nat, m: nat)
    requires n <= m <= |s|
    ensures a + s + b == (a + s[..n]) + s[n..m] + (s[m..] + b)
  {
    assert s == s[..n] + s[n..m] + s[m..];
  }

  /** Outer white space does not matter to `trim`. */
  lemma TrimIgnoresPadding(a: string, s: string, b: string)
    requires AllSpace(a) && AllSpace(b)
    ensures Trim(a + s + b) == Trim(s)
  {
    var n, m := TrimIsCore(s);
    var pre, r, post := s[..n], s[n..m], s[m..];
    AllSpaceConcat(a, pre);
    AllSpaceConcat(post, b);
    Regroup(a, s, b, n, m);
    TrimOfPadded(a + pre, r, post + b);
  }

  /** Trimming twice is trimming once. */
  lemma TrimIdempotent(s: string)
    ensures Trim(Trim(s)) == Trim(s)
  {
    var r := Trim(s);
    assert [] + r + [] == r;
    TrimOfPadded([], r, []);
  }

  /** ASCII `toLowerCase` of one character. */
  function LowerChar(c: char): char {
    if 'A' <= c <= 'Z' then (c as int + 32) as char else c
  }

  /** ASCII `toUpperCase` of one character. */
  function UpperChar(c: char): char {
    if 'a' <= c <= 'z' then (c as int - 32) as char else c
  }

  function ToLower(s: string): (r: string)
    ensures |r| == |s|
  {
    seq(|s|, i requires 0 <= i < |s| => LowerChar(s[i]))
  }

  function ToUpper(s: string): (r: string)
    ensures |r| == |s|
  {
    seq(|s|, i requires 0 <= i < |s| => UpperChar(s[i]))
  }

  predicate IsLowerCase(s: string) {
    forall i :: 0 <= i < |s| ==> !('A' <= s[i] <= 'Z')
  }

  /** Lower-casing leaves no upper-case letter, changes nothing a second time, and works letter by letter. */
  lemma ToLowerFacts(s: string, t: string)
    ensures IsLowerCase(ToLower(s))
    ensures ToLower(ToLower(s)) == ToLower(s)
    ensures ToLower(s + t) == ToLower(s) + ToLower(t)
    ensures IsLowerCase(s) ==> ToLower(s) == s
  {
  }

  /** Upper-casing first does not change what lower-casing gives. */
  lemma LowerOfUpper(s: string)
    ensures ToLower(ToUpper(s)) == ToLower(s)
  {
  }

  lemma LowerKeepsSpace(x: string)
    ensures AllSpace(x) ==> AllSpace(ToLower(x))
    ensures Trimmed(x) ==> Trimmed(ToLower(x))
  {
  }

  /** Case mapping never turns white space into a letter or back, so it commutes with `trim`. */
  lemma LowerCommutesWithTrim(s: string)
    ensures ToLower(Trim(s)) == Trim(ToLower(s))
  {
    var n, m := TrimIsCore(s);
    var r := Trim(s);
    var pre, post := s[..n], s[m..];
    assert s == pre + r + post;
    ToLowerFacts(pre, r);
    ToLowerFacts(pre + r, post);
    LowerKeepsSpace(pre);
    LowerKeepsSpace(r);
    LowerKeepsSpace(post);
    TrimOfPadded(ToLower(pre), ToLower(r), ToLower(post));
  }

  /** `p` occurs in `s` at position `i`. */
  predicate OccursAt(s: string, p: string, i: nat)
    requires i + |p| <= |s|
  {
    s[i..i + |p|] == p
  }

  /** `String.prototype.includes`. */
  predicate Contains(s: string, p: string) {
    exists i: nat :: i + |p| <= |s| && OccursAt(s, p, i)
  }

  /** An occurrence inside a part is an occurrence in the whole. */
  lemma ContainsInMiddle(a: string, p: string, b: string)
    ensures Contains(a + p + b, p)
  {
    var s := a + p + b;
    assert s[|a|..|a| + |p|] == p;
    assert OccursAt(s, p, |a|);
  }

  /** The character `c` does not occur in `s`. */
  predicate Lacks(s: string, c: char) {
    forall i :: 0 <= i < |s| ==> s[i] != c
  }

  /** The character `x` is never directly followed by `y` in `s`. */
  predicate LacksPair(s: string, x: char, y: char) {
    forall i :: 0 <= i < |s| - 1 ==> !(s[i] == x && s[i + 1] == y)
  }

  /** A string lacking one of the characters of `p` does not contain `p`. */
  lemma LacksNotContains(s: string, p: string, k: nat)
    requires k < |p| && Lacks(s, p[k])
    ensures !Contains(s, p)
  {
    forall i: nat | i + |p| <= |s| ensures !OccursAt(s, p, i) {
      assert s[i..i + |p|][k] == s[i + k];
    }
  }

  /** A string lacking one of the adjacent pairs of `p` does not contain `p`. */
  lemma LacksPairNotContains(s: string, p: string, k: nat)
    requires k + 1 < |p| && LacksPair(s, p[k], p[k + 1])
    ensures !Contains(s, p)
  {
    forall i: nat | i + |p| <= |s| ensures !OccursAt(s, p, i) {
      assert s[i..i + |p|][k] == s[i + k];
      assert s[i..i + |p|][k + 1] == s[i + k + 1];
    }
  }

  lemma LacksConcat(a: string, b: string, c: char)
    requires Lacks(a, c) && Lacks(b, c)
    ensures Lacks(a + b, c)
  {
    forall i | 0 <= i < |a + b| ensures (a + b)[i] != c {
      if i >= |a| { assert (a + b)[i] == b[i - |a|]; }
    }
  }

  lemma LacksPairConcat(a: string, b: string, x: char, y: char)
    requires LacksPair(a, x, y) && LacksPair(b, x, y)
    requires a != [] && b != [] && !(a[|a| - 1] == x && b[0] == y)
    ensures LacksPair(a + b, x, y)
  {
    forall i | 0 <= i < |a + b| - 1 ensures !((a + b)[i] == x && (a + b)[i + 1] == y) {
      if i >= |a| {
        assert (a + b)[i] == b[i - |a|] && (a + b)[i + 1] == b[i + 1 - |a|];
      } else if i == |a| - 1 {
        assert (a + b)[i + 1] == b[0];
      }
    }
  }

  /** A digit character. */
  predicate IsDigit(c: char) { '0' <= c <= '9' }

  /** The decimal form of a natural number, as a template literal prints it. */
  function DecimalString(n: nat): (r: string)
    ensures |r| > 0
    ensures forall i :: 0 <= i < |r| ==> IsDigit(r[i])
    ensures n > 0 ==> r[0] != '0'
    decreases n
  {
    if n < 10 then [('0' as int + n) as char]
    else DecimalString(n / 10) + [('0' as int + n % 10) as char]
  }

  /** Reads a string of digits back as a number. */
  function DecimalValue(s: string): nat
    requires forall i :: 0 <= i < |s| ==> IsDigit(s[i])
  {
    if s == [] then 0
    else
      var last := s[|s| - 1];
      assert IsDigit(last);
      DecimalValue(s[..|s| - 1]) * 10 + (last as int - '0' as int)
  }

  /** The printed status code reads back as the status code. */
  lemma {:induction false} DecimalRoundTrip(n: nat)
    ensures DecimalValue(DecimalString(n)) == n
    decreases n
  {
    var r := DecimalString(n);
    if n >= 10 {
      assert r[..|r| - 1] == DecimalString(n / 10);
      DecimalRoundTrip(n / 10);
    }
  }
}
