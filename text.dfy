/** Character classes and string helpers shared by the crawler (Python) and
    the backend services (JavaScript): whitespace as each language defines it,
    trimming, ASCII lower-casing, prefix and substring tests, decimal digits. */
module Text {

  /** Python's `str.isspace`: what `str.strip()` removes and what `\s`
      matches in a `re` pattern over `str`. */
  predicate IsPySpace(c: char) {
    ('\t' <= c <= '\r') || ('\U{1C}' <= c <= '\U{1F}') || c == ' '
    || c == '\U{85}' || c == '\U{A0}' || c == '\U{1680}'
    || ('\U{2000}' <= c <= '\U{200A}') || c == '\U{2028}' || c == '\U{2029}'
    || c == '\U{202F}' || c == '\U{205F}' || c == '\U{3000}'
  }

  /** ECMAScript WhiteSpace and LineTerminator: what `String.prototype.trim`
      removes and what `\s` matches in a regular expression. */
  predicate IsJsSpace(c: char) {
    ('\t' <= c <= '\r') || c == ' ' || c == '\U{A0}' || c == '\U{1680}'
    || ('\U{2000}' <= c <= '\U{200A}') || c == '\U{2028}' || c == '\U{2029}'
    || c == '\U{202F}' || c == '\U{205F}' || c == '\U{3000}' || c == '\U{FEFF}'
  }

  predicate AllIn(s: string, p: char -> bool) {
    forall i :: 0 <= i < |s| ==> p(s[i])
  }

  lemma AllInPrefix(s: string, p: char -> bool, i: nat, k: nat)
    requires k < i <= |s| && AllIn(s[..i], p)
    ensures p(s[k])
  {
    assert s[..i][k] == s[k];
  }

  lemma AllInSuffix(s: string, p: char -> bool, j: nat, k: nat)
    requires j <= k < |s| && AllIn(s[j..], p)
    ensures p(s[k])
  {
    assert s[j..][k - j] == s[k];
  }

  /** The first index at or after `i` whose character is not in `p`, or |s|. */
  function RunEnd(s: string, i: nat, p: char -> bool): (j: nat)
    requires i <= |s|
    ensures i <= j <= |s| && AllIn(s[i..j], p)
    ensures j < |s| ==> !p(s[j])
    decreases |s| - i
  {
    if i < |s| && p(s[i]) then RunEnd(s, i + 1, p) else i
  }

  /** The least index at or after `lo`, counting down from `j`, such that
      everything from it up to `j` is in `p`. */
  function RunStartBack(s: string, lo: nat, j: nat, p: char -> bool): (k: nat)
    requires lo <= j <= |s|
    ensures lo <= k <= j && AllIn(s[k..j], p)
    ensures k > lo ==> !p(s[k - 1])
    decreases j
  {
    if j > lo && p(s[j - 1]) then
      var k := RunStartBack(s, lo, j - 1, p);
      assert s[k..j] == s[k..j - 1] + [s[j - 1]];
      k
    else j
  }

  lemma AllInJoin(s: string, i: nat, p: char -> bool)
    requires i <= |s| && AllIn(s[..i], p) && AllIn(s[i..], p)
    ensures AllIn(s, p)
  {
    forall k | 0 <= k < |s|
      ensures p(s[k])
    {
      if k < i {
        assert s[..i][k] == s[k];
      } else {
        assert s[i..][k - i] == s[k];
      }
    }
  }

  /** Where the trimmed part of `s` starts and ends. */
  function TrimFrom(s: string, ws: char -> bool): nat
  {
    RunEnd(s, 0, ws)
  }

  function TrimTo(s: string, ws: char -> bool): nat
  {
    RunStartBack(s, TrimFrom(s, ws), |s|, ws)
  }

  /** Both ends trimmed: the result is empty exactly when `s` is made only of
      `ws` characters, and otherwise neither starts nor ends with one. */
  function Trim(s: string, ws: char -> bool): (r: string)
    ensures |r| <= |s|
    ensures r != [] ==> !ws(r[0]) && !ws(r[|r| - 1])
    ensures r == [] <==> AllIn(s, ws)
  {
    var i := TrimFrom(s, ws);
    var j := TrimTo(s, ws);
    assert i == j ==> AllIn(s, ws) by {
      if i == j {
        assert s[..i] == s[0..i] && s[i..] == s[j..|s|];
        AllInJoin(s, i, ws);
      }
    }
    assert AllIn(s, ws) ==> i == |s|;
    s[i..j]
  }

  /** What Trim removes is whitespace on both sides. */
  lemma TrimShape(s: string, ws: char -> bool)
    ensures TrimFrom(s, ws) <= TrimTo(s, ws) <= |s|
    ensures Trim(s, ws) == s[TrimFrom(s, ws)..TrimTo(s, ws)]
    ensures AllIn(s[..TrimFrom(s, ws)], ws) && AllIn(s[TrimTo(s, ws)..], ws)
  {
    assert s[..TrimFrom(s, ws)] == s[0..TrimFrom(s, ws)];
  }

  /** RunEnd stops exactly at the first character outside `p`. */
  lemma {:induction false} RunEndExact(s: string, i: nat, k: nat, p: char -> bool)
    requires i <= k <= |s| && AllIn(s[i..k], p) && (k == |s| || !p(s[k]))
    ensures RunEnd(s, i, p) == k
    decreases k - i
  {
    if i < k {
      assert s[i..k][0] == s[i];
      assert s[i + 1..k] == s[i..k][1..];
      RunEndExact(s, i + 1, k, p);
    }
  }

  /** RunEnd stops at or before any character outside `p`. */
  lemma {:induction false} RunEndBound(s: string, i: nat, k: nat, p: char -> bool)
    requires i <= k <= |s| && (k == |s| || !p(s[k]))
    ensures RunEnd(s, i, p) <= k
    decreases k - i
  {
    if i < k && p(s[i]) {
      RunEndBound(s, i + 1, k, p);
    }
  }

  /** A string that already starts and ends outside `ws` is its own trim. */
  lemma TrimTrimmed(s: string, ws: char -> bool)
    requires s != [] && !ws(s[0]) && !ws(s[|s| - 1])
    ensures Trim(s, ws) == s
  {
    RunEndExact(s, 0, 0, ws);
  }

  function PyStrip(s: string): string { Trim(s, IsPySpace) }

  function JsTrim(s: string): string { Trim(s, IsJsSpace) }

  /** Trimming keeps a property every character has. */
  lemma TrimKeepsAll(s: string, ws: char -> bool, p: char -> bool)
    requires AllIn(s, p)
    ensures AllIn(Trim(s, ws), p)
  {
    var r := Trim(s, ws);
    TrimShape(s, ws);
    assert forall i | 0 <= i < |r| :: r[i] == s[TrimFrom(s, ws) + i];
  }

  /** A character that is not whitespace survives trimming. */
  lemma TrimKeepsInner(s: string, ws: char -> bool, k: nat)
    requires k < |s| && !ws(s[k])
    ensures Trim(s, ws) != [] && s[k] in Trim(s, ws)
  {
    TrimShape(s, ws);
    var i, j := TrimFrom(s, ws), TrimTo(s, ws);
    if k < i { AllInPrefix(s, ws, i, k); }
    if k >= j { AllInSuffix(s, ws, j, k); }
    assert Trim(s, ws)[k - i] == s[k];
  }

  function LowerChar(c: char): char {
    if 'A' <= c <= 'Z' then (c as int + 32) as char else c
  }

  /** ASCII lower-casing. */
  function Lower(s: string): (r: string)
    ensures |r| == |s| && forall i :: 0 <= i < |s| ==> r[i] == LowerChar(s[i])
  {
    seq(|s|, i requires 0 <= i < |s| => LowerChar(s[i]))
  }

  predicate StartsWith(s: string, p: string) {
    |p| <= |s| && s[..|p|] == p
  }

  /** Case-insensitive prefix test of a regular expression `^p` with the `i`
      flag; `p` is given in lower case. */
  predicate StartsWithCI(s: string, p: string) {
    |p| <= |s| && Lower(s[..|p|]) == p
  }

  /** Substring test: Python's `t in s`, JavaScript's `s.includes(t)`. */
  predicate Contains(s: string, t: string) {
    StartsWith(s, t) || (s != [] && Contains(s[1..], t))
  }

  predicate IsDigit(c: char) { '0' <= c <= '9' }

  /** Decimal value of a string of ASCII digits (leading zeros allowed), as
      Python's `int` and JavaScript's `parseInt(_, 10)` read it. */
  function DecimalValue(s: string): nat
    requires AllIn(s, IsDigit)
  {
    if s == [] then 0
    else 10 * DecimalValue(s[..|s| - 1]) + (s[|s| - 1] as int - '0' as int)
  }

  /** Decimal rendering of a natural number, as Python's f-string and
      JavaScript's string conversion print it. */
  function DecimalString(n: nat): (r: string)
    ensures r != [] && AllIn(r, IsDigit)
    ensures DecimalValue(r) == n
    ensures |r| > 1 ==> r[0] != '0'
    decreases n
  {
    var last := [('0' as int + n % 10) as char];
    if n < 10 then last
    else
      var r := DecimalString(n / 10) + last;
      assert r[..|r| - 1] == DecimalString(n / 10);
      r
  }

  /** A string the JavaScript `s.trim().length > 0` test rejects. */
  predicate IsBlank(s: string) { AllIn(s, IsJsSpace) }

  /** `.filter((s) => s.trim().length > 0)`. */
  function NonBlank(xs: seq<string>): (r: seq<string>)
    ensures forall x | x in r :: x in xs && !IsBlank(x)
    ensures forall k | 0 <= k < |xs| && !IsBlank(xs[k]) :: r != []
  {
    if xs == [] then []
    else
      var init := NonBlank(xs[..|xs| - 1]);
      var last := xs[|xs| - 1];
      if IsBlank(last) then init else init + [last]
  }

  /** The last element the filter keeps is the last non-blank element. */
  lemma {:induction false} NonBlankLast(xs: seq<string>) returns (k: nat)
    requires NonBlank(xs) != []
    ensures k < |xs| && !IsBlank(xs[k])
    ensures NonBlank(xs)[|NonBlank(xs)| - 1] == xs[k]
    ensures forall k' | k < k' < |xs| :: IsBlank(xs[k'])
  {
    var init := xs[..|xs| - 1];
    if IsBlank(xs[|xs| - 1]) {
      k := NonBlankLast(init);
      assert forall k' | k < k' < |init| :: init[k'] == xs[k'];
    } else {
      k := |xs| - 1;
    }
  }

  /** A string that starts with `t` contains whatever `t` contains. */
  lemma {:induction false} PrefixContains(s: string, t: string, u: string)
    requires StartsWith(s, t) && Contains(t, u)
    ensures Contains(s, u)
    decreases |t|
  {
    if StartsWith(t, u) {
      assert s[..|u|] == t[..|u|];
    } else {
      assert s[1..][..|t| - 1] == t[1..];
      PrefixContains(s[1..], t[1..], u);
    }
  }

  /** Containment is transitive. */
  lemma {:induction false} ContainsTrans(s: string, t: string, u: string)
    requires Contains(s, t) && Contains(t, u)
    ensures Contains(s, u)
    decreases |s|
  {
    if StartsWith(s, t) {
      PrefixContains(s, t, u);
    } else {
      ContainsTrans(s[1..], t, u);
    }
  }
}
