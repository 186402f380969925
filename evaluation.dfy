/** `extractEvaluation` of the AI service: the structured evaluation read out
    of an interviewer's final reply. Each regular expression is modelled as
    the engine runs it over the reply: the overall score (first match), the
    recommendation (substring precedence), the strengths and improvements
    sections (lazy capture up to a stop word, split into items) and the
    skill scores (every match of the score pattern, later ones overwriting
    earlier ones under the same skill). */
module Assessment {
  import opened Wrappers
  import opened Text

  datatype Evaluation = Evaluation(
    overallScore: nat,
    recommendation: string,
    strengths: seq<string>,
    improvements: seq<string>,
    skillScores: map<string, nat>)

  const Unspecified: string := "未指定"
  const Recommended: string := "推荐"
  const Cautious: string := "谨慎推荐"
  const NotRecommended: string := "不推荐"
  const HireRecommended: string := "推荐录用"
  const StronglyRecommended: string := "强烈推荐"

  /** The record returned when the reply yields nothing. */
  const Defaults: Evaluation := Evaluation(0, Unspecified, [], [], map[])

  /** An ASCII or a full-width colon. */
  predicate IsColon(c: char) { c == ':' || c == '：' }

  predicate NotColon(c: char) { !IsColon(c) }

  // ----- Overall score: /总体得分[：:]\s*(\d+)/i -----

  const ScoreLabel: string := "总体得分"

  /** The score pattern tried at `p`: the label, a colon, whitespace, at
      least one digit; the captured digits. */
  function ScoreAt(s: string, p: nat): (r: Option<string>)
    requires p <= |s|
    ensures r.Some? ==> r.value != [] && AllIn(r.value, IsDigit)
    ensures r.Some? ==> p + |ScoreLabel| < |s| && IsColon(s[p + |ScoreLabel|])
  {
    var c := p + |ScoreLabel|;
    if c < |s| && s[p..c] == ScoreLabel && IsColon(s[c]) then
      var w := RunEnd(s, c + 1, IsJsSpace);
      var d := RunEnd(s, w, IsDigit);
      if w < d then Some(s[w..d]) else None
    else None
  }

  /** The leftmost match at or after `p`. */
  function FirstScore(s: string, p: nat): (r: Option<string>)
    requires p <= |s|
    ensures r.Some? ==> r.value != [] && AllIn(r.value, IsDigit)
    decreases |s| - p
  {
    if p == |s| then None
    else if ScoreAt(s, p).Some? then ScoreAt(s, p)
    else FirstScore(s, p + 1)
  }

  /** `parseInt` of the captured digits, 0 when there is no match. */
  function OverallScore(s: string): nat
  {
    match FirstScore(s, 0)
    case Some(digits) => DecimalValue(digits)
    case None => 0
  }

  /** The score comes from the leftmost place the pattern matches. */
  lemma {:induction false} FirstScoreLeftmost(s: string, p: nat) returns (k: nat)
    requires p <= |s|
    ensures FirstScore(s, p).Some? ==>
              p <= k < |s| && ScoreAt(s, k) == FirstScore(s, p)
              && forall k' | p <= k' < k :: ScoreAt(s, k').None?
    ensures FirstScore(s, p).None? ==> forall k' | p <= k' <= |s| :: ScoreAt(s, k').None?
    decreases |s| - p
  {
    if p == |s| || ScoreAt(s, p).Some? {
      k := p;
    } else {
      k := FirstScoreLeftmost(s, p + 1);
    }
  }

  /** A score written after the label is read back: the label, a colon,
      whitespace, the decimal rendering of `n`, and anything that does not
      continue the digits. */
  lemma ScoreRoundTrip(colon: char, gap: string, n: nat, tail: string)
    requires IsColon(colon) && AllIn(gap, IsJsSpace)
    requires tail == [] || !IsDigit(tail[0])
    ensures OverallScore(ScoreLabel + [colon] + gap + DecimalString(n) + tail) == n
  {
    var digits := DecimalString(n);
    var s := ScoreLabel + [colon] + gap + digits + tail;
    var c := |ScoreLabel|;
    var w := c + 1 + |gap|;
    var d := w + |digits|;
    assert s[0..c] == ScoreLabel;
    assert s[c + 1..w] == gap;
    assert s[w] == digits[0];
    RunEndExact(s, c + 1, w, IsJsSpace);
    assert s[w..d] == digits;
    assert d < |s| ==> s[d] == tail[0];
    RunEndExact(s, w, d, IsDigit);
  }

  // ----- Recommendation -----

  /** The verdict, by substring precedence. */
  function RecommendationOf(s: string): string
  {
    if Contains(s, HireRecommended) || Contains(s, StronglyRecommended) then Recommended
    else if Contains(s, Cautious) then Cautious
    else if Contains(s, NotRecommended) then NotRecommended
    else Unspecified
  }

  /** "不推荐录用" ("not recommended for hire") is classified as recommended,
      because it contains "推荐录用"; and any verdict other than the default
      needs "推荐" somewhere in the reply. */
  lemma {:induction false} RecommendationPrecedence(s: string)
    ensures Contains(s, "不推荐录用") ==> RecommendationOf(s) == Recommended
    ensures Contains(s, Cautious) ==> RecommendationOf(s) in {Recommended, Cautious}
    ensures RecommendationOf(s) != Unspecified ==> Contains(s, Recommended)
  {
    if Contains(s, "不推荐录用") {
      assert "不推荐录用"[1..] == HireRecommended;
      assert Contains("不推荐录用"[1..], HireRecommended);
      ContainsTrans(s, "不推荐录用", HireRecommended);
    }
    if RecommendationOf(s) != Unspecified {
      if Contains(s, HireRecommended) {
        assert StartsWith(HireRecommended, Recommended);
        ContainsTrans(s, HireRecommended, Recommended);
      } else if Contains(s, StronglyRecommended) {
        assert StronglyRecommended[2..] == Recommended;
        assert Contains(StronglyRecommended[2..], Recommended);
        assert Contains(StronglyRecommended[1..], Recommended);
        ContainsTrans(s, StronglyRecommended, Recommended);
      } else if Contains(s, Cautious) {
        assert Cautious[2..] == Recommended;
        assert Contains(Cautious[2..], Recommended);
        assert Contains(Cautious[1..], Recommended);
        ContainsTrans(s, Cautious, Recommended);
      } else {
        assert NotRecommended[1..] == Recommended;
        assert Contains(NotRecommended[1..], Recommended);
        ContainsTrans(s, NotRecommended, Recommended);
      }
    }
  }

  // ----- Sections -----

  const StrengthHeaders: seq<string> := ["优势"]
  const StrengthStops: seq<string> := ["需要改进", "改进之处", "不足之处"]
  const ImprovementHeaders: seq<string> := ["需要改进", "改进之处", "不足之处"]
  const ImprovementStops: seq<string> := ["技能评分", "总结"]

  /** One of `words`, tried in order, followed by a colon at `p`; where the
      capture starts. */
  function HeaderAt(s: string, p: nat, words: seq<string>): (r: Option<nat>)
    requires p <= |s|
    ensures r.Some? ==> p < r.value <= |s| && IsColon(s[r.value - 1])
  {
    if words == [] then None
    else
      var c := p + |words[0]|;
      if c < |s| && s[p..c] == words[0] && IsColon(s[c]) then Some(c + 1)
      else HeaderAt(s, p, words[1..])
  }

  /** A stop word of the lookahead starts at `k`. */
  predicate StopAt(s: string, k: nat, stops: seq<string>)
    requires k <= |s|
  {
    exists t | t in stops :: StartsWith(s[k..], t)
  }

  /** Where the lazy capture from `k` ends: the first stop word, or the end. */
  function CaptureEnd(s: string, k: nat, stops: seq<string>): (e: nat)
    requires k <= |s|
    ensures k <= e <= |s| && (e < |s| ==> StopAt(s, e, stops))
    ensures forall k' | k <= k' < e :: !StopAt(s, k', stops)
    decreases |s| - k
  {
    if k == |s| || StopAt(s, k, stops) then k else CaptureEnd(s, k + 1, stops)
  }

  /** The capture of the leftmost header at or after `p`. */
  function Section(s: string, p: nat, headers: seq<string>, stops: seq<string>): Option<string>
    requires p <= |s|
    decreases |s| - p
  {
    if p == |s| then None
    else
      match HeaderAt(s, p, headers)
      case Some(b) => Some(s[b..CaptureEnd(s, b, stops)])
      case None => Section(s, p + 1, headers, stops)
  }

  /** `split(/\d+\.|\-/)`, with `acc` the piece read so far: a separator is
      a dash, or a run of digits closed by a dot. */
  function Pieces(s: string, acc: string): (r: seq<string>)
    ensures r != []
    decreases |s|
  {
    if s == [] then [acc]
    else if s[0] == '-' then [acc] + Pieces(s[1..], [])
    else if IsDigit(s[0]) then
      var e := RunEnd(s, 0, IsDigit);
      if e < |s| && s[e] == '.' then [acc] + Pieces(s[e + 1..], [])
      else Pieces(s[e..], acc + s[..e])
    else Pieces(s[1..], acc + [s[0]])
  }

  function TrimAll(xs: seq<string>): (r: seq<string>)
    ensures |r| == |xs| && forall i | 0 <= i < |xs| :: r[i] == JsTrim(xs[i])
  {
    seq(|xs|, i requires 0 <= i < |xs| => JsTrim(xs[i]))
  }

  /** The items of a section: the non-blank pieces, trimmed. */
  function Items(body: string): seq<string>
  {
    TrimAll(NonBlank(Pieces(body, [])))
  }

  /** A section's items, or none when the header is missing or the capture
      is empty. */
  function SectionItems(s: string, headers: seq<string>, stops: seq<string>): seq<string>
  {
    match Section(s, 0, headers, stops)
    case Some(body) => if body != [] then Items(body) else []
    case None => []
  }

  /** No piece of the split holds a dash. */
  lemma {:induction false} PiecesDashFree(s: string, acc: string)
    requires '-' !in acc
    ensures forall x | x in Pieces(s, acc) :: '-' !in x
    decreases |s|
  {
    if s == [] {
    } else if s[0] == '-' {
      PiecesDashFree(s[1..], []);
    } else if IsDigit(s[0]) {
      var e := RunEnd(s, 0, IsDigit);
      if e < |s| && s[e] == '.' {
        PiecesDashFree(s[e + 1..], []);
      } else {
        assert forall i | 0 <= i < e :: s[..e][i] == s[i] && IsDigit(s[i]);
        PiecesDashFree(s[e..], acc + s[..e]);
      }
    } else {
      PiecesDashFree(s[1..], acc + [s[0]]);
    }
  }

  /** Every item is non-empty, starts and ends with a non-space and holds no
      dash. */
  lemma ItemsSpec(body: string)
    ensures forall x | x in Items(body) ::
              x != [] && !IsJsSpace(x[0]) && !IsJsSpace(x[|x| - 1]) && '-' !in x
  {
    var nb := NonBlank(Pieces(body, []));
    PiecesDashFree(body, []);
    forall x | x in Items(body)
      ensures x != [] && '-' !in x
    {
      var i :| 0 <= i < |nb| && x == JsTrim(nb[i]);
      assert nb[i] in nb;
      TrimmedPiece(nb[i]);
    }
  }

  /** A non-blank piece without dashes trims to a non-empty item without
      dashes. */
  lemma TrimmedPiece(p: string)
    requires !IsBlank(p) && '-' !in p
    ensures JsTrim(p) != [] && '-' !in JsTrim(p)
  {
    var x := JsTrim(p);
    TrimShape(p, IsJsSpace);
    assert forall k | 0 <= k < |x| :: x[k] == p[TrimFrom(p, IsJsSpace) + k];
  }

  /** A list written as dash bullets. */
  function Bullets(xs: seq<string>): string
  {
    if xs == [] then [] else "-" + xs[0] + Bullets(xs[1..])
  }

  /** Text free of dashes and dots never closes a piece. */
  predicate Plain(c: char) { c != '-' && c != '.' }

  lemma {:induction false} PlainPrefix(x: string, rest: string, acc: string)
    requires AllIn(x, Plain) && (rest == [] || rest[0] == '-')
    ensures Pieces(x + rest, acc) == Pieces(rest, acc + x)
    decreases |x|
  {
    var s := x + rest;
    if x == [] {
      assert s == rest && acc + x == acc;
    } else if IsDigit(s[0]) {
      var e := RunEnd(s, 0, IsDigit);
      assert |x| < |s| ==> s[|x|] == rest[0];
      RunEndBound(s, 0, |x|, IsDigit);
      assert e == |x| ==> rest == [] || s[e] == '-';
      assert e < |x| ==> s[e] == x[e];
      assert s[e..] == x[e..] + rest;
      assert acc + s[..e] + x[e..] == acc + x;
      assert forall i | 0 <= i < |x[e..]| :: x[e..][i] == x[e + i];
      PlainPrefix(x[e..], rest, acc + s[..e]);
    } else {
      assert s[1..] == x[1..] + rest;
      assert acc + [s[0]] + x[1..] == acc + x;
      assert forall i | 0 <= i < |x[1..]| :: x[1..][i] == x[i + 1];
      PlainPrefix(x[1..], rest, acc + [s[0]]);
    }
  }

  lemma {:induction false} PiecesOfBullets(xs: seq<string>, acc: string)
    requires forall x | x in xs :: AllIn(x, Plain)
    ensures Pieces(Bullets(xs), acc) == [acc] + xs
  {
    if xs != [] {
      var rest := Bullets(xs[1..]);
      assert Bullets(xs) == "-" + (xs[0] + rest);
      assert (xs[0] + rest)[..] == Bullets(xs)[1..];
      assert xs[0] in xs;
      PlainPrefix(xs[0], rest, []);
      assert [] + xs[0] == xs[0];
      PiecesOfBullets(xs[1..], xs[0]);
      assert [xs[0]] + xs[1..] == xs;
    }
  }

  lemma {:induction false} NonBlankAll(xs: seq<string>)
    requires forall x | x in xs :: !IsBlank(x)
    ensures NonBlank(xs) == xs
  {
    if xs != [] {
      NonBlankAll(xs[..|xs| - 1]);
      assert xs[..|xs| - 1] + [xs[|xs| - 1]] == xs;
    }
  }

  /** Items written as dash bullets are read back as they were: each item
      non-empty, without surrounding spaces, dashes or dots. */
  lemma ItemsOfBullets(xs: seq<string>)
    requires forall x | x in xs :: x != [] && !IsJsSpace(x[0]) && !IsJsSpace(x[|x| - 1]) && AllIn(x, Plain)
    ensures Items(Bullets(xs)) == xs
  {
    PiecesOfBullets(xs, []);
    assert "" == [];
    assert !IsJsSpace(' ') ==> false;
    forall x | x in xs
      ensures !IsBlank(x) && JsTrim(x) == x
    {
      TrimTrimmed(x, IsJsSpace);
    }
    assert NonBlank([[]]) == [];
    assert NonBlank([[]] + xs) == xs by {
      NonBlankAll(xs);
      NonBlankFront(xs);
    }
  }

  /** A leading blank element is filtered out. */
  lemma {:induction false} NonBlankFront(xs: seq<string>)
    ensures NonBlank([[]] + xs) == NonBlank(xs)
  {
    var ys := [[]] + xs;
    if xs != [] {
      var init := xs[..|xs| - 1];
      assert ys[..|ys| - 1] == [[]] + init;
      assert ys[|ys| - 1] == xs[|xs| - 1];
      NonBlankFront(init);
      assert NonBlank(ys[..|ys| - 1]) == NonBlank(init);
    } else {
      assert IsBlank(ys[0]);
      assert ys[..0] == [];
    }
  }

  /** With no stop word ahead, the capture runs to the end of the reply. */
  lemma {:induction false} CaptureToEnd(s: string, k: nat, stops: seq<string>)
    requires k <= |s| && forall k' | k <= k' < |s| :: !StopAt(s, k', stops)
    ensures CaptureEnd(s, k, stops) == |s|
    decreases |s| - k
  {
    if k < |s| {
      CaptureToEnd(s, k + 1, stops);
    }
  }

  /** A header at the very start, with no stop word after it: the section
      is the whole rest of the reply. */
  lemma SectionAtStart(s: string, b: nat, headers: seq<string>, stops: seq<string>)
    requires b <= |s| && HeaderAt(s, 0, headers) == Some(b)
    requires forall k | 0 <= k <= |s[b..]| :: !StopAt(s[b..], k, stops)
    ensures Section(s, 0, headers, stops) == Some(s[b..])
  {
    forall k' | b <= k' < |s|
      ensures !StopAt(s, k', stops)
    {
      assert s[k'..] == s[b..][k' - b..];
      assert !StopAt(s[b..], k' - b, stops);
    }
    CaptureToEnd(s, b, stops);
    assert 0 < |s| && s[b..CaptureEnd(s, b, stops)] == s[b..];
  }

  /** A strengths section written as dash bullets after the header, with no
      stop word in it, is read back as the same items. */
  lemma StrengthsRoundTrip(xs: seq<string>)
    requires forall x | x in xs :: x != [] && !IsJsSpace(x[0]) && !IsJsSpace(x[|x| - 1]) && AllIn(x, Plain)
    requires forall k | 0 <= k <= |Bullets(xs)| :: !StopAt(Bullets(xs), k, StrengthStops)
    ensures SectionItems("优势：" + Bullets(xs), StrengthHeaders, StrengthStops) == xs
  {
    var b := Bullets(xs);
    var s := "优势：" + b;
    assert s[0..2] == StrengthHeaders[0] && IsColon(s[2]);
    assert HeaderAt(s, 0, StrengthHeaders) == Some(3);
    assert s[3..] == b;
    SectionAtStart(s, 3, StrengthHeaders, StrengthStops);
    if xs == [] {
      assert b == [];
    } else {
      assert b[0] == '-';
      ItemsOfBullets(xs);
    }
  }

  // ----- Skill scores: /([^:：]+)[：:]\s*(\d+)(?:\s*分)?/g -----

  /** One match of the skill pattern, in its parts: the skill text, the
      colon, the whitespace after it, the digits and the optional unit. */
  datatype SkillMatch = SkillMatch(name: string, colon: char, gap: string, digits: string, unit: string)

  function MatchText(m: SkillMatch): string
  {
    m.name + [m.colon] + m.gap + m.digits + m.unit
  }

  /** The shape every match of the pattern has. */
  predicate WellShaped(m: SkillMatch)
  {
    && m.name != [] && AllIn(m.name, NotColon)
    && IsColon(m.colon)
    && AllIn(m.gap, IsJsSpace)
    && m.digits != [] && AllIn(m.digits, IsDigit)
    && (m.unit == [] || (m.unit[|m.unit| - 1] == '分' && AllIn(m.unit[..|m.unit| - 1], IsJsSpace)))
  }

  /** Where the optional `\s*分` after the digits at `d` ends. */
  function UnitEnd(s: string, d: nat): (e: nat)
    requires d <= |s|
    ensures d <= e <= |s|
    ensures e > d ==> s[e - 1] == '分' && AllIn(s[d..e - 1], IsJsSpace)
  {
    var w := RunEnd(s, d, IsJsSpace);
    if w < |s| && s[w] == '分' then w + 1 else d
  }

  /** The attempt from `i` that reaches the colon at `c`: the match and
      where it ends, when digits follow the colon. */
  function MatchFrom(s: string, i: nat, c: nat): (r: Option<(SkillMatch, nat)>)
    requires i < c < |s| && AllIn(s[i..c], NotColon) && IsColon(s[c])
    ensures r.Some? ==> WellShaped(r.value.0) && c < r.value.1 <= |s|
  {
    var w := RunEnd(s, c + 1, IsJsSpace);
    var d := RunEnd(s, w, IsDigit);
    if d == w then None
    else
      var e := UnitEnd(s, d);
      var m := SkillMatch(s[i..c], s[c], s[c + 1..w], s[w..d], s[d..e]);
      assert e > d ==> m.unit[..|m.unit| - 1] == s[d..e - 1] by {
        if e > d {
          SliceDropLast(s, d, e);
        }
      }
      Some((m, e))
  }

  lemma SliceDropLast(s: string, d: nat, e: nat)
    requires d < e <= |s|
    ensures s[d..e][..e - 1 - d] == s[d..e - 1]
  {
  }

  /** The matches of the skill pattern from `i` on. An attempt that starts
      inside a colon-free run meets the same colon as one from the run's
      start, so a failed attempt resumes after that colon. */
  function SkillMatches(s: string, i: nat): (r: seq<SkillMatch>)
    requires i <= |s|
    ensures forall m | m in r :: WellShaped(m)
    decreases |s| - i
  {
    if i == |s| then []
    else if IsColon(s[i]) then SkillMatches(s, i + 1)
    else
      var c := RunEnd(s, i, NotColon);
      if c == |s| then []
      else
        match MatchFrom(s, i, c)
        case Some(found) => [found.0] + SkillMatches(s, found.1)
        case None => SkillMatches(s, c + 1)
  }

  /** `match.split(/[：:]/)`, with `acc` the piece read so far. */
  function SplitColons(s: string, acc: string): (r: seq<string>)
    ensures r != []
    decreases |s|
  {
    if s == [] then [acc]
    else if IsColon(s[0]) then [acc] + SplitColons(s[1..], [])
    else SplitColons(s[1..], acc + [s[0]])
  }

  /** `text.match(/\d+/)`: the first run of digits. */
  function FirstDigits(s: string): (r: Option<string>)
    ensures r.Some? ==> r.value != [] && AllIn(r.value, IsDigit)
  {
    if s == [] then None
    else if IsDigit(s[0]) then Some(s[..RunEnd(s, 0, IsDigit)])
    else FirstDigits(s[1..])
  }

  /** The overall score is kept out of the skill map. */
  predicate Excluded(skill: string)
  {
    skill == ScoreLabel || skill == "总分" || Contains(skill, "总体")
  }

  /** The one key whose assignment on a plain object creates no property:
      it goes to the inherited `__proto__` setter, which ignores a number. */
  const ProtoKey: string := "__proto__"

  /** What one match contributes to the skill map: the trimmed text before
      the colon and the first digits after it, unless the skill is excluded,
      is `__proto__`, or the match does not split into two parts with
      digits. */
  function SkillEntry(m: SkillMatch): (r: Option<(string, nat)>)
    ensures r.Some? ==> !Excluded(r.value.0) && r.value.0 != ProtoKey
  {
    var parts := SplitColons(MatchText(m), []);
    if |parts| == 2 then
      match FirstDigits(parts[1])
      case Some(digits) =>
        var skill := JsTrim(parts[0]);
        if !Excluded(skill) && skill != ProtoKey then Some((skill, DecimalValue(digits))) else None
      case None => None
    else None
  }

  /** The skill map after assigning the entries in order, a later entry
      overwriting an earlier one under the same skill. */
  function ScoreMap(es: seq<Option<(string, nat)>>): map<string, nat>
  {
    if es == [] then map[]
    else
      var prev := ScoreMap(es[..|es| - 1]);
      match es[|es| - 1]
      case Some(entry) => prev[entry.0 := entry.1]
      case None => prev
  }

  function Entries(ms: seq<SkillMatch>): (r: seq<Option<(string, nat)>>)
    ensures |r| == |ms| && forall i | 0 <= i < |ms| :: r[i] == SkillEntry(ms[i])
  {
    seq(|ms|, i requires 0 <= i < |ms| => SkillEntry(ms[i]))
  }

  /** The `skillScores` map the matches build. */
  function SkillScores(ms: seq<SkillMatch>): map<string, nat>
  {
    ScoreMap(Entries(ms))
  }

  lemma {:induction false} SplitColonsFree(s: string, acc: string)
    requires AllIn(s, NotColon)
    ensures SplitColons(s, acc) == [acc + s]
    decreases |s|
  {
    if s == [] {
      assert acc + s == acc;
    } else {
      assert forall i | 0 <= i < |s[1..]| :: s[1..][i] == s[i + 1];
      SplitColonsFree(s[1..], acc + [s[0]]);
      assert acc + [s[0]] + s[1..] == acc + s;
    }
  }

  lemma {:induction false} SplitColonsAt(a: string, c: char, b: string, acc: string)
    requires AllIn(a, NotColon) && IsColon(c)
    ensures SplitColons(a + [c] + b, acc) == [acc + a] + SplitColons(b, [])
    decreases |a|
  {
    var s := a + [c] + b;
    if a == [] {
      assert s[1..] == b && acc + a == acc;
    } else {
      assert s[1..] == a[1..] + [c] + b;
      assert forall i | 0 <= i < |a[1..]| :: a[1..][i] == a[i + 1];
      SplitColonsAt(a[1..], c, b, acc + [a[0]]);
      assert acc + [a[0]] + a[1..] == acc + a;
    }
  }

  lemma {:induction false} FirstDigitsAfterGap(gap: string, t: string)
    requires AllIn(gap, IsJsSpace)
    ensures FirstDigits(gap + t) == FirstDigits(t)
    decreases |gap|
  {
    if gap == [] {
      assert gap + t == t;
    } else {
      assert (gap + t)[1..] == gap[1..] + t;
      assert forall i | 0 <= i < |gap[1..]| :: gap[1..][i] == gap[i + 1];
      FirstDigitsAfterGap(gap[1..], t);
    }
  }

  /** What follows the colon of a match holds no colon. */
  lemma RestColonFree(m: SkillMatch)
    requires WellShaped(m)
    ensures AllIn(m.gap + m.digits + m.unit, NotColon)
  {
    var rest := m.gap + m.digits + m.unit;
    forall i | 0 <= i < |rest|
      ensures NotColon(rest[i])
    {
      if i < |m.gap| {
        assert rest[i] == m.gap[i];
      } else if i < |m.gap| + |m.digits| {
        assert rest[i] == m.digits[i - |m.gap|];
      } else if i < |rest| - 1 {
        assert m.unit[..|m.unit| - 1][i - |m.gap| - |m.digits|] == rest[i];
      } else {
        assert rest[i] == m.unit[|m.unit| - 1];
      }
    }
  }

  /** The first digits after the colon of a match are its captured digits. */
  lemma RestDigits(m: SkillMatch)
    requires WellShaped(m)
    ensures FirstDigits(m.gap + m.digits + m.unit) == Some(m.digits)
  {
    var t := m.digits + m.unit;
    assert m.gap + m.digits + m.unit == m.gap + t;
    FirstDigitsAfterGap(m.gap, t);
    if |m.unit| > 1 {
      assert m.unit[..|m.unit| - 1][0] == m.unit[0];
    }
    assert |m.digits| < |t| ==> t[|m.digits|] == m.unit[0];
    assert t[0..|m.digits|] == m.digits;
    RunEndExact(t, 0, |m.digits|, IsDigit);
    assert t[..|m.digits|] == m.digits;
  }

  /** Every match splits into the skill text and the rest, and its first
      digits are the captured score: the checks on the split and on the
      digits always pass. */
  lemma SkillEntryOfMatch(m: SkillMatch)
    requires WellShaped(m)
    ensures var skill := JsTrim(m.name);
            SkillEntry(m) == if Excluded(skill) || skill == ProtoKey then None else Some((skill, DecimalValue(m.digits)))
  {
    var rest := m.gap + m.digits + m.unit;
    assert MatchText(m) == m.name + [m.colon] + rest;
    SplitColonsAt(m.name, m.colon, rest, []);
    RestColonFree(m);
    SplitColonsFree(rest, []);
    assert [] + m.name == m.name && [] + rest == rest;
    assert SplitColons(MatchText(m), []) == [m.name, rest];
    RestDigits(m);
  }

  /** A skill is in the map exactly when some entry names it, and its score
      is the one of the last entry that does. */
  lemma {:induction false} ScoreMapLast(es: seq<Option<(string, nat)>>, skill: string) returns (i: nat)
    ensures skill in ScoreMap(es) ==>
              && i < |es| && es[i] == Some((skill, ScoreMap(es)[skill]))
              && forall j | i < j < |es| :: es[j].None? || es[j].value.0 != skill
    ensures skill !in ScoreMap(es) ==> forall j | 0 <= j < |es| :: es[j].None? || es[j].value.0 != skill
  {
    i := 0;
    if es != [] {
      var init := es[..|es| - 1];
      var last := es[|es| - 1];
      if last.Some? && last.value.0 == skill {
        i := |es| - 1;
      } else {
        i := ScoreMapLast(init, skill);
        assert forall j | 0 <= j < |init| :: init[j] == es[j];
      }
    }
  }

  /** The skill map never holds the overall score nor `__proto__`, and each
      skill maps to the score of the last match that names it. */
  lemma SkillScoresSpec(ms: seq<SkillMatch>, skill: string)
    ensures skill in SkillScores(ms) ==> !Excluded(skill) && skill != ProtoKey
    ensures skill in SkillScores(ms) <==>
              exists i | 0 <= i < |ms| :: SkillEntry(ms[i]).Some? && SkillEntry(ms[i]).value.0 == skill
    ensures skill in SkillScores(ms) ==>
              exists i | 0 <= i < |ms| :: && SkillEntry(ms[i]) == Some((skill, SkillScores(ms)[skill]))
                                         && forall j | i < j < |ms| :: SkillEntry(ms[j]).None? || SkillEntry(ms[j]).value.0 != skill
  {
    var es := Entries(ms);
    var i := ScoreMapLast(es, skill);
    if skill in SkillScores(ms) {
      assert SkillEntry(ms[i]).Some?;
    }
  }

  // ----- The whole evaluation -----

  function EvaluationOf(message: string): Evaluation
  {
    Evaluation(
      OverallScore(message),
      RecommendationOf(message),
      SectionItems(message, StrengthHeaders, StrengthStops),
      SectionItems(message, ImprovementHeaders, ImprovementStops),
      SkillScores(SkillMatches(message, 0)))
  }

  /** `extractEvaluation`: start from the defaults and fill in each part
      that the reply yields. */
  method ExtractEvaluation(message: string) returns (evaluation: Evaluation)
    ensures evaluation == EvaluationOf(message)
  {
    evaluation := Defaults;
    var score := FirstScore(message, 0);
    if score.Some? {
      evaluation := evaluation.(overallScore := DecimalValue(score.value));
    }
    if Contains(message, HireRecommended) || Contains(message, StronglyRecommended) {
      evaluation := evaluation.(recommendation := Recommended);
    } else if Contains(message, Cautious) {
      evaluation := evaluation.(recommendation := Cautious);
    } else if Contains(message, NotRecommended) {
      evaluation := evaluation.(recommendation := NotRecommended);
    }
    var strengths := Section(message, 0, StrengthHeaders, StrengthStops);
    if strengths.Some? && strengths.value != [] {
      evaluation := evaluation.(strengths := Items(strengths.value));
    }
    var improvements := Section(message, 0, ImprovementHeaders, ImprovementStops);
    if improvements.Some? && improvements.value != [] {
      evaluation := evaluation.(improvements := Items(improvements.value));
    }
    assert evaluation == EvaluationOf(message).(skillScores := map[]);
    evaluation := AddSkillScores(evaluation, SkillMatches(message, 0));
  }

  /** The `forEach` over the skill matches: each match that yields a skill
      sets that skill's score in the evaluation's (initially empty) map. */
  method AddSkillScores(evaluation: Evaluation, matches: seq<SkillMatch>) returns (result: Evaluation)
    requires evaluation.skillScores == map[]
    ensures result == evaluation.(skillScores := SkillScores(matches))
  {
    result := evaluation;
    ghost var entries := Entries(matches);
    for k := 0 to |matches|
      invariant result == evaluation.(skillScores := ScoreMap(entries[..k]))
    {
      var parts := SplitColons(MatchText(matches[k]), []);
      if |parts| == 2 {
        var skill := JsTrim(parts[0]);
        var scoreMatch := FirstDigits(parts[1]);
        if scoreMatch.Some? {
          var value := DecimalValue(scoreMatch.value);
          if skill != ScoreLabel && skill != "总分" && !Contains(skill, "总体") {
            // Assigning `__proto__` leaves the object without a new key.
            if skill != ProtoKey {
              result := result.(skillScores := result.skillScores[skill := value]);
            }
          }
        }
      }
      assert entries[..k + 1][..k] == entries[..k];
    }
    assert entries[..|matches|] == entries;
  }

  // ----- Defaults -----

  lemma {:induction false} SectionNone(s: string, p: nat, headers: seq<string>, stops: seq<string>)
    requires p <= |s| && forall k | p <= k < |s| :: !IsColon(s[k])
    ensures Section(s, p, headers, stops) == None
    decreases |s| - p
  {
    if p < |s| {
      var h := HeaderAt(s, p, headers);
      if h.Some? {
        assert false;
      } else {
        SectionNone(s, p + 1, headers, stops);
      }
    }
  }

  /** A reply without any colon and without "推荐" yields the defaults:
      every pattern but the recommendation needs a colon. */
  lemma NoColonNoVerdict(s: string)
    requires forall k | 0 <= k < |s| :: !IsColon(s[k])
    requires !Contains(s, Recommended)
    ensures EvaluationOf(s) == Defaults
  {
    var k := FirstScoreLeftmost(s, 0);
    SectionNone(s, 0, StrengthHeaders, StrengthStops);
    SectionNone(s, 0, ImprovementHeaders, ImprovementStops);
    RecommendationPrecedence(s);
    if s != [] {
      var c := RunEnd(s, 0, NotColon);
    }
  }
}
