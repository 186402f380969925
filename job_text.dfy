/** `preprocessJobText` of the backend's job parser: a pasted job description
    is cut into lines, company-rating lines, screening prompts and the
    "profile insights" section are dropped, blank lines and lines that are
    only a rule of dashes or asterisks are dropped, and what is left is joined
    back, each kept line unchanged. */
module JobText {
  import opened Text
  import opened Sequences

  // ----- Lines: `split("\n")` and `join("\n")` -----

  /** `s.split("\n")`: always at least one line, none containing a newline. */
  function Lines(s: string): (r: seq<string>)
    ensures |r| >= 1
  {
    if s == [] then [[]]
    else
      var init := Lines(s[..|s| - 1]);
      var c := s[|s| - 1];
      if c == '\n' then init + [[]]
      else init[..|init| - 1] + [init[|init| - 1] + [c]]
  }

  /** `lines.join("\n")`. */
  function Join(lines: seq<string>): string
  {
    if lines == [] then []
    else if |lines| == 1 then lines[0]
    else Join(lines[..|lines| - 1]) + "\n" + lines[|lines| - 1]
  }

  predicate NoNewline(line: string) { '\n' !in line }

  lemma {:induction false} LinesHaveNoNewline(s: string)
    ensures forall line | line in Lines(s) :: NoNewline(line)
  {
    if s != [] {
      var init := Lines(s[..|s| - 1]);
      LinesHaveNoNewline(s[..|s| - 1]);
      if s[|s| - 1] != '\n' {
        assert init[|init| - 1] in init;
        forall line | line in init[..|init| - 1] ensures line in init { }
      }
    }
  }

  lemma JoinSnoc(lines: seq<string>, line: string)
    requires lines != []
    ensures Join(lines + [line]) == Join(lines) + "\n" + line
  {
    assert (lines + [line])[..|lines|] == lines;
  }

  /** Appending a character to the last line appends it to the join. */
  lemma JoinExtendLast(lines: seq<string>, c: char)
    requires lines != []
    ensures Join(lines[..|lines| - 1] + [lines[|lines| - 1] + [c]]) == Join(lines) + [c]
  {
    var k := |lines| - 1;
    var init, last := lines[..k], lines[k];
    assert lines == init + [last];
    if k == 0 {
      assert init + [last + [c]] == [last + [c]] && lines == [last];
    } else {
      JoinExtendAfter(init, last, c);
    }
  }

  lemma JoinExtendAfter(init: seq<string>, last: string, c: char)
    requires init != []
    ensures Join(init + [last + [c]]) == Join(init + [last]) + [c]
  {
    JoinSnoc(init, last);
    JoinSnoc(init, last + [c]);
    assert Join(init) + "\n" + (last + [c]) == (Join(init) + "\n" + last) + [c];
  }

  /** Joining the lines of a text gives the text back. */
  lemma {:induction false} JoinLines(s: string)
    ensures Join(Lines(s)) == s
  {
    if s != [] {
      var s' := s[..|s| - 1];
      var c := s[|s| - 1];
      var init := Lines(s');
      JoinLines(s');
      assert s == s' + [c];
      if c == '\n' {
        assert Lines(s) == init + [[]];
        JoinSnoc(init, []);
      } else {
        assert Lines(s) == init[..|init| - 1] + [init[|init| - 1] + [c]];
        JoinExtendLast(init, c);
      }
    }
  }

  lemma {:induction false} LinesAfterNewline(s: string, w: string)
    requires NoNewline(w)
    ensures Lines(s + "\n" + w) == Lines(s) + [w]
  {
    if w == [] {
      assert s + "\n" + w == s + "\n";
      assert (s + "\n")[..|s|] == s;
    } else {
      var w' := w[..|w| - 1];
      assert NoNewline(w') by { assert forall i | 0 <= i < |w'| :: w'[i] == w[i]; }
      LinesAfterNewline(s, w');
      assert (s + "\n" + w)[..|s + "\n" + w| - 1] == s + "\n" + w';
      assert w' + [w[|w| - 1]] == w;
    }
  }

  lemma {:induction false} LinesOfLine(w: string)
    requires NoNewline(w)
    ensures Lines(w) == [w]
  {
    if w != [] {
      var w' := w[..|w| - 1];
      assert NoNewline(w') by { assert forall i | 0 <= i < |w'| :: w'[i] == w[i]; }
      LinesOfLine(w');
      assert w' + [w[|w| - 1]] == w;
    }
  }

  /** Splitting a join of newline-free lines gives the lines back. */
  lemma {:induction false} LinesJoin(lines: seq<string>)
    requires lines != [] && forall line | line in lines :: NoNewline(line)
    ensures Lines(Join(lines)) == lines
  {
    var k := |lines| - 1;
    if k == 0 {
      LinesOfLine(lines[0]);
    } else {
      var init, last := lines[..k], lines[k];
      assert lines == init + [last];
      InitHasNoNewline(lines);
      LinesJoin(init);
      JoinSnoc(init, last);
      LinesAfterNewline(Join(init), last);
    }
  }

  lemma InitHasNoNewline(lines: seq<string>)
    requires lines != [] && forall line | line in lines :: NoNewline(line)
    ensures forall line | line in lines[..|lines| - 1] :: NoNewline(line)
    ensures NoNewline(lines[|lines| - 1])
  {
    assert lines[|lines| - 1] in lines;
    forall line | line in lines[..|lines| - 1] ensures NoNewline(line) {
      assert line in lines;
    }
  }

  // ----- What a trimmed line is -----

  /** `/^Company Rating|^[0-9](\.[0-9])? out of [0-9]/i`. */
  predicate IsRatingLine(t: string)
  {
    StartsWithCI(t, "company rating")
    || (|t| >= 1 && IsDigit(t[0]) &&
        (OutOfAt(t, 1) || (|t| >= 3 && t[1] == '.' && IsDigit(t[2]) && OutOfAt(t, 3))))
  }

  /** " out of " and a digit, starting at `i`. */
  predicate OutOfAt(t: string, i: nat)
  {
    i + 9 <= |t| && StartsWithCI(t[i..], " out of ") && IsDigit(t[i + 8])
  }

  /** `/^Do you have experience|^Are you looking for a role/i`. */
  predicate IsPromptLine(t: string)
  {
    StartsWithCI(t, "do you have experience") || StartsWithCI(t, "are you looking for a role")
  }

  /** `/^Profile insights|^Here's how the job aligns with your profile/i`. */
  predicate IsInsightsHeader(t: string)
  {
    StartsWithCI(t, "profile insights") || StartsWithCI(t, "here's how the job aligns with your profile")
  }

  /** `/^Job Type|^Pay|^Location|^Benefits|^About the job|^Full job description/i`. */
  predicate IsSectionHeader(t: string)
  {
    StartsWithCI(t, "job type") || StartsWithCI(t, "pay") || StartsWithCI(t, "location")
    || StartsWithCI(t, "benefits") || StartsWithCI(t, "about the job")
    || StartsWithCI(t, "full job description")
  }

  predicate IsDash(c: char) { c == '-' }
  predicate IsStar(c: char) { c == '*' }

  /** `/^-+$|^\*+$/`: a rule made only of dashes or only of asterisks. */
  predicate IsRule(t: string)
  {
    t != [] && (AllIn(t, IsDash) || AllIn(t, IsStar))
  }

  // ----- The line filter -----

  /** The lines kept so far and whether a profile-insights section is being
      skipped. */
  datatype Filtered = Filtered(kept: seq<string>, skip: bool)

  /** One pass of the loop body. Ratings and prompts are dropped whatever the
      state; an insights header is dropped and starts skipping; a section
      header stops skipping and is then treated like any other line, kept
      when it is neither blank nor a rule. */
  function Step(f: Filtered, line: string): Filtered
  {
    var t := JsTrim(line);
    if IsRatingLine(t) || IsPromptLine(t) then f
    else if IsInsightsHeader(t) then f.(skip := true)
    else
      var skip := f.skip && !IsSectionHeader(t);
      if !skip && t != [] && !IsRule(t) then Filtered(f.kept + [line], skip)
      else Filtered(f.kept, skip)
  }

  function Filter(lines: seq<string>, start: Filtered): Filtered
  {
    if lines == [] then start else Step(Filter(lines[..|lines| - 1], start), lines[|lines| - 1])
  }

  const Initial: Filtered := Filtered([], false)

  /** The cleaned text. */
  function Cleaned(text: string): string
  {
    Join(Filter(Lines(text), Initial).kept)
  }

  /** A line the filter keeps when it is not skipping. */
  predicate Keepable(line: string)
  {
    var t := JsTrim(line);
    !IsRatingLine(t) && !IsPromptLine(t) && !IsInsightsHeader(t) && t != [] && !IsRule(t)
  }

  /** One step keeps the line or not, and keeps only a keepable line. */
  lemma StepKeeps(f: Filtered, line: string)
    ensures Step(f, line).kept == f.kept
            || (Step(f, line).kept == f.kept + [line] && Keepable(line))
  {
  }

  /** The filter only drops lines: what it keeps is the kept-so-far followed
      by a subsequence of its input. */
  lemma {:induction false} FilterKeeps(lines: seq<string>, start: Filtered)
    ensures var f := Filter(lines, start);
            && |start.kept| <= |f.kept| && f.kept[..|start.kept|] == start.kept
            && IsSubsequence(f.kept[|start.kept|..], lines)
  {
    if lines != [] {
      var init, last := lines[..|lines| - 1], lines[|lines| - 1];
      assert init + [last] == lines;
      var f := Filter(init, start);
      FilterKeeps(init, start);
      assert f.kept[..|start.kept|] == start.kept;
      StepKeepsOrder(f, |start.kept|, init, last);
    }
  }

  lemma StepKeepsOrder(f: Filtered, n: nat, before: seq<string>, line: string)
    requires n <= |f.kept| && IsSubsequence(f.kept[n..], before)
    ensures var g := Step(f, line);
            n <= |g.kept| && g.kept[..n] == f.kept[..n] && IsSubsequence(g.kept[n..], before + [line])
  {
    StepKeeps(f, line);
    var keep := Step(f, line).kept != f.kept;
    SubsequenceExtend(f.kept[n..], before, line, keep);
    if keep {
      assert (f.kept + [line])[n..] == f.kept[n..] + [line];
      assert (f.kept + [line])[..n] == f.kept[..n];
    }
  }

  /** Each line the filter adds is keepable. */
  lemma {:induction false} FilterKeepsKeepable(lines: seq<string>, start: Filtered)
    ensures var f := Filter(lines, start);
            forall i | |start.kept| <= i < |f.kept| :: Keepable(f.kept[i])
  {
    if lines != [] {
      var init := lines[..|lines| - 1];
      FilterKeeps(init, start);
      FilterKeepsKeepable(init, start);
      StepKeeps(Filter(init, start), lines[|lines| - 1]);
    }
  }

  lemma {:induction false} FilterAppend(a: seq<string>, b: seq<string>, start: Filtered)
    ensures Filter(a + b, start) == Filter(b, Filter(a, start))
    decreases |b|
  {
    if b == [] {
      assert a + b == a;
    } else {
      assert (a + b)[..|a + b| - 1] == a + b[..|b| - 1];
      FilterAppend(a, b[..|b| - 1], start);
    }
  }

  /** Keepable lines pass through a filter that is not skipping unchanged. */
  lemma {:induction false} FilterKeepable(lines: seq<string>, kept: seq<string>)
    requires forall line | line in lines :: Keepable(line)
    ensures Filter(lines, Filtered(kept, false)) == Filtered(kept + lines, false)
  {
    if lines != [] {
      var init, last := lines[..|lines| - 1], lines[|lines| - 1];
      assert lines == init + [last];
      InitKeepable(lines);
      FilterKeepable(init, kept);
      StepKeepable(Filtered(kept + init, false), last);
      assert kept + init + [last] == kept + lines;
    }
  }

  lemma InitKeepable(lines: seq<string>)
    requires lines != [] && forall line | line in lines :: Keepable(line)
    ensures forall line | line in lines[..|lines| - 1] :: Keepable(line)
    ensures Keepable(lines[|lines| - 1])
  {
    assert lines[|lines| - 1] in lines;
    forall line | line in lines[..|lines| - 1] ensures Keepable(line) {
      assert line in lines;
    }
  }

  /** A filter that is not skipping keeps a keepable line. */
  lemma StepKeepable(f: Filtered, line: string)
    requires !f.skip && Keepable(line)
    ensures Step(f, line) == Filtered(f.kept + [line], false)
  {
  }

  /** Cleaning a cleaned text changes nothing. */
  lemma CleanedIdempotent(text: string)
    ensures Cleaned(Cleaned(text)) == Cleaned(text)
  {
    var kept := Filter(Lines(text), Initial).kept;
    KeptLinesClean(text);
    if kept == [] {
      assert Cleaned(text) == [];
      assert Lines([]) == [[]];
      assert JsTrim([]) == [];
    } else {
      LinesJoin(kept);
      FilterKeepable(kept, []);
      assert [] + kept == kept;
    }
  }

  lemma {:induction false} SubsequenceMember(a: seq<string>, b: seq<string>, x: string)
    requires IsSubsequence(a, b) && x in a
    ensures x in b
    decreases |b|
  {
    if a[|a| - 1] == b[|b| - 1] {
      if x == a[|a| - 1] {
        assert x == b[|b| - 1];
      } else {
        assert x in a[..|a| - 1] by {
          var k :| 0 <= k < |a| && a[k] == x;
          assert a[..|a| - 1][k] == x;
        }
        SubsequenceMember(a[..|a| - 1], b[..|b| - 1], x);
      }
    } else {
      SubsequenceMember(a, b[..|b| - 1], x);
    }
  }

  /** The kept lines hold no newline and are each keepable. */
  lemma KeptLinesClean(text: string)
    ensures forall line | line in Filter(Lines(text), Initial).kept :: NoNewline(line) && Keepable(line)
  {
    var lines := Lines(text);
    var kept := Filter(lines, Initial).kept;
    CleanedLines(text);
    LinesHaveNoNewline(text);
    forall line | line in kept ensures NoNewline(line) && Keepable(line) {
      SubsequenceMember(kept, lines, line);
    }
  }

  /** The cleaned text's lines are lines of the input, in input order, each
      keepable. */
  lemma CleanedLines(text: string)
    ensures var kept := Filter(Lines(text), Initial).kept;
            && Cleaned(text) == Join(kept)
            && IsSubsequence(kept, Lines(text))
            && forall line | line in kept :: Keepable(line)
  {
    var kept := Filter(Lines(text), Initial).kept;
    FilterKeeps(Lines(text), Initial);
    FilterKeepsKeepable(Lines(text), Initial);
    assert kept[0..] == kept;
  }

  // ----- The profile-insights section -----

  lemma StartsWithCIHead(t: string, p: string)
    requires |p| >= 2 && StartsWithCI(t, p)
    ensures LowerChar(t[0]) == p[0] && LowerChar(t[1]) == p[1]
  {
    assert Lower(t[..|p|])[0] == LowerChar(t[0]);
    assert Lower(t[..|p|])[1] == LowerChar(t[1]);
  }

  /** The first two letters of the section headers: "jo", "pa", "lo", "be",
      "ab" and "fu". */
  predicate SectionHead(a: char, b: char)
  {
    (a == 'j' && b == 'o') || (a == 'p' && b == 'a') || (a == 'l' && b == 'o')
    || (a == 'b' && b == 'e') || (a == 'a' && b == 'b') || (a == 'f' && b == 'u')
  }

  /** A text that starts with a prefix starts with the prefix's first two
      letters. */
  lemma PrefixHead(t: string, p: string, a: char, b: char)
    requires |p| >= 2 && p[0] == a && p[1] == b && StartsWithCI(t, p)
    ensures |t| >= 2 && LowerChar(t[0]) == a && LowerChar(t[1]) == b
  {
    StartsWithCIHead(t, p);
  }

  lemma HeaderLetters()
    ensures "job type"[0] == 'j' && "job type"[1] == 'o'
    ensures "pay"[0] == 'p' && "pay"[1] == 'a'
    ensures "location"[0] == 'l' && "location"[1] == 'o'
    ensures "benefits"[0] == 'b' && "benefits"[1] == 'e'
    ensures "about the job"[0] == 'a' && "about the job"[1] == 'b'
    ensures "full job description"[0] == 'f' && "full job description"[1] == 'u'
  {
  }

  /** The first two letters of a section header, lower-cased. */
  lemma SectionHeaderHead(t: string)
    requires IsSectionHeader(t)
    ensures |t| >= 2
    ensures SectionHead(LowerChar(t[0]), LowerChar(t[1]))
  {
    HeaderLetters();
    if StartsWithCI(t, "job type") { PrefixHead(t, "job type", 'j', 'o'); }
    if StartsWithCI(t, "pay") { PrefixHead(t, "pay", 'p', 'a'); }
    if StartsWithCI(t, "location") { PrefixHead(t, "location", 'l', 'o'); }
    if StartsWithCI(t, "benefits") { PrefixHead(t, "benefits", 'b', 'e'); }
    if StartsWithCI(t, "about the job") { PrefixHead(t, "about the job", 'a', 'b'); }
    if StartsWithCI(t, "full job description") { PrefixHead(t, "full job description", 'f', 'u'); }
  }

  lemma DroppedLetters()
    ensures "company rating"[0] == 'c' && "company rating"[1] == 'o'
    ensures "do you have experience"[0] == 'd' && "do you have experience"[1] == 'o'
    ensures "are you looking for a role"[0] == 'a' && "are you looking for a role"[1] == 'r'
    ensures "profile insights"[0] == 'p' && "profile insights"[1] == 'r'
    ensures "here's how the job aligns with your profile"[0] == 'h'
            && "here's how the job aligns with your profile"[1] == 'e'
  {
  }

  /** A rating line starts with "co" or a digit; a section header with
      neither. */
  lemma HeadNotRating(t: string)
    requires |t| >= 2 && SectionHead(LowerChar(t[0]), LowerChar(t[1]))
    ensures !IsRatingLine(t)
  {
    DroppedLetters();
    if StartsWithCI(t, "company rating") { PrefixHead(t, "company rating", 'c', 'o'); }
    assert !IsDigit(t[0]);
  }

  /** A prompt starts with "do" or "ar". */
  lemma HeadNotPrompt(t: string)
    requires |t| >= 2 && SectionHead(LowerChar(t[0]), LowerChar(t[1]))
    ensures !IsPromptLine(t)
  {
    DroppedLetters();
    if StartsWithCI(t, "do you have experience") { PrefixHead(t, "do you have experience", 'd', 'o'); }
    if StartsWithCI(t, "are you looking for a role") { PrefixHead(t, "are you looking for a role", 'a', 'r'); }
  }

  /** An insights header starts with "pr" or "he". */
  lemma HeadNotInsights(t: string)
    requires |t| >= 2 && SectionHead(LowerChar(t[0]), LowerChar(t[1]))
    ensures !IsInsightsHeader(t)
  {
    DroppedLetters();
    if StartsWithCI(t, "profile insights") { PrefixHead(t, "profile insights", 'p', 'r'); }
    if StartsWithCI(t, "here's how the job aligns with your profile") {
      PrefixHead(t, "here's how the job aligns with your profile", 'h', 'e');
    }
  }

  /** A section header is none of the lines dropped before it is looked at,
      and is neither blank nor a rule: its first two letters tell them apart. */
  lemma SectionHeaderKeepable(line: string)
    requires IsSectionHeader(JsTrim(line))
    ensures Keepable(line)
  {
    var t := JsTrim(line);
    SectionHeaderHead(t);
    HeadNotRating(t);
    HeadNotPrompt(t);
    HeadNotInsights(t);
    assert !IsDash(t[0]) && !IsStar(t[0]);
  }

  /** While skipping, lines without a section header are all dropped. */
  lemma {:induction false} SkippedLines(mid: seq<string>, kept: seq<string>)
    requires forall line | line in mid :: !IsSectionHeader(JsTrim(line))
    ensures Filter(mid, Filtered(kept, true)) == Filtered(kept, true)
  {
    if mid != [] {
      assert forall line | line in mid[..|mid| - 1] :: line in mid;
      SkippedLines(mid[..|mid| - 1], kept);
      assert mid[|mid| - 1] in mid;
    }
  }

  /** A profile-insights header drops itself and every following line up to
      the next section header, which is kept; filtering then goes on as from
      the start. */
  lemma InsightsSectionDropped(pre: seq<string>, header: string, mid: seq<string>,
                               next: string, post: seq<string>)
    requires IsInsightsHeader(JsTrim(header))
    requires !IsRatingLine(JsTrim(header)) && !IsPromptLine(JsTrim(header))
    requires forall line | line in mid :: !IsSectionHeader(JsTrim(line))
    requires IsSectionHeader(JsTrim(next))
    ensures Filter(pre + [header] + mid + [next] + post, Initial)
            == Filter(post, Filtered(Filter(pre, Initial).kept + [next], false))
  {
    var k := Filter(pre, Initial).kept;
    FilterAppend(pre + [header] + mid + [next], post, Initial);
    FilterAppend(pre + [header] + mid, [next], Initial);
    FilterAppend(pre + [header], mid, Initial);
    FilterAppend(pre, [header], Initial);
    assert Filter([header], Filter(pre, Initial)) == Filtered(k, true);
    SkippedLines(mid, k);
    SectionHeaderKeepable(next);
    assert Filter([next], Filtered(k, true)) == Filtered(k + [next], false);
  }

  // ----- The function itself -----

  /** `preprocessJobText`: an empty text gives an empty result; otherwise the
      loop over the lines, then the join. */
  method PreprocessJobText(jobText: string) returns (cleaned: string)
    ensures cleaned == Cleaned(jobText)
  {
    if jobText == [] {
      assert Cleaned(jobText) == [] by { assert Lines([]) == [[]]; assert JsTrim([]) == []; }
      return [];
    }
    var lines := Lines(jobText);
    var kept: seq<string> := [];
    var skip := false;
    for i := 0 to |lines|
      invariant Filter(lines[..i], Initial) == Filtered(kept, skip)
    {
      assert lines[..i + 1][..i] == lines[..i];
      var line := lines[i];
      ghost var next := Step(Filtered(kept, skip), line);
      assert Filter(lines[..i + 1], Initial) == next;
      var trimmed := JsTrim(line);
      if IsRatingLine(trimmed) {
        continue;
      }
      if IsPromptLine(trimmed) {
        continue;
      }
      if IsInsightsHeader(trimmed) {
        skip := true;
        continue;
      }
      if skip && IsSectionHeader(trimmed) {
        skip := false;
      }
      if !skip {
        if trimmed != [] && !IsRule(trimmed) {
          kept := kept + [line];
        }
      }
    }
    assert lines[..|lines|] == lines;
    cleaned := Join(kept);
  }
}
