/** `extractQuestion` of the AI service: the interview question an AI reply
    ends on. The global match of `/([^.!?]+\?)/g` is modelled as the regular
    expression engine runs it, left to right; the fallback splits the reply
    on runs of sentence terminators and keeps the last non-blank piece. */
module Question {
  import opened Text

  /** Returned when the reply holds no sentence at all. */
  const NoQuestion: string := "未能提取问题"

  predicate IsTerminator(c: char) { c == '.' || c == '!' || c == '?' }

  predicate NotTerminator(c: char) { !IsTerminator(c) }

  /** `s[a..j]` is free of terminators and ends right before a `?` at `j`. */
  predicate QuestionBody(s: string, a: nat, j: nat)
  {
    a < j < |s| && s[j] == '?' && AllIn(s[a..j], NotTerminator)
  }

  /** A question: a whole terminator-free run (it starts the reply or
      follows a terminator) that a `?` closes. */
  predicate QuestionRun(s: string, a: nat, j: nat)
  {
    QuestionBody(s, a, j) && (a == 0 || IsTerminator(s[a - 1]))
  }

  /** The matches of `/([^.!?]+\?)/g` in `s` from index `i` on, as
      (start, end) pairs. An attempt that starts inside a terminator-free
      run meets the same terminator as one from the run's start, so a
      failed attempt resumes at that terminator. */
  function QuestionMatches(s: string, i: nat): (r: seq<(nat, nat)>)
    requires i <= |s|
    ensures forall m | m in r :: i <= m.0 < m.1 <= |s|
    decreases |s| - i
  {
    if i == |s| then []
    else if IsTerminator(s[i]) then QuestionMatches(s, i + 1)
    else
      var j := RunEnd(s, i, NotTerminator);
      if j < |s| && s[j] == '?' then [(i, j + 1)] + QuestionMatches(s, j + 1)
      else QuestionMatches(s, j)
  }

  /** `message.split(/[.!?]+/)`: the pieces between maximal runs of
      terminators, scanning from `q` with the current piece started at `p`. */
  function Segments(s: string, p: nat, q: nat): (r: seq<string>)
    requires p <= q <= |s|
    ensures r != []
    decreases |s| - q
  {
    if q == |s| then [s[p..]]
    else if IsTerminator(s[q]) then
      var e := RunEnd(s, q, IsTerminator);
      [s[p..q]] + Segments(s, e, e)
    else Segments(s, p, q + 1)
  }

  /** The reply with every terminator removed. */
  function DropTerminators(s: string): string
  {
    if s == [] then []
    else (if IsTerminator(s[0]) then [] else [s[0]]) + DropTerminators(s[1..])
  }

  function Concat(xs: seq<string>): string
  {
    if xs == [] then [] else xs[0] + Concat(xs[1..])
  }

  /** The sentence the reply ends on when no question was found. */
  function LastSentence(message: string): (r: string)
    ensures r != []
  {
    var segs := NonBlank(Segments(message, 0, 0));
    if segs != [] then
      var last := segs[|segs| - 1];
      assert last in segs;
      JsTrim(last)
    else NoQuestion
  }

  /** `extractQuestion`. */
  function ExtractQuestion(message: string): (r: string)
    ensures r != []
  {
    var ms := QuestionMatches(message, 0);
    if ms != [] then
      var m := ms[|ms| - 1];
      assert m in ms;
      MatchesSound(message, 0, m);
      assert message[m.0..m.1][m.1 - 1 - m.0] == '?';
      JsTrim(message[m.0..m.1])
    else LastSentence(message)
  }

  // ----- The question matches are exactly the question runs -----

  /** A terminator-free run from `i` closed by a `?` at `j`. */
  lemma HeadMatchBody(s: string, i: nat, j: nat)
    requires i < |s| && !IsTerminator(s[i]) && j == RunEnd(s, i, NotTerminator)
    requires j < |s| && s[j] == '?'
    ensures QuestionBody(s, i, j)
  {
  }

  /** Every match starts where the search started or right after a
      terminator. */
  lemma {:induction false} MatchesStart(s: string, i: nat, m: (nat, nat))
    requires i <= |s| && m in QuestionMatches(s, i)
    ensures i <= m.0 < |s| && (m.0 == i || IsTerminator(s[m.0 - 1]))
    decreases |s| - i
  {
    if IsTerminator(s[i]) {
      MatchesStart(s, i + 1, m);
      assert m.0 == i + 1 ==> s[m.0 - 1] == s[i];
    } else {
      var j := RunEnd(s, i, NotTerminator);
      if j < |s| && s[j] == '?' {
        if m != (i, j + 1) {
          MatchesStart(s, j + 1, m);
          assert m.0 == j + 1 ==> s[m.0 - 1] == s[j];
        }
      } else {
        MatchesStart(s, j, m);
      }
    }
  }

  /** Every match is a terminator-free run closed by a `?`, starting where
      the search started or right after a terminator. */
  lemma {:induction false} MatchesSound(s: string, i: nat, m: (nat, nat))
    requires i <= |s| && m in QuestionMatches(s, i)
    ensures i <= m.0 < m.1 <= |s| && QuestionBody(s, m.0, m.1 - 1)
    ensures m.0 == i || IsTerminator(s[m.0 - 1])
    decreases |s| - i
  {
    MatchesStart(s, i, m);
    if IsTerminator(s[i]) {
      MatchesSound(s, i + 1, m);
    } else {
      var j := RunEnd(s, i, NotTerminator);
      if j < |s| && s[j] == '?' {
        if m == (i, j + 1) {
          HeadMatchBody(s, i, j);
        } else {
          MatchesSound(s, j + 1, m);
        }
      } else {
        MatchesSound(s, j, m);
      }
    }
  }



  /** Every question run from `i` on is found. */
  lemma {:induction false} MatchesComplete(s: string, i: nat, a: nat, j: nat)
    requires i <= a && QuestionBody(s, a, j) && (a == i || IsTerminator(s[a - 1]))
    ensures (a, j + 1) in QuestionMatches(s, i)
    decreases |s| - i
  {
    if a == i {
      assert s[a..j][0] == s[i];
      RunEndExact(s, a, j, NotTerminator);
    } else if IsTerminator(s[i]) {
      MatchesComplete(s, i + 1, a, j);
    } else {
      RunEndBound(s, i, a - 1, NotTerminator);
      var e := RunEnd(s, i, NotTerminator);
      if e < |s| && s[e] == '?' {
        MatchesComplete(s, e + 1, a, j);
      } else {
        MatchesComplete(s, e, a, j);
      }
    }
  }


  /** The last match ends furthest right. */
  lemma {:induction false} LastIsRightmost(s: string, i: nat)
    requires i <= |s| && QuestionMatches(s, i) != []
    ensures var ms := QuestionMatches(s, i);
            forall m | m in ms :: m.1 <= ms[|ms| - 1].1
    decreases |s| - i
  {
    var ms := QuestionMatches(s, i);
    if IsTerminator(s[i]) {
      LastIsRightmost(s, i + 1);
    } else {
      var j := RunEnd(s, i, NotTerminator);
      if j < |s| && s[j] == '?' {
        var rest := QuestionMatches(s, j + 1);
        assert ms == [(i, j + 1)] + rest;
        if rest != [] {
          LastIsRightmost(s, j + 1);
          var last := rest[|rest| - 1];
          assert last in rest;
          assert ms[|ms| - 1] == last;
          forall m | m in ms
            ensures m.1 <= last.1
          {
            if m !in rest {
              assert m == (i, j + 1);
            }
          }
        }
      } else {
        LastIsRightmost(s, j);
      }
    }
  }

  /** `extractQuestion` returns the rightmost question run, trimmed, when
      the reply has one, and otherwise the last sentence. */
  lemma ExtractQuestionSpec(s: string)
    ensures (exists a: nat, j: nat :: QuestionRun(s, a, j)) ==>
              exists a: nat, j: nat :: && QuestionRun(s, a, j)
                                       && (forall a': nat, j': nat | QuestionRun(s, a', j') :: j' <= j)
                                       && ExtractQuestion(s) == JsTrim(s[a..j + 1])
    ensures (forall a: nat, j: nat :: !QuestionRun(s, a, j)) ==> ExtractQuestion(s) == LastSentence(s)
  {
    if QuestionMatches(s, 0) != [] {
      var a, j := RightmostQuestion(s);
    } else {
      NoQuestionRun(s);
    }
  }

  /** With a match, the last one is the rightmost question run. */
  lemma RightmostQuestion(s: string) returns (a: nat, j: nat)
    requires QuestionMatches(s, 0) != []
    ensures QuestionRun(s, a, j)
    ensures forall a': nat, j': nat | QuestionRun(s, a', j') :: j' <= j
    ensures ExtractQuestion(s) == JsTrim(s[a..j + 1])
  {
    a, j := LastMatch(s);
    RunsEndBefore(s);
  }

  /** The last match is a question run and is what is returned. */
  lemma LastMatch(s: string) returns (a: nat, j: nat)
    requires QuestionMatches(s, 0) != []
    ensures var ms := QuestionMatches(s, 0); (a, j + 1) == ms[|ms| - 1]
    ensures QuestionRun(s, a, j)
    ensures ExtractQuestion(s) == JsTrim(s[a..j + 1])
  {
    var ms := QuestionMatches(s, 0);
    var m := ms[|ms| - 1];
    assert m in ms;
    MatchesSound(s, 0, m);
    a, j := m.0, m.1 - 1;
  }

  /** Every question run ends no later than the last match. */
  lemma RunsEndBefore(s: string)
    requires QuestionMatches(s, 0) != []
    ensures var ms := QuestionMatches(s, 0);
            forall a': nat, j': nat | QuestionRun(s, a', j') :: j' + 1 <= ms[|ms| - 1].1
  {
    var ms := QuestionMatches(s, 0);
    LastIsRightmost(s, 0);
    forall a': nat, j': nat | QuestionRun(s, a', j')
      ensures j' + 1 <= ms[|ms| - 1].1
    {
      MatchesComplete(s, 0, a', j');
    }
  }

  /** Without a match, there is no question run at all. */
  lemma NoQuestionRun(s: string)
    requires QuestionMatches(s, 0) == []
    ensures forall a: nat, j: nat :: !QuestionRun(s, a, j)
  {
    forall a: nat, j: nat
      ensures !QuestionRun(s, a, j)
    {
      if QuestionRun(s, a, j) {
        MatchesComplete(s, 0, a, j);
      }
    }
  }

  /** A question found by the first branch still ends with its `?`. */
  lemma QuestionEndsWithMark(s: string, a: nat, j: nat)
    requires QuestionRun(s, a, j)
    ensures var q := JsTrim(s[a..j + 1]); q != [] && q[|q| - 1] == '?'
  {
    var t := s[a..j + 1];
    TrimShape(t, IsJsSpace);
    assert t[|t| - 1] == '?';
    TrimKeepsInner(t, IsJsSpace, |t| - 1);
  }

  // ----- The fallback split -----

  /** Every piece of the split is free of terminators. */
  lemma {:induction false} SegmentsFree(s: string, p: nat, q: nat)
    requires p <= q <= |s| && AllIn(s[p..q], NotTerminator)
    ensures forall x | x in Segments(s, p, q) :: AllIn(x, NotTerminator)
    decreases |s| - q
  {
    if q == |s| {
    } else if IsTerminator(s[q]) {
      var e := RunEnd(s, q, IsTerminator);
      SegmentsFree(s, e, e);
    } else {
      assert s[p..q + 1] == s[p..q] + [s[q]];
      SegmentsFree(s, p, q + 1);
    }
  }

  lemma DropTerminatorRun(s: string, q: nat, e: nat)
    requires q <= e <= |s| && AllIn(s[q..e], IsTerminator)
    ensures DropTerminators(s[q..]) == DropTerminators(s[e..])
    decreases e - q
  {
    if q < e {
      assert s[q..][1..] == s[q + 1..];
      assert s[q..e][0] == s[q];
      assert s[q + 1..e] == s[q..e][1..];
      DropTerminatorRun(s, q + 1, e);
    }
  }

  lemma ConcatCons(x: string, xs: seq<string>)
    ensures Concat([x] + xs) == x + Concat(xs)
  {
    assert ([x] + xs)[1..] == xs;
  }

  lemma ConcatOne(x: string)
    ensures Concat([x]) == x
  {
    ConcatCons(x, []);
    assert x + [] == x;
  }

  /** A non-terminator is kept by DropTerminators. */
  lemma DropOne(s: string, q: nat)
    requires q < |s| && !IsTerminator(s[q])
    ensures DropTerminators(s[q..]) == [s[q]] + DropTerminators(s[q + 1..])
  {
    assert s[q..][1..] == s[q + 1..];
  }

  /** Nothing but terminators is lost by the split: the pieces, put back
      together, are the reply with its terminators removed. */
  lemma {:induction false} SegmentsConcat(s: string, p: nat, q: nat)
    requires p <= q <= |s| && AllIn(s[p..q], NotTerminator)
    ensures Concat(Segments(s, p, q)) == s[p..q] + DropTerminators(s[q..])
    decreases |s| - q
  {
    if q == |s| {
      assert s[q..] == [];
      assert s[p..] == s[p..q];
      ConcatOne(s[p..]);
    } else if IsTerminator(s[q]) {
      var e := RunEnd(s, q, IsTerminator);
      SegmentsConcat(s, e, e);
      SegmentsConcatCut(s, p, q, e);
    } else {
      assert s[p..q + 1] == s[p..q] + [s[q]];
      SegmentsConcat(s, p, q + 1);
      SegmentsConcatKeep(s, p, q);
    }
  }

  /** The step of SegmentsConcat at a terminator run. */
  lemma SegmentsConcatCut(s: string, p: nat, q: nat, e: nat)
    requires p <= q < |s| && IsTerminator(s[q]) && e == RunEnd(s, q, IsTerminator)
    requires Concat(Segments(s, e, e)) == s[e..e] + DropTerminators(s[e..])
    ensures Concat(Segments(s, p, q)) == s[p..q] + DropTerminators(s[q..])
  {
    var rest := Segments(s, e, e);
    assert Segments(s, p, q) == [s[p..q]] + rest;
    ConcatCons(s[p..q], rest);
    DropTerminatorRun(s, q, e);
    assert s[e..e] == [];
  }

  /** The step of SegmentsConcat at a character kept in the piece. */
  lemma SegmentsConcatKeep(s: string, p: nat, q: nat)
    requires p <= q < |s| && !IsTerminator(s[q])
    requires Concat(Segments(s, p, q + 1)) == s[p..q + 1] + DropTerminators(s[q + 1..])
    ensures Concat(Segments(s, p, q)) == s[p..q] + DropTerminators(s[q..])
  {
    assert s[p..q + 1] == s[p..q] + [s[q]];
    DropOne(s, q);
  }

  /** The fixed message is returned when every piece of the split is
      blank; otherwise the result is the last non-blank piece, trimmed, and
      so holds no terminator. */
  lemma LastSentenceSpec(s: string)
    ensures var segs := Segments(s, 0, 0);
            (forall x | x in segs :: IsBlank(x)) ==> LastSentence(s) == NoQuestion
    ensures var segs := Segments(s, 0, 0);
            (exists k :: 0 <= k < |segs| && !IsBlank(segs[k])) ==>
              exists k :: && 0 <= k < |segs| && !IsBlank(segs[k])
                          && (forall k' | k < k' < |segs| :: IsBlank(segs[k']))
                          && LastSentence(s) == JsTrim(segs[k])
                          && AllIn(LastSentence(s), NotTerminator)
  {
    var segs := Segments(s, 0, 0);
    var nb := NonBlank(segs);
    if nb != [] {
      var k := NonBlankLast(segs);
      assert segs[k] in segs;
      SegmentsFree(s, 0, 0);
      TrimKeepsAll(segs[k], IsJsSpace, NotTerminator);
    }
  }

  // ----- Examples -----

  /** A full-width question mark does not count as a question mark. */
  lemma FullWidthMarkIsNotQuestion()
    ensures ExtractQuestion("好吗？") == "好吗？"
  {
    assert "好吗？"[0..0] == [];
    assert QuestionMatches("好吗？", 0) == [];
  }

  /** A reply of terminators only has no sentence. */
  lemma OnlyTerminators()
    ensures ExtractQuestion("?!.") == NoQuestion
  {
    var s := "?!.";
    assert RunEnd(s, 0, IsTerminator) == 3;
    assert |s| == 3 && s[3..] == "";
    assert Segments(s, 3, 3) == [""];
    assert Segments(s, 0, 0) == ["", ""];
    assert NonBlank(["", ""]) == [];
    assert QuestionMatches(s, 0) == [];
  }
}
