/** `parse_posted_date` of the Indeed crawler: the relative date label of a job
    card ("Just posted", "Yesterday", "5 days ago", ...) read as a number of
    days, or None when the label says nothing the parser understands. */
module PostedDate {
  import opened Wrappers
  import opened Text

  /** Whether the pattern `(\d+)\s+day` matches at position `i` of `s`.
      Backtracking never helps either run: a shorter digit run is followed by
      a digit rather than whitespace, a shorter whitespace run by whitespace
      rather than "d", so only the two greedy runs need be considered. The
      match is case-sensitive: "Day" does not match. */
  predicate DaysMatchAt(s: string, i: nat)
  {
    i < |s| && IsDigit(s[i]) &&
    var j := RunEnd(s, i, IsDigit);
    j < |s| && IsPySpace(s[j]) && StartsWith(s[RunEnd(s, j, IsPySpace)..], "day")
  }

  /** The first group of a match at `i`: the digits read as a number. */
  function DaysCaptured(s: string, i: nat): nat
    requires DaysMatchAt(s, i)
  {
    DecimalValue(s[i..RunEnd(s, i, IsDigit)])
  }

  /** `re.search(r'(\d+)\s+day', s)`, trying start positions from `i` on. */
  function SearchDays(s: string, i: nat): Option<nat>
    requires i <= |s|
    decreases |s| - i
  {
    if i == |s| then None
    else if DaysMatchAt(s, i) then Some(DaysCaptured(s, i))
    else SearchDays(s, i + 1)
  }

  /** The crawler's date parser: "just posted" or "today" anywhere in the
      lower-cased label gives 0, checked before "yesterday", which gives 1;
      otherwise the leftmost "<digits><whitespace>day" gives its number. */
  function ParsePostedDate(text: string): Option<nat>
  {
    var low := Lower(text);
    if Contains(low, "just posted") || Contains(low, "today") then Some(0)
    else if Contains(low, "yesterday") then Some(1)
    else SearchDays(text, 0)
  }

  /** The search finds nothing exactly when no position matches. */
  lemma {:induction false} SearchDaysNone(s: string, i: nat)
    requires i <= |s|
    ensures SearchDays(s, i) == None <==> forall k :: i <= k < |s| ==> !DaysMatchAt(s, k)
    decreases |s| - i
  {
    if i < |s| && !DaysMatchAt(s, i) {
      SearchDaysNone(s, i + 1);
    }
  }

  /** When it finds something, it is the number of the leftmost match. */
  lemma {:induction false} SearchDaysLeftmost(s: string, i: nat, k: nat)
    requires i <= k < |s| && DaysMatchAt(s, k)
    requires forall m :: i <= m < k ==> !DaysMatchAt(s, m)
    ensures SearchDays(s, i) == Some(DaysCaptured(s, k))
    decreases k - i
  {
    if i < k {
      SearchDaysLeftmost(s, i + 1, k);
    }
  }

  lemma {:induction false} RunEndAt(s: string, i: nat, j: nat, p: char -> bool)
    requires i <= j <= |s| && AllIn(s[i..j], p) && (j < |s| ==> !p(s[j]))
    ensures RunEnd(s, i, p) == j
    decreases j - i
  {
    if i < j {
      assert s[i..j][0] == s[i];
      assert s[i + 1..j] == s[i..j][1..];
      RunEndAt(s, i + 1, j, p);
    }
  }

  /** A match that starts inside a run of digits also matches one position
      earlier, so the leftmost match always reads a whole run of digits. */
  lemma MatchExtendsLeft(s: string, k: nat)
    requires 0 < k && DaysMatchAt(s, k) && IsDigit(s[k - 1])
    ensures DaysMatchAt(s, k - 1)
    ensures RunEnd(s, k - 1, IsDigit) == RunEnd(s, k, IsDigit)
  {
  }

  lemma {:induction false} NotContainsMissing(s: string, t: string, c: char)
    requires c in t && c !in s
    ensures !Contains(s, t)
  {
    var m :| 0 <= m < |t| && t[m] == c;
    assert |t| <= |s| ==> s[..|t|][m] == s[m];
    if s != [] {
      NotContainsMissing(s[1..], t, c);
    }
  }

  lemma {:induction false} ContainsFrom(s: string, t: string, i: nat)
    requires i + |t| <= |s| && s[i..i + |t|] == t
    ensures Contains(s, t)
  {
    if i > 0 {
      assert s[1..][i - 1..i - 1 + |t|] == t;
      ContainsFrom(s[1..], t, i - 1);
    }
  }

  lemma LowerUnchanged(s: string)
    requires forall i :: 0 <= i < |s| ==> !('A' <= s[i] <= 'Z')
    ensures Lower(s) == s
  {
  }

  /** None of the three keywords occurs in a label without "j", "t" and "e". */
  lemma NoKeyword(s: string)
    requires 'j' !in s && 't' !in s && 'e' !in s
    ensures !Contains(s, "just posted") && !Contains(s, "today") && !Contains(s, "yesterday")
  {
    assert "just posted"[0] == 'j' && "today"[0] == 't' && "yesterday"[1] == 'e';
    NotContainsMissing(s, "just posted", 'j');
    NotContainsMissing(s, "today", 't');
    NotContainsMissing(s, "yesterday", 'e');
  }

  /** "<digits> days ago" matches at its first position. */
  lemma DaysMatchOfRendered(d: string)
    requires d != [] && AllIn(d, IsDigit)
    ensures DaysMatchAt(d + " days ago", 0)
  {
    var s := d + " days ago";
    assert s[0..|d|] == d;
    RunEndAt(s, 0, |d|, IsDigit);
    assert s[|d|] == ' ';
    assert s[|d|..|d| + 1] == " ";
    assert IsPySpace(' ');
    assert AllIn(s[|d|..|d| + 1], IsPySpace);
    assert s[|d| + 1] == 'd' && !IsPySpace('d');
    RunEndAt(s, |d|, |d| + 1, IsPySpace);
    assert s[|d| + 1..][..3] == "day";
    assert StartsWith(s[|d| + 1..], "day");
  }

  lemma DaysCapturedOfRendered(d: string)
    requires d != [] && AllIn(d, IsDigit)
    ensures DaysMatchAt(d + " days ago", 0)
    ensures DaysCaptured(d + " days ago", 0) == DecimalValue(d)
  {
    DaysMatchOfRendered(d);
    var s := d + " days ago";
    assert s[0..|d|] == d;
    RunEndAt(s, 0, |d|, IsDigit);
  }

  /** Rendering a count as "<n> days ago" and parsing it gives the count
      back, for every count. */
  lemma DaysAgoRoundTrip(n: nat)
    ensures ParsePostedDate(DecimalString(n) + " days ago") == Some(n)
  {
    var d := DecimalString(n);
    var s := d + " days ago";
    forall i | 0 <= i < |s|
      ensures !('A' <= s[i] <= 'Z') && s[i] != 't' && s[i] != 'e' && s[i] != 'j'
    {
      if i < |d| { assert s[i] == d[i] && IsDigit(d[i]); }
    }
    LowerUnchanged(s);
    NoKeyword(s);
    DaysCapturedOfRendered(d);
    SearchDaysLeftmost(s, 0, 0);
  }

  /** The labels Indeed shows. The keyword tests look at the lower-cased
      label, so each holds in any casing; "yesterday" is only looked for when
      neither "just posted" nor "today" occurs. */
  lemma JustPostedIsZero(s: string)
    requires Lower(s) == "just posted"
    ensures ParsePostedDate(s) == Some(0)
  {
    ContainsFrom(Lower(s), "just posted", 0);
  }

  lemma TodayIsZero(s: string)
    requires Lower(s) == "posted today"
    ensures ParsePostedDate(s) == Some(0)
  {
    assert Lower(s)[7..12] == "today";
    ContainsFrom(Lower(s), "today", 7);
  }

  lemma YesterdayIsOne(s: string)
    requires Lower(s) == "yesterday"
    ensures ParsePostedDate(s) == Some(1)
  {
    YesterdayKeywords(Lower(s));
  }

  lemma YesterdayKeywords(low: string)
    requires low == "yesterday"
    ensures !Contains(low, "just posted") && !Contains(low, "today") && Contains(low, "yesterday")
  {
    YesterdayNotJustPosted(low);
    YesterdayNotToday(low);
    assert low[0..9] == "yesterday";
    ContainsFrom(low, "yesterday", 0);
  }

  lemma YesterdayNotJustPosted(low: string)
    requires low == "yesterday"
    ensures !Contains(low, "just posted")
  {
    assert "just posted"[0] == 'j';
    NotContainsMissing(low, "just posted", 'j');
  }

  lemma YesterdayNotToday(low: string)
    requires low == "yesterday"
    ensures !Contains(low, "today")
  {
    assert "today"[1] == 'o';
    NotContainsMissing(low, "today", 'o');
  }

  /** Without any of the three keywords the label goes to the pattern. */
  lemma FallsToSearch(s: string)
    requires 'j' !in Lower(s) && 't' !in Lower(s) && ('e' !in Lower(s) || 'y' !in Lower(s))
    ensures ParsePostedDate(s) == SearchDays(s, 0)
  {
    var low := Lower(s);
    assert "just posted"[0] == 'j' && "today"[0] == 't' && "yesterday"[0] == 'y' && "yesterday"[1] == 'e';
    NotContainsMissing(low, "just posted", 'j');
    NotContainsMissing(low, "today", 't');
    if 'e' !in low {
      NotContainsMissing(low, "yesterday", 'e');
    } else {
      NotContainsMissing(low, "yesterday", 'y');
    }
  }

  lemma {:induction false} NoDigitNoMatch(s: string, i: nat)
    requires i <= |s| && forall k | i <= k < |s| :: !IsDigit(s[k])
    ensures SearchDays(s, i) == None
  {
    SearchDaysNone(s, i);
  }

  /** The pattern is case-sensitive: a capital "Days" is not understood. */
  lemma CapitalDaysIsUnknown(s: string)
    requires s == "5 Days ago"
    ensures ParsePostedDate(s) == None
  {
    CapitalDaysToSearch(s);
    OneDigitNoMatch(s, "Day");
    NoDigitNoMatch(s, 1);
  }

  lemma CapitalDaysToSearch(s: string)
    requires s == "5 Days ago"
    ensures ParsePostedDate(s) == SearchDays(s, 0)
  {
    assert Lower(s) == "5 days ago" by {
      assert LowerChar('D') == 'd';
    }
    FallsToSearch(s);
  }

  /** A single digit, a single space, then a word other than "day". */
  lemma OneDigitNoMatch(s: string, w: string)
    requires |s| >= 5 && IsDigit(s[0]) && s[1] == ' ' && |w| == 3 && s[2..5] == w && w != "day"
    requires !IsDigit(s[1]) && !IsPySpace(s[2])
    requires forall k | 1 <= k < |s| :: !IsDigit(s[k])
    ensures !DaysMatchAt(s, 0)
  {
    assert s[0..1] == [s[0]];
    RunEndAt(s, 0, 1, IsDigit);
    assert s[1..2] == [' '] && IsPySpace(' ');
    RunEndAt(s, 1, 2, IsPySpace);
    assert s[2..][..3] == w;
  }

  /** "N/A" is what the crawler parses for a card without a date element. */
  lemma SentinelIsUnknown(s: string)
    requires s == "N/A" || s == ""
    ensures ParsePostedDate(s) == None
  {
    var low := Lower(s);
    assert low == "n/a" || low == "";
    NoKeyword(low);
    assert forall k | 0 <= k < |s| :: !IsDigit(s[k]);
    SearchDaysNone(s, 0);
  }

  /** Indeed labels postings older than a month "30+ days ago"; the "+"
      between the digits and the space keeps the pattern from matching. */
  lemma ThirtyPlusIsUnknown(s: string)
    requires s == "30+ days ago"
    ensures ParsePostedDate(s) == None
  {
    ThirtyPlusToSearch(s);
    ThirtyPlusNoMatch(s);
    NoDigitNoMatch(s, 2);
  }

  lemma ThirtyPlusToSearch(s: string)
    requires s == "30+ days ago"
    ensures ParsePostedDate(s) == SearchDays(s, 0)
  {
    LowerUnchanged(s);
    FallsToSearch(s);
  }

  lemma ThirtyPlusNoMatch(s: string)
    requires s == "30+ days ago"
    ensures !DaysMatchAt(s, 0) && !DaysMatchAt(s, 1)
  {
    assert s[0..2] == "30" && s[1..2] == "0";
    RunEndAt(s, 0, 2, IsDigit);
    RunEndAt(s, 1, 2, IsDigit);
    assert !IsPySpace(s[2]);
  }
}
