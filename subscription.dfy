/** The subscription document of the backend and its usage-quota methods:
    two GPT-4o counters that start again every calendar day, the permission
    check for each action, the remaining uses and the recording of a use.

    Instants are milliseconds since the epoch; the clock reading of each
    call is a parameter. A calendar day is `DayOf(t)`. */
module Quota {
  import opened Wrappers

  datatype SubscriptionType = Free | Premium | Enterprise
  datatype Status = Active | Cancelled | Expired

  const MsPerDay: int := 86400000

  /** The calendar day of an instant. */
  function DayOf(t: int): int { t / MsPerDay }

  // The action names the methods understand.
  const ResumeAnalysis: string := "gpt4oResumeAnalysis"
  const CoverLetterGpt4o: string := "gpt4oCoverLetter"
  const Analysis: string := "analysis"
  const CoverLetter: string := "coverLetter"
  const UseGemini: string := "useGemini"
  const UseGpt4o: string := "useGpt4o"
  const UseO1: string := "useO1"

  /** The two daily counters and when they were last reset. */
  datatype Counters = Counters(resumeAnalysis: nat, coverLetter: nat, lastReset: int)

  predicate IsNewDay(c: Counters, now: int)
  {
    DayOf(c.lastReset) != DayOf(now)
  }

  /** `checkAndResetDailyUsage`: on a new day both counters go back to zero
      and the reset time becomes now. */
  function AfterReset(c: Counters, now: int): Counters
  {
    if IsNewDay(c, now) then Counters(0, 0, now) else c
  }

  /** `getRemainingUsage` on counters that are already reset: one use a day
      of each GPT-4o action, nothing for any other action. */
  function Remaining(c: Counters, action: string): int
  {
    if action == ResumeAnalysis then 1 - c.resumeAnalysis
    else if action == CoverLetterGpt4o then 1 - c.coverLetter
    else 0
  }

  /** `canPerformAction`: whether the action is allowed, and the counters
      afterwards (only the two GPT-4o actions look at, and so may reset, the
      counters). */
  function Permitted(status: Status, endDate: Option<int>, o1: bool, c: Counters,
                     action: string, now: int): (bool, Counters)
  {
    if status != Active then (false, c)
    else if endDate.Some? && now > endDate.value then (false, c)
    else if action == UseGemini || action == UseGpt4o then (true, c)
    else if action == UseO1 then (o1, c)
    else if action == Analysis || action == CoverLetter then (true, c)
    else if action == ResumeAnalysis then
      var r := AfterReset(c, now); (r.resumeAnalysis < 1, r)
    else if action == CoverLetterGpt4o then
      var r := AfterReset(c, now); (r.coverLetter < 1, r)
    else (false, c)
  }

  /** `recordUsage`: after the reset, one more use of the action's counter;
      "analysis" counts as a résumé analysis and "coverLetter" as a GPT-4o
      cover letter. */
  function Recorded(c: Counters, action: string, now: int): Counters
  {
    var r := AfterReset(c, now);
    if action == ResumeAnalysis || action == Analysis then r.(resumeAnalysis := r.resumeAnalysis + 1)
    else if action == CoverLetterGpt4o || action == CoverLetter then r.(coverLetter := r.coverLetter + 1)
    else r
  }

  // ----- Schema defaults and validation -----

  function DefaultGpt4o(t: SubscriptionType): bool { t == Premium || t == Enterprise }

  function DefaultO1(t: SubscriptionType): bool { t == Enterprise }

  /** Every plan with o1 by default also has GPT-4o by default, and only the
      free plan has neither. */
  lemma DefaultFeatures(t: SubscriptionType)
    ensures DefaultO1(t) ==> DefaultGpt4o(t)
    ensures !DefaultGpt4o(t) <==> t == Free
    ensures DefaultO1(t) <==> t == Enterprise
  {
  }

  /** A payment id is required for every plan except the free one; a
      required string must be present and non-empty. */
  predicate PaymentIdValid(t: SubscriptionType, paymentId: Option<string>)
  {
    t == Free || (paymentId.Some? && paymentId.value != "")
  }

  // ----- Properties -----

  /** The reset either zeroes both counters at the current time (new day) or
      changes nothing (same day), and a second reset at the same time does
      nothing. */
  lemma ResetSpec(c: Counters, now: int)
    ensures IsNewDay(c, now) ==> AfterReset(c, now) == Counters(0, 0, now)
    ensures !IsNewDay(c, now) ==> AfterReset(c, now) == c
    ensures !IsNewDay(AfterReset(c, now), now)
    ensures AfterReset(AfterReset(c, now), now) == AfterReset(c, now)
  {
  }

  /** The remaining count is one minus the day's counter for the two GPT-4o
      actions, and goes below zero once a counter is past one. */
  lemma RemainingSpec(c: Counters, action: string)
    ensures action == ResumeAnalysis ==> Remaining(c, action) == 1 - c.resumeAnalysis
    ensures action == CoverLetterGpt4o ==> Remaining(c, action) == 1 - c.coverLetter
    ensures action != ResumeAnalysis && action != CoverLetterGpt4o ==> Remaining(c, action) == 0
    ensures Remaining(c, action) <= 1
    ensures action == ResumeAnalysis && c.resumeAnalysis > 1 ==> Remaining(c, action) < 0
  {
  }

  /** A subscription that is not active, or whose end date has passed,
      allows nothing and leaves its counters alone. */
  lemma InactiveDeniesAll(status: Status, endDate: Option<int>, o1: bool, c: Counters,
                          action: string, now: int)
    requires status != Active || (endDate.Some? && now > endDate.value)
    ensures Permitted(status, endDate, o1, c, action, now) == (false, c)
  {
  }

  /** An active subscription in its term: Gemini, GPT-4o chat, analysis and
      cover letters always; o1 when the feature is on; unknown actions never. */
  lemma ActivePermissions(endDate: Option<int>, o1: bool, c: Counters, action: string, now: int)
    requires endDate.None? || now <= endDate.value
    ensures action in {UseGemini, UseGpt4o, Analysis, CoverLetter} ==>
              Permitted(Active, endDate, o1, c, action, now) == (true, c)
    ensures action == UseO1 ==> Permitted(Active, endDate, o1, c, action, now) == (o1, c)
    ensures action !in {UseGemini, UseGpt4o, UseO1, Analysis, CoverLetter, ResumeAnalysis, CoverLetterGpt4o} ==>
              Permitted(Active, endDate, o1, c, action, now) == (false, c)
  {
  }

  /** For the two GPT-4o actions, permission is exactly "uses remain today",
      and the counters the check leaves behind are the reset ones. */
  lemma AllowedIffRemaining(endDate: Option<int>, o1: bool, c: Counters, action: string, now: int)
    requires endDate.None? || now <= endDate.value
    requires action == ResumeAnalysis || action == CoverLetterGpt4o
    ensures Permitted(Active, endDate, o1, c, action, now).0 <==> Remaining(AfterReset(c, now), action) > 0
    ensures Permitted(Active, endDate, o1, c, action, now).1 == AfterReset(c, now)
  {
  }

  /** Recording adds exactly one to the counter of the action (or of the
      action it stands for) and leaves the other counter as the reset left
      it; an unknown action only resets. */
  lemma RecordedSpec(c: Counters, action: string, now: int)
    ensures var r, after := AfterReset(c, now), Recorded(c, action, now);
            && after.lastReset == r.lastReset
            && (action in {ResumeAnalysis, Analysis} ==>
                  after.resumeAnalysis == r.resumeAnalysis + 1 && after.coverLetter == r.coverLetter)
            && (action in {CoverLetterGpt4o, CoverLetter} ==>
                  after.coverLetter == r.coverLetter + 1 && after.resumeAnalysis == r.resumeAnalysis)
            && (action !in {ResumeAnalysis, Analysis, CoverLetterGpt4o, CoverLetter} ==> after == r)
  {
  }

  /** After a résumé analysis is recorded (under either name), the GPT-4o
      résumé analysis is refused for the rest of that calendar day, whatever
      the counters were before. */
  lemma {:induction false} RecordedThenRefused(status: Status, endDate: Option<int>, o1: bool,
                                               c: Counters, action: string, now: int, later: int)
    requires action == ResumeAnalysis || action == Analysis
    requires DayOf(later) == DayOf(now)
    ensures !Permitted(status, endDate, o1, Recorded(c, action, now), ResumeAnalysis, later).0
    ensures Remaining(AfterReset(Recorded(c, action, now), later), ResumeAnalysis) <= 0
  {
    var after := Recorded(c, action, now);
    assert DayOf(after.lastReset) == DayOf(now);
    assert !IsNewDay(after, later);
    assert after.resumeAnalysis >= 1;
  }

  /** On a new day the first GPT-4o use is allowed again, whatever was
      recorded before. */
  lemma NewDayAllowsAgain(endDate: Option<int>, o1: bool, c: Counters, action: string, now: int)
    requires endDate.None? || now <= endDate.value
    requires action == ResumeAnalysis || action == CoverLetterGpt4o
    requires IsNewDay(c, now)
    ensures Permitted(Active, endDate, o1, c, action, now) == (true, Counters(0, 0, now))
  {
  }

  // ----- The document -----

  class Subscription {
    var subscriptionType: SubscriptionType
    var startDate: int
    var endDate: Option<int>
    var status: Status
    var paymentId: Option<string>
    var gemini: bool
    var gpt4o: bool
    var o1: bool
    var dailyUsage: (nat, nat)
    var lastUsageReset: int

    /** The usage part of the document. */
    function Usage(): Counters
      reads this
    {
      Counters(dailyUsage.0, dailyUsage.1, lastUsageReset)
    }

    /** A new document with the schema defaults: active, no end date, Gemini
        for everyone, GPT-4o for paid plans, o1 for enterprise, zero usage
        reset at creation. */
    constructor (subscriptionType: SubscriptionType, startDate: int, paymentId: Option<string>, now: int)
      ensures this.subscriptionType == subscriptionType && this.startDate == startDate
      ensures this.paymentId == paymentId
      ensures endDate.None? && status == Active
      ensures gemini && gpt4o == DefaultGpt4o(subscriptionType) && o1 == DefaultO1(subscriptionType)
      ensures Usage() == Counters(0, 0, now)
    {
      this.subscriptionType := subscriptionType;
      this.startDate := startDate;
      this.paymentId := paymentId;
      endDate := None;
      status := Active;
      gemini := true;
      gpt4o := DefaultGpt4o(subscriptionType);
      o1 := DefaultO1(subscriptionType);
      dailyUsage := (0, 0);
      lastUsageReset := now;
    }

    /** Whether the document passes the schema's `required` check. */
    predicate Validates()
      reads this
    {
      PaymentIdValid(subscriptionType, paymentId)
    }

    method CheckAndResetDailyUsage(now: int) returns (reset: bool)
      modifies this`dailyUsage, this`lastUsageReset
      ensures reset == IsNewDay(old(Usage()), now)
      ensures Usage() == AfterReset(old(Usage()), now)
    {
      if DayOf(lastUsageReset) != DayOf(now) {
        dailyUsage := (0, 0);
        lastUsageReset := now;
        return true;
      }
      return false;
    }

    method GetRemainingUsage(action: string, now: int) returns (remaining: int)
      modifies this`dailyUsage, this`lastUsageReset
      ensures Usage() == AfterReset(old(Usage()), now)
      ensures remaining == Remaining(Usage(), action)
    {
      var _ := CheckAndResetDailyUsage(now);
      if action == ResumeAnalysis {
        return 1 - dailyUsage.0;
      } else if action == CoverLetterGpt4o {
        return 1 - dailyUsage.1;
      }
      return 0;
    }

    method CanPerformAction(action: string, now: int) returns (allowed: bool)
      modifies this`dailyUsage, this`lastUsageReset
      ensures (allowed, Usage()) == Permitted(status, endDate, o1, old(Usage()), action, now)
    {
      if status != Active {
        return false;
      }
      if endDate.Some? && now > endDate.value {
        return false;
      }
      if action == UseGemini {
        return true;
      } else if action == UseGpt4o {
        return true;
      } else if action == UseO1 {
        return o1;
      } else if action == ResumeAnalysis || action == Analysis {
        if action == Analysis {
          return true;
        }
        var _ := CheckAndResetDailyUsage(now);
        return dailyUsage.0 < 1;
      } else if action == CoverLetterGpt4o || action == CoverLetter {
        if action == CoverLetter {
          return true;
        }
        var _ := CheckAndResetDailyUsage(now);
        return dailyUsage.1 < 1;
      }
      return false;
    }

    method RecordUsage(action: string, now: int)
      modifies this`dailyUsage, this`lastUsageReset
      ensures Usage() == Recorded(old(Usage()), action, now)
    {
      var _ := CheckAndResetDailyUsage(now);
      if action == ResumeAnalysis || action == Analysis {
        dailyUsage := (dailyUsage.0 + 1, dailyUsage.1);
      } else if action == CoverLetterGpt4o || action == CoverLetter {
        dailyUsage := (dailyUsage.0, dailyUsage.1 + 1);
      }
    }
  }
}
