/** Failure budgets: a token is reserved before a password is checked and settled afterwards. */
module Throttle {
  import opened Wrappers
  import opened RateLimit

  const ACCOUNT_FAILURE_BURST := 10
  const ACCOUNT_FAILURES_PER_MINUTE := 1
  const MINUTE := 60 * SECOND

  datatype Outcome = Succeeded | WrongPassword | NotChecked

  /**
   * Logins in progress, by attempt, and for each account the failed ones so far. Several logins to
   * one account can be between their reservation and its settlement at the same time.
   */
  datatype Logins = Logins(failures: State, checking: map<int, string>, failed: map<string, int>)

  datatype Step =
    | Begin(attempt: int, account: string)
    | Finish(attempt: int, outcome: Outcome)

  function Failed(s: Logins, account: string): int {
    if account in s.failed then s.failed[account] else 0
  }

  function Checking(s: Logins, account: string): set<int> {
    set a | a in s.checking && s.checking[a] == account
  }

  /** What settles a reservation: success forgets the account, an unchecked attempt is refunded. */
  function Settle(failures: State, account: string, outcome: Outcome, now: int): State
    requires failures.perSecond != 0.0
  {
    match outcome
    case Succeeded => Do(failures, Reset(account), now, true).0
    case WrongPassword => failures
    case NotChecked => Do(failures, Refund(account), now, true).0
  }

  /** A step of some login; None when the login is refused or there is no such attempt. */
  function Take(s: Logins, step: Step, now: int): Option<Logins>
    requires s.failures.perSecond != 0.0
  {
    match step
    case Begin(attempt, account) =>
      if attempt in s.checking then None
      else if account == "" then Some(s.(checking := s.checking[attempt := account]))
      else
        var (failures, answer) := Do(s.failures, Allow(account), now, true);
        if answer.Allowed? then Some(s.(failures := failures, checking := s.checking[attempt := account]))
        else Some(s.(failures := failures))
    case Finish(attempt, outcome) =>
      if attempt !in s.checking then None
      else
        var account := s.checking[attempt];
        var failures := if account == "" then s.failures else Settle(s.failures, account, outcome, now);
        var failed := if outcome.WrongPassword? then s.failed[account := Failed(s, account) + 1] else s.failed;
        Some(Logins(failures, s.checking - {attempt}, failed))
  }

  ghost const START := Logins(New(ACCOUNT_FAILURES_PER_MINUTE, ACCOUNT_FAILURE_BURST), map[], map[])

  datatype Moment = Moment(step: Step, at: int)

  /** The clock after n steps. */
  function Clock(moments: seq<Moment>, start: int, n: nat): int
    requires n <= |moments|
  {
    if n == 0 then start else moments[n - 1].at
  }

  /** States of a run of steps, interleaved in any order, under a monotone clock. */
  ghost predicate IsRun(states: seq<Logins>, moments: seq<Moment>, start: int) {
    |states| == |moments| + 1 && states[0] == START &&
    forall i | 0 <= i < |moments| ::
      Clock(moments, start, i) <= moments[i].at && states[i].failures.perSecond != 0.0 &&
      Take(states[i], moments[i].step, moments[i].at) == Some(states[i + 1])
  }

  /** No login to the account succeeds in the run. */
  ghost predicate NeverSucceeds(states: seq<Logins>, moments: seq<Moment>, account: string)
    requires |states| == |moments| + 1
  {
    forall i | 0 <= i < |moments| ::
      moments[i].step.Finish? && moments[i].step.outcome.Succeeded? && moments[i].step.attempt in states[i].checking ==>
        states[i].checking[moments[i].step.attempt] != account
  }

  /** Reservations and failures together are covered by the budget that was there and was earned. */
  ghost predicate Covered(s: Logins, account: string, start: int, now: int) {
    Valid(s.failures, now) && s.failures.perSecond == START.failures.perSecond &&
    s.failures.burst == START.failures.burst &&
    (Failed(s, account) + |Checking(s, account)|) as real + Level(s.failures, account, now) <=
    s.failures.burst + Earned(s.failures.perSecond, now - start)
  }

  lemma TimePasses(s: Logins, account: string, start: int, now: int, later: int)
    requires Covered(s, account, start, now) && now <= later
    ensures Covered(s, account, start, later)
  {
    hide Earned, Level;
    LevelRises(s.failures, account, now, later);
    EarnedAdds(s.failures.perSecond, now - start, later - now);
  }

  lemma StepKeepsCovered(s: Logins, step: Step, account: string, start: int, now: int)
    requires Covered(s, account, start, now) && account != "" && Take(s, step, now).Some?
    requires step.Finish? && step.outcome.Succeeded? ==> s.checking[step.attempt] != account
    ensures Covered(Take(s, step, now).value, account, start, now)
  {
    hide Do, Earned, Level;
    var r := Take(s, step, now).value;
    LevelRises(s.failures, account, now, now);
    match step
    case Begin(attempt, a) =>
      CallByLevel(s.failures, Allow(a), now, true);
      CheckingAfterBegin(s, attempt, a, account);
    case Finish(attempt, outcome) =>
      var a := s.checking[attempt];
      CallByLevel(s.failures, Refund(a), now, true);
      CallByLevel(s.failures, Reset(a), now, true);
      CheckingAfterFinish(s, attempt, account);
  }

  lemma CheckingAfterBegin(s: Logins, attempt: int, a: string, account: string)
    requires attempt !in s.checking
    ensures |Checking(s.(checking := s.checking[attempt := a]), account)| ==
            |Checking(s, account)| + if a == account then 1 else 0
  {
    assert Checking(s.(checking := s.checking[attempt := a]), account) ==
           if a == account then Checking(s, account) + {attempt} else Checking(s, account);
  }

  lemma CheckingAfterFinish(s: Logins, attempt: int, account: string)
    requires attempt in s.checking
    ensures |Checking(s.(checking := s.checking - {attempt}), account)| ==
            |Checking(s, account)| - if s.checking[attempt] == account then 1 else 0
  {
    assert Checking(s.(checking := s.checking - {attempt}), account) == Checking(s, account) - {attempt};
  }

  lemma {:induction false} RunIsCovered(states: seq<Logins>, moments: seq<Moment>, account: string, start: int, n: nat)
    requires IsRun(states, moments, start) && NeverSucceeds(states, moments, account) && account != "" && n <= |moments|
    ensures Covered(states[n], account, start, Clock(moments, start, n))
  {
    hide Earned, Take;
    if n == 0 {
      EarnedAdds(START.failures.perSecond, 0, 0);
      assert Checking(START, account) == {};
    } else {
      RunIsCovered(states, moments, account, start, n - 1);
      var i, m := n - 1, moments[n - 1];
      assert Take(states[i], m.step, m.at) == Some(states[n]);
      TimePasses(states[i], account, start, Clock(moments, start, i), m.at);
      StepIsPossible(states[i], m.step, m.at);
      StepKeepsCovered(states[i], m.step, account, start, m.at);
    }
  }

  lemma StepIsPossible(s: Logins, step: Step, now: int)
    requires s.failures.perSecond != 0.0 && Take(s, step, now).Some?
    ensures step.Finish? ==> step.attempt in s.checking
  {
  }

  /**
   * In every interleaving of logins to an account, from a fresh budget and with none succeeding,
   * failed attempts and attempts still being checked never exceed 10 plus the minutes elapsed.
   */
  lemma FailuresAreBounded(states: seq<Logins>, moments: seq<Moment>, account: string, start: int, now: int)
    requires IsRun(states, moments, start) && NeverSucceeds(states, moments, account) && account != ""
    requires Clock(moments, start, |moments|) <= now
    ensures var last := states[|moments|];
            (Failed(last, account) + |Checking(last, account)|) as real <= 10.0 + (now - start) as real / MINUTE as real
  {
    hide Covered, Earned, Level, NeverSucceeds;
    var n := |moments|;
    RunIsCovered(states, moments, account, start, n);
    TimePasses(states[n], account, start, Clock(moments, start, n), now);
    CoveredIsBounded(states[n], account, start, now);
  }

  lemma CoveredIsBounded(s: Logins, account: string, start: int, now: int)
    requires Covered(s, account, start, now)
    ensures (Failed(s, account) + |Checking(s, account)|) as real <= 10.0 + (now - start) as real / MINUTE as real
  {
    hide Level;
    LevelRises(s.failures, account, now, now);
    assert START.failures.perSecond == 1.0 / 60.0 && START.failures.burst == 10.0;
    assert Earned(1.0 / 60.0, now - start) == (now - start) as real / MINUTE as real;
  }

  // ---------------------------------------------------------------- what each login does to the budgets

  /** The budgets of a limiter with the throttle's constants. */
  ghost predicate Budgets(failures: State, now: int) {
    Valid(failures, now) && failures.burst == 10.0 && failures.perSecond == 1.0 / 60.0
  }

  lemma StepKeepsBudgets(s: Logins, step: Step, now: int, later: int)
    requires Budgets(s.failures, now) && now <= later && Take(s, step, later).Some?
    ensures Budgets(Take(s, step, later).value.failures, later)
  {
    hide Do, Level;
    LevelRises(s.failures, "", now, later);
    match step
    case Begin(_, account) => CallByLevel(s.failures, Allow(account), later, true);
    case Finish(attempt, _) =>
      CallByLevel(s.failures, Refund(s.checking[attempt]), later, true);
      CallByLevel(s.failures, Reset(s.checking[attempt]), later, true);
  }

  lemma {:induction false} RunIsValid(states: seq<Logins>, moments: seq<Moment>, start: int, n: nat)
    requires IsRun(states, moments, start) && n <= |moments|
    ensures Budgets(states[n].failures, Clock(moments, start, n))
  {
    hide Take, Budgets;
    if n > 0 {
      RunIsValid(states, moments, start, n - 1);
      var m := moments[n - 1];
      assert Take(states[n - 1], m.step, m.at) == Some(states[n - 1 + 1]);
      PositiveRate(states[n - 1], Clock(moments, start, n - 1));
      StepKeepsBudgets(states[n - 1], m.step, Clock(moments, start, n - 1), m.at);
    } else {
      StartsValid(start);
    }
  }

  lemma PositiveRate(s: Logins, now: int)
    requires Budgets(s.failures, now)
    ensures s.failures.perSecond > 0.0
  {
  }

  lemma StartsValid(start: int)
    ensures Budgets(START.failures, start)
  {
  }

  /** Nobody but the account has its budget changed. */
  ghost predicate OnlyBudgetOf(a: Logins, b: Logins, account: string, now: int) {
    forall k | k != account :: Level(b.failures, k, now) == Level(a.failures, k, now)
  }

  /**
   * A login is let through to its password check exactly if the account's budget holds a whole failure, which is
   * then reserved; otherwise it is refused and changes nothing.
   */
  lemma LetThroughExactly(states: seq<Logins>, moments: seq<Moment>, start: int, n: nat, attempt: int, account: string)
    requires IsRun(states, moments, start) && n < |moments| && moments[n].step == Begin(attempt, account)
    requires account != ""
    ensures var a, b, now := states[n], states[n + 1], moments[n].at;
            var level := Level(a.failures, account, now);
            attempt !in a.checking && b.failed == a.failed && OnlyBudgetOf(a, b, account, now) &&
            if level >= 1.0
            then b.checking == a.checking[attempt := account] && Level(b.failures, account, now) == level - 1.0
            else b.checking == a.checking && Level(b.failures, account, now) == level
  {
    hide Do, Level, Earned;
    RunIsValid(states, moments, start, n);
    assert Take(states[n], moments[n].step, moments[n].at) == Some(states[n + 1]);
    LevelRises(states[n].failures, account, Clock(moments, start, n), moments[n].at);
    CallByLevel(states[n].failures, Allow(account), moments[n].at, true);
  }

  /** A login can be tried at any time, and a checked one settles once; without an e-mail no budget is spent. */
  lemma AlwaysPossible(s: Logins, attempt: int, account: string, outcome: Outcome, now: int)
    requires s.failures.perSecond != 0.0
    ensures Take(s, Begin(attempt, account), now).Some? <==> attempt !in s.checking
    ensures Take(s, Finish(attempt, outcome), now).Some? <==> attempt in s.checking
    ensures attempt !in s.checking ==>
              Take(s, Begin(attempt, ""), now) == Some(s.(checking := s.checking[attempt := ""]))
    ensures attempt in s.checking && s.checking[attempt] == "" ==>
              Take(s, Finish(attempt, outcome), now).value.failures == s.failures
  {
  }

  /**
   * How a checked login settles: success leaves the account a full budget of 10 failures, a wrong password keeps
   * the reserved one spent and counts, and an attempt that was not checked gives it back.
   */
  lemma SettlesExactly(states: seq<Logins>, moments: seq<Moment>, start: int, n: nat, attempt: int, outcome: Outcome)
    requires IsRun(states, moments, start) && n < |moments| && moments[n].step == Finish(attempt, outcome)
    ensures attempt in states[n].checking
    ensures var a, b, now := states[n], states[n + 1], moments[n].at;
            var account := a.checking[attempt];
            var level := Level(a.failures, account, now);
            b.checking == a.checking - {attempt} && OnlyBudgetOf(a, b, account, now) &&
            (forall k :: Failed(b, k) == Failed(a, k) + if k == account && outcome.WrongPassword? then 1 else 0) &&
            (account != "" ==>
               Level(b.failures, account, now) ==
               match outcome
               case Succeeded => 10.0
               case WrongPassword => level
               case NotChecked => if level + 1.0 < 10.0 then level + 1.0 else 10.0)
  {
    hide Do, Level, Earned;
    RunIsValid(states, moments, start, n);
    assert Take(states[n], moments[n].step, moments[n].at) == Some(states[n + 1]);
    var account := states[n].checking[attempt];
    LevelRises(states[n].failures, account, Clock(moments, start, n), moments[n].at);
    CallByLevel(states[n].failures, Refund(account), moments[n].at, true);
    CallByLevel(states[n].failures, Reset(account), moments[n].at, true);
  }
}
