/**
 * The browser's side of a session: requests, 401 answers and session changes in flight, one event of
 * some tab's single thread at a time. The tabs share the stored token; each knows its own requests only.
 */
module Client {
  import opened IdSets
  import opened Wrappers

  // ---------------------------------------------------------------- state

  /** A rename re-issues the token it carried; a password change issues a new one. */
  datatype Kind = Ordinary | Rename | ChangePassword | SignsIn {
    predicate ChangesSession() { Rename? || ChangePassword? }
  }

  datatype Phase =
    | InFlight
    | Waiting(awaited: set<int>)     // got a 401, waits for the session changes that were in flight then
    | Answered(reissued: int)        // a session change succeeded; its token is not stored yet
    | Over

  datatype Request = Request(tab: int, kind: Kind, carried: Option<int>, retried: bool, sends: int, phase: Phase)

  datatype End = End(request: int, token: Option<int>)

  /**
   * issued records the tokens the server gave out, past those that were current once and gave way,
   * and ended the 401s that ended the session.
   */
  datatype State = State(
    token: Option<int>, requests: map<int, Request>, changes: set<int>, issued: set<int>, past: set<int>,
    ended: seq<End>)

  const START := State(None, map[], {}, {}, {}, [])

  datatype Step =
    | Send(r: int, tab: int, kind: Kind)
    | SignIn(newToken: int)
    | SignOut
    | Succeed(r: int, newToken: int)
    | Fail(r: int)
    | Unauthorized(r: int)
    | Wake(r: int)
    | Store(r: int)
    | Forget(r: int)

  // ---------------------------------------------------------------- steps

  function SwitchTo(s: State, token: Option<int>): State {
    s.(token := token, past := if s.token.Some? && s.token != token then s.past + {s.token.value} else s.past)
  }

  function SetPhase(s: State, r: int, phase: Phase): State
    requires r in s.requests
  {
    s.(requests := s.requests[r := s.requests[r].(phase := phase)])
  }

  /** The session changes a tab knows to be in flight. */
  function Changing(s: State, tab: int): set<int> {
    set w | w in s.changes && w in s.requests && s.requests[w].tab == tab
  }

  /** What a 401 leads to: the session ends, or the request is sent again, or it just fails. */
  function Decide(s: State, r: int): State
    requires r in s.requests
  {
    var q := s.requests[r];
    if s.token == q.carried then SetPhase(SwitchTo(s, None), r, Over).(ended := s.ended + [End(r, q.carried)])
    else if s.token.Some? && !q.retried
    then
      var again := q.(carried := s.token, retried := true, sends := q.sends + 1, phase := InFlight);
      s.(requests := s.requests[r := again])
    else SetPhase(s, r, Over)
  }

  predicate Settled(s: State, awaited: set<int>) {
    forall w | w in awaited :: w in s.requests && s.requests[w].phase.Over?
  }

  function Take(s: State, step: Step): Option<State> {
    match step
    case Send(r, tab, kind) =>
      if r in s.requests then None
      else Some(s.(requests := s.requests[r := Request(tab, kind, s.token, false, 1, InFlight)],
                   changes := if kind.ChangesSession() then s.changes + {r} else s.changes))
    case SignIn(newToken) =>
      if newToken in s.issued then None else Some(SwitchTo(s, Some(newToken)).(issued := s.issued + {newToken}))
    case SignOut => Some(SwitchTo(s, None))
    case Succeed(r, newToken) =>
      if r !in s.requests || !s.requests[r].phase.InFlight? then None
      else
        var q := s.requests[r];
        if !q.kind.ChangesSession() then Some(SetPhase(s, r, Over))
        else if q.carried.None? then None
        else if q.kind.Rename? then Some(SetPhase(s, r, Answered(q.carried.value)))
        else if newToken in s.issued then None
        else Some(SetPhase(s, r, Answered(newToken)).(issued := s.issued + {newToken}))
    case Fail(r) =>
      if r !in s.requests || !s.requests[r].phase.InFlight? then None else Some(SetPhase(s, r, Over))
    case Unauthorized(r) =>
      if r !in s.requests || !s.requests[r].phase.InFlight? then None
      else
        var q := s.requests[r];
        if q.kind.SignsIn? then Some(SetPhase(s, r, Over))
        else if s.token == q.carried && Changing(s, q.tab) != {} && q.kind.Ordinary?
        then Some(SetPhase(s, r, Waiting(Changing(s, q.tab))))
        else Some(Decide(s, r))
    case Wake(r) =>
      if r !in s.requests || !s.requests[r].phase.Waiting? || !Settled(s, s.requests[r].phase.awaited) then None
      else Some(Decide(s, r))
    case Store(r) =>
      if r !in s.requests || !s.requests[r].phase.Answered? then None
      else Some(SetPhase(SwitchTo(s, Some(s.requests[r].phase.reissued)), r, Over))
    case Forget(r) =>
      if r !in s.changes || r !in s.requests || !s.requests[r].phase.Over? then None
      else Some(s.(changes := s.changes - {r}))
  }

  ghost predicate IsRun(states: seq<State>, steps: seq<Step>) {
    |states| == |steps| + 1 && states[0] == START &&
    forall i | 0 <= i < |steps| :: Take(states[i], steps[i]) == Some(states[i + 1])
  }

  // ---------------------------------------------------------------- invariants of every run

  /** A password change was answered with a token that is not stored yet. */
  predicate Pending(s: State, r: int) {
    r in s.requests && s.requests[r].kind.ChangePassword? && s.requests[r].phase.Answered?
  }

  /** Only ordinary requests wait, and only for session changes, which never wait themselves. */
  ghost predicate PhaseOk(s: State, r: int)
    requires r in s.requests
  {
    var q := s.requests[r];
    q.sends == (if q.retried then 2 else 1) &&
    (q.phase.Waiting? ==> q.kind.Ordinary? && forall w | w in q.phase.awaited :: IsChange(s, w)) &&
    (q.phase.Answered? ==> q.kind.ChangesSession()) &&
    (q.kind.ChangesSession() && !q.phase.Over? ==> r in s.changes)
  }

  /** A request's token is current or was replaced, and a pending one is nobody else's. */
  ghost predicate TokenOk(s: State, r: int)
    requires r in s.requests
  {
    var q := s.requests[r];
    (q.carried.Some? ==> q.carried == s.token || q.carried.value in s.past) &&
    (q.phase.Answered? && q.kind.Rename? ==> q.carried == Some(q.phase.reissued)) &&
    (Pending(s, r) ==>
       q.phase.reissued in s.issued && q.phase.reissued !in s.past && s.token != Some(q.phase.reissued) &&
       forall x | Pending(s, x) && x != r :: s.requests[x].phase.reissued != q.phase.reissued)
  }

  predicate IsChange(s: State, w: int) {
    w in s.requests && s.requests[w].kind.ChangesSession()
  }

  ghost predicate Inv(s: State) {
    s.past <= s.issued && (s.token.Some? ==> s.token.value in s.issued) &&
    (forall r | r in s.requests :: PhaseOk(s, r)) && (forall r | r in s.requests :: TokenOk(s, r)) &&
    forall w | w in s.changes :: IsChange(s, w)
  }

  lemma StepKeepsPhases(s: State, step: Step)
    requires Inv(s) && Take(s, step).Some?
    ensures var t := Take(s, step).value;
            (forall r | r in t.requests :: PhaseOk(t, r)) && forall w | w in t.changes :: IsChange(t, w)
  {
    hide TokenOk;
    var t := Take(s, step).value;
    forall r | r in t.requests ensures PhaseOk(t, r) {
      if r in s.requests { assert PhaseOk(s, r); }
    }
  }

  lemma StepKeepsTokens(s: State, step: Step)
    requires Inv(s) && Take(s, step).Some?
    ensures var t := Take(s, step).value;
            t.past <= t.issued && (t.token.Some? ==> t.token.value in t.issued) &&
            forall r | r in t.requests :: TokenOk(t, r)
  {
    var t := Take(s, step).value;
    if step.Store? {
      assert PhaseOk(s, step.r) && TokenOk(s, step.r);
      assert s.requests[step.r].kind.ChangesSession();
    }
    hide PhaseOk, Settled, Changing;
    forall r | r in t.requests ensures TokenOk(t, r) {
      if r in s.requests { assert TokenOk(s, r); }
    }
  }

  lemma StepKeeps(s: State, step: Step)
    requires Inv(s) && Take(s, step).Some?
    ensures Inv(Take(s, step).value)
  {
    hide PhaseOk, TokenOk, Take;
    StepKeepsPhases(s, step);
    StepKeepsTokens(s, step);
  }

  lemma {:induction false} RunKeeps(states: seq<State>, steps: seq<Step>, n: nat)
    requires IsRun(states, steps) && n <= |steps|
    ensures Inv(states[n])
  {
    hide Take, Inv;
    if n > 0 {
      RunKeeps(states, steps, n - 1);
      assert Take(states[n - 1], steps[n - 1]) == Some(states[n - 1 + 1]);
      StepKeeps(states[n - 1], steps[n - 1]);
    } else {
      NothingAtStart();
    }
  }

  lemma NothingAtStart()
    ensures Inv(START)
  {
  }

  /** Each request is sent once, or sent again once. */
  lemma ResentAtMostOnce(states: seq<State>, steps: seq<Step>, n: nat, r: int)
    requires IsRun(states, steps) && n <= |steps| && r in states[n].requests
    ensures 1 <= states[n].requests[r].sends <= 2
  {
    RunKeeps(states, steps, n);
    assert PhaseOk(states[n], r);
  }

  /** What a request waits for never waits itself, so waiting requests cannot block each other. */
  lemma WaitingIsOneDeep(states: seq<State>, steps: seq<Step>, n: nat, r: int, w: int)
    requires IsRun(states, steps) && n <= |steps| && r in states[n].requests
    requires states[n].requests[r].phase.Waiting? && w in states[n].requests[r].phase.awaited
    ensures w in states[n].requests && !states[n].requests[w].phase.Waiting?
  {
    RunKeeps(states, steps, n);
    assert PhaseOk(states[n], r);
    assert IsChange(states[n], w) && PhaseOk(states[n], w);
  }

  // ---------------------------------------------------------------- when a 401 ends the session

  /** A session change that the request's tab has in flight. */
  predicate KnowsOf(s: State, r: int, w: int)
    requires r in s.requests
  {
    w in s.changes && w in s.requests && s.requests[w].tab == s.requests[r].tab
  }

  lemma KnowsOfSome(s: State, r: int)
    requires r in s.requests
    ensures Changing(s, s.requests[r].tab) != {} <==> exists w :: KnowsOf(s, r, w)
  {
    var changing := Changing(s, s.requests[r].tab);
    SomeMember(changing);
    forall w | KnowsOf(s, r, w) ensures w in changing {}
    if w :| w in changing { assert KnowsOf(s, r, w); }
  }

  /**
   * At a 401, an ordinary request ends the session exactly if its token is still current and its tab has
   * no session change in flight; a session change exactly if its token is still current, whatever other
   * changes are in flight; a sign-in never. A request that waited ends it exactly if its token is current.
   */
  lemma EndsExactly(s: State, r: int)
    requires r in s.requests
    ensures Take(s, Unauthorized(r)).Some? ==>
              var q := s.requests[r];
              Take(s, Unauthorized(r)).value.ended != s.ended <==>
              s.token == q.carried && !q.kind.SignsIn? && (q.kind.Ordinary? ==> !exists w :: KnowsOf(s, r, w))
    ensures Take(s, Wake(r)).Some? ==> (Take(s, Wake(r)).value.ended != s.ended <==> s.token == s.requests[r].carried)
  {
    KnowsOfSome(s, r);
    hide KnowsOf, Changing;
  }

  /** No other step ends a session. */
  lemma OnlyUnauthorizedEnds(s: State, step: Step)
    requires Take(s, step).Some? && Take(s, step).value.ended != s.ended
    ensures (step.Unauthorized? || step.Wake?) && step.r in s.requests
    ensures Take(s, step).value.ended == s.ended + [End(step.r, s.requests[step.r].carried)]
  {
  }

  /**
   * What becomes of a request whose 401 is decided: it ends the session if its token is current; otherwise it is
   * sent again with the current token, if there is one and this is its first 401; otherwise it just fails.
   */
  ghost predicate Decided(s: State, t: State, r: int)
    requires r in s.requests
  {
    var q := s.requests[r];
    if s.token == q.carried then
      t.token == None && t.ended == s.ended + [End(r, q.carried)] && t.requests == s.requests[r := q.(phase := Over)]
    else if s.token != None && !q.retried then
      t == s.(requests := s.requests[r := Request(q.tab, q.kind, s.token, true, q.sends + 1, InFlight)])
    else t == s.(requests := s.requests[r := q.(phase := Over)])
  }

  /**
   * A 401 can answer any request in flight. A sign-in just fails. An ordinary request whose token is current
   * waits for the session changes its tab has in flight, if any. Every other request is decided at once.
   */
  lemma UnauthorizedDoes(s: State, r: int)
    requires r in s.requests
    ensures Take(s, Unauthorized(r)).Some? <==> s.requests[r].phase == InFlight
    ensures s.requests[r].phase == InFlight ==>
              var q, t := s.requests[r], Take(s, Unauthorized(r)).value;
              if q.kind == SignsIn then t == s.(requests := s.requests[r := q.(phase := Over)])
              else if q.kind == Ordinary && s.token == q.carried && exists w :: KnowsOf(s, r, w) then
                t == s.(requests := t.requests) && r in t.requests && t.requests[r].phase.Waiting? &&
                t.requests == s.requests[r := q.(phase := t.requests[r].phase)] &&
                forall w :: w in t.requests[r].phase.awaited <==> KnowsOf(s, r, w)
              else Decided(s, t, r)
  {
    KnowsOfSome(s, r);
  }

  /**
   * Any other answer to a request in flight: a failure just ends it, and so does the success of a request that does
   * not change the session. A session change that succeeds holds the token to store next: a rename the one it
   * carried, a password change one the server has not given out before.
   */
  lemma AnswerDoes(s: State, r: int, newToken: int)
    requires r in s.requests && s.requests[r].phase == InFlight
    ensures var q := s.requests[r];
            Take(s, Fail(r)) == Some(s.(requests := s.requests[r := q.(phase := Over)])) &&
            match q.kind
            case Rename =>
              q.carried.Some? ==>
                Take(s, Succeed(r, newToken)) ==
                Some(s.(requests := s.requests[r := q.(phase := Answered(q.carried.value))]))
            case ChangePassword =>
              q.carried.Some? && newToken !in s.issued ==>
                Take(s, Succeed(r, newToken)) ==
                Some(s.(requests := s.requests[r := q.(phase := Answered(newToken))], issued := s.issued + {newToken}))
            case _ => Take(s, Succeed(r, newToken)) == Some(s.(requests := s.requests[r := q.(phase := Over)]))
  {
  }

  /** A waiting request is decided as soon as all it waits for is over, and not before. */
  lemma WakeDecides(s: State, r: int)
    requires r in s.requests
    ensures Take(s, Wake(r)).Some? <==>
            s.requests[r].phase.Waiting? &&
            forall w | w in s.requests[r].phase.awaited :: w in s.requests && s.requests[w].phase == Over
    ensures Take(s, Wake(r)).Some? ==> Decided(s, Take(s, Wake(r)).value, r)
  {
  }

  /** A request is sent again exactly at a 401 that is decided for it while another token is current. */
  lemma ResentExactly(s: State, step: Step, r: int)
    requires r in s.requests && Take(s, step).Some?
    ensures r in Take(s, step).value.requests
    ensures var q, q' := s.requests[r], Take(s, step).value.requests[r];
            (q'.sends != q.sends <==>
               (step == Wake(r) || (step == Unauthorized(r) && q.kind != SignsIn)) && s.token != None &&
               s.token != q.carried && !q.retried) &&
            q'.sends == (if q'.sends != q.sends then q.sends + 1 else q.sends) &&
            q'.carried == (if q'.sends != q.sends then s.token else q.carried)
  {
  }

  // ---------------------------------------------------------------- replaced tokens

  /** The current token is one that had been replaced before. */
  predicate Stale(s: State) {
    s.token.Some? && s.token.value in s.past
  }

  /** A rename's answer is stored although the token it carried gave way while it was in flight. */
  predicate OvertakenRename(s: State, step: Step) {
    step.Store? && step.r in s.requests && s.requests[step.r].kind.Rename? && s.token != s.requests[step.r].carried
  }

  ghost predicate NoneOvertaken(states: seq<State>, steps: seq<Step>, n: nat)
    requires |states| == |steps| + 1 && n <= |steps|
  {
    forall i | 0 <= i < n :: !OvertakenRename(states[i], steps[i])
  }

  /** The token a step makes current, if it does. */
  function Stored(s: State, step: Step): Option<int> {
    match step
    case SignIn(newToken) => Some(newToken)
    case Store(r) => if r in s.requests && s.requests[r].phase.Answered? then Some(s.requests[r].phase.reissued)
      else None
    case _ => None
  }

  /** A step puts a replaced token back exactly if it is such a rename's. */
  lemma GoesBackExactly(s: State, step: Step)
    requires Inv(s) && Take(s, step).Some?
    ensures OvertakenRename(s, step) <==>
            Stored(s, step).Some? && Stored(s, step).value in s.past && Stored(s, step) != s.token
  {
    if step.Store? { assert PhaseOk(s, step.r) && TokenOk(s, step.r); }
  }

  lemma StaleStep(s: State, step: Step)
    requires Inv(s) && !Stale(s) && Take(s, step).Some?
    ensures Stale(Take(s, step).value) <==> OvertakenRename(s, step)
  {
    GoesBackExactly(s, step);
  }

  ghost predicate NeverStale(states: seq<State>, n: nat)
    requires n < |states|
  {
    forall i | 0 <= i <= n :: !Stale(states[i])
  }

  /** The current token is never a replaced one exactly if no rename is overtaken. */
  lemma {:induction false} StaleOnlyIfOvertaken(states: seq<State>, steps: seq<Step>, n: nat)
    requires IsRun(states, steps) && n <= |steps|
    ensures NeverStale(states, n) <==> NoneOvertaken(states, steps, n)
  {
    hide Take, Inv, OvertakenRename, Stale;
    if n > 0 {
      StaleOnlyIfOvertaken(states, steps, n - 1);
      RunKeeps(states, steps, n - 1);
      assert Take(states[n - 1], steps[n - 1]) == Some(states[n - 1 + 1]);
      if !Stale(states[n - 1]) { StaleStep(states[n - 1], steps[n - 1]); }
    } else {
      NotStaleAtStart();
    }
  }

  lemma NotStaleAtStart()
    ensures !Stale(START)
  {
  }

  // ---------------------------------------------------------------- exactly when the promise holds

  /** The step is a 401 that ends the session although the token its request carried has been replaced. */
  predicate BreaksPromise(s: State, step: Step) {
    (step.Unauthorized? || step.Wake?) && step.r in s.requests && s.requests[step.r].carried.Some? &&
    s.requests[step.r].carried.value in s.past && Take(s, step).Some? && Take(s, step).value.ended != s.ended
  }

  /** A 401 of a request under way, or of one that is sent now, would break the promise. */
  ghost predicate CanBreak(s: State) {
    (exists step :: BreaksPromise(s, step)) ||
    exists r, tab :: r !in s.requests && BreaksPromise(Take(s, Send(r, tab, Rename)).value, Unauthorized(r))
  }

  lemma SomeUnused(s: State) returns (r: int)
    ensures r !in s.requests
  {
    r := UnusedId(s.requests.Keys);
  }

  lemma {:induction false} UnusedId(ids: set<int>) returns (r: int)
    ensures forall x | x in ids :: x < r
    decreases ids
  {
    if ids == {} { return 0; }
    SomeMember(ids);
    var x :| x in ids;
    var rest := UnusedId(ids - {x});
    r := if x < rest then rest else x + 1;
    forall y | y in ids ensures y < r { if y != x { assert y in ids - {x}; } }
  }

  /** The promise can be broken exactly if the current token is a replaced one. */
  lemma BreaksExactlyIfStale(s: State)
    ensures CanBreak(s) <==> Stale(s)
  {
    forall step | BreaksPromise(s, step) ensures Stale(s) { EndsExactly(s, step.r); }
    forall r, tab | r !in s.requests && BreaksPromise(Take(s, Send(r, tab, Rename)).value, Unauthorized(r))
      ensures Stale(s)
    {
      EndsExactly(Take(s, Send(r, tab, Rename)).value, r);
    }
    var r := SomeUnused(s);
    if Stale(s) { assert BreaksPromise(Take(s, Send(r, 0, Rename)).value, Unauthorized(r)); }
  }

  /** With no change of its own in flight, a tab's ordinary request breaks the promise just as well. */
  lemma OrdinaryBreaksExactlyIfStale(s: State, r: int, tab: int)
    requires Inv(s) && r !in s.requests && Changing(s, tab) == {}
    ensures BreaksPromise(Take(s, Send(r, tab, Ordinary)).value, Unauthorized(r)) <==> Stale(s)
  {
    var sent := Take(s, Send(r, tab, Ordinary)).value;
    assert Changing(sent, tab) == {} by {
      forall w | w in s.changes ensures w in s.requests && s.requests[w].tab != tab {
        assert IsChange(s, w);
        assert w !in Changing(s, tab);
      }
    }
  }

  /**
   * In every run: up to any moment the promise could never be broken, exactly if no rename was overtaken,
   * that is, stored its answer after the token it carried had given way.
   */
  lemma PromiseHoldsExactly(states: seq<State>, steps: seq<Step>, n: nat)
    requires IsRun(states, steps) && n <= |steps|
    ensures (forall i | 0 <= i <= n :: !CanBreak(states[i])) <==> NoneOvertaken(states, steps, n)
  {
    hide CanBreak, NoneOvertaken, Stale;
    StaleOnlyIfOvertaken(states, steps, n);
    forall i | 0 <= i <= n ensures CanBreak(states[i]) <==> Stale(states[i]) { BreaksExactlyIfStale(states[i]); }
  }

  /** In a run without overtaken renames, no 401 ends the session over a replaced token. */
  lemma ReplacedTokenKeepsSession(states: seq<State>, steps: seq<Step>, n: nat, r: int)
    requires IsRun(states, steps) && n < |steps| && NoneOvertaken(states, steps, n)
    requires (steps[n] == Unauthorized(r) || steps[n] == Wake(r)) && r in states[n].requests
    requires states[n].requests[r].carried.Some? && states[n].requests[r].carried.value in states[n].past
    ensures states[n + 1].ended == states[n].ended
  {
    StaleOnlyIfOvertaken(states, steps, n);
    assert Take(states[n], steps[n]) == Some(states[n + 1]);
    assert !Stale(states[n]);
  }

  // ---------------------------------------------------------------- one session change at a time

  /** No session change is under way, and no request waits for one. */
  ghost predicate Idle(s: State) {
    forall r | r in s.requests ::
      !s.requests[r].phase.Waiting? && (s.requests[r].kind.ChangesSession() ==> s.requests[r].phase.Over?)
  }

  /** All requests come from one tab, which changes its session, signs in and signs out only when idle. */
  ghost predicate OneAtATime(s: State, step: Step, tab: int) {
    (step.Send? ==> step.tab == tab) &&
    (step.SignIn? || step.SignOut? || (step.Send? && step.kind.ChangesSession()) ==> Idle(s))
  }

  /** A session change under way is the only one, carries the current token, and every waiting request awaits it. */
  ghost predicate Alone(s: State, tab: int) {
    (forall r | r in s.requests :: s.requests[r].tab == tab) &&
    forall w | IsChange(s, w) && !s.requests[w].phase.Over? ::
      s.requests[w].carried == s.token && forall r | r in s.requests && r != w ::
        (s.requests[r].kind.ChangesSession() ==> s.requests[r].phase.Over?) &&
        (s.requests[r].phase.Waiting? ==> w in s.requests[r].phase.awaited)
  }

  lemma AloneCarriesCurrent(s: State, step: Step, tab: int, w: int)
    requires Inv(s) && Alone(s, tab) && Take(s, step).Some? && OneAtATime(s, step, tab)
    requires IsChange(Take(s, step).value, w) && !Take(s, step).value.requests[w].phase.Over?
    ensures Take(s, step).value.requests[w].carried == Take(s, step).value.token
  {
    hide TokenOk;
    if w in s.requests {
      assert PhaseOk(s, w);
      assert !s.requests[w].phase.Over? ==> w in Changing(s, tab);
    }
    if step.Unauthorized? || step.Wake? { assert PhaseOk(s, step.r); }
  }

  lemma AloneAmongOthers(s: State, step: Step, tab: int, w: int, r: int)
    requires Inv(s) && Alone(s, tab) && Take(s, step).Some? && OneAtATime(s, step, tab)
    requires IsChange(Take(s, step).value, w) && !Take(s, step).value.requests[w].phase.Over?
    requires r in Take(s, step).value.requests && r != w
    ensures var q := Take(s, step).value.requests[r];
            (q.kind.ChangesSession() ==> q.phase.Over?) && (q.phase.Waiting? ==> w in q.phase.awaited)
  {
    hide TokenOk;
    if w in s.requests {
      assert PhaseOk(s, w);
      assert !s.requests[w].phase.Over? ==> w in Changing(s, tab);
    }
  }

  lemma AloneStep(s: State, step: Step, tab: int)
    requires Inv(s) && Alone(s, tab) && Take(s, step).Some? && OneAtATime(s, step, tab)
    ensures Alone(Take(s, step).value, tab) && !OvertakenRename(s, step)
  {
    hide TokenOk, PhaseOk;
    var t := Take(s, step).value;
    assert forall r | r in t.requests :: t.requests[r].tab == tab;
    assert !OvertakenRename(s, step);
    hide Take;
    forall w | IsChange(t, w) && !t.requests[w].phase.Over?
      ensures t.requests[w].carried == t.token
      ensures forall r | r in t.requests && r != w ::
                (t.requests[r].kind.ChangesSession() ==> t.requests[r].phase.Over?) &&
                (t.requests[r].phase.Waiting? ==> w in t.requests[r].phase.awaited)
    {
      AloneCarriesCurrent(s, step, tab, w);
      forall r | r in t.requests && r != w
        ensures t.requests[r].kind.ChangesSession() ==> t.requests[r].phase.Over?
        ensures t.requests[r].phase.Waiting? ==> w in t.requests[r].phase.awaited
      {
        AloneAmongOthers(s, step, tab, w, r);
      }
    }
  }

  /** Hence a tab that makes one session change at a time never puts a replaced token back. */
  lemma {:induction false} OneAtATimeNeverOvertakes(states: seq<State>, steps: seq<Step>, n: nat, tab: int)
    requires IsRun(states, steps) && n <= |steps|
    requires forall i | 0 <= i < n :: OneAtATime(states[i], steps[i], tab)
    ensures Alone(states[n], tab) && NoneOvertaken(states, steps, n)
  {
    hide Take, Inv, Alone, OneAtATime, OvertakenRename;
    if n > 0 {
      OneAtATimeNeverOvertakes(states, steps, n - 1, tab);
      RunKeeps(states, steps, n - 1);
      assert Take(states[n - 1], steps[n - 1]) == Some(states[n - 1 + 1]);
      AloneStep(states[n - 1], steps[n - 1], tab);
    } else {
      NobodyAtStart(tab);
    }
  }

  lemma NobodyAtStart(tab: int)
    ensures Alone(START, tab)
  {
  }

  // ---------------------------------------------------------------- a change in flight at the 401

  /** Over is final, and a waiting request stays as it is until it wakes. */
  lemma StepKeepsRequest(s: State, step: Step, r: int)
    requires Take(s, step).Some? && r in s.requests
    ensures var t := Take(s, step).value;
            r in t.requests && (s.requests[r].phase.Over? ==> t.requests[r].phase.Over?) &&
            (s.requests[r].phase.Waiting? && step != Wake(r) ==> t.requests[r] == s.requests[r])
  {
  }

  lemma {:induction false} OverIsFinal(states: seq<State>, steps: seq<Step>, m: nat, n: nat, w: int)
    requires IsRun(states, steps) && m <= n <= |steps| && w in states[m].requests && states[m].requests[w].phase.Over?
    ensures w in states[n].requests && states[n].requests[w].phase.Over?
  {
    hide Take;
    if m < n {
      OverIsFinal(states, steps, m, n - 1, w);
      assert Take(states[n - 1], steps[n - 1]) == Some(states[n - 1 + 1]);
      StepKeepsRequest(states[n - 1], steps[n - 1], w);
    }
  }

  lemma {:induction false} KeepsWaiting(states: seq<State>, steps: seq<Step>, m: nat, n: nat, r: int)
    requires IsRun(states, steps) && m <= n <= |steps| && r in states[m].requests &&
             states[m].requests[r].phase.Waiting?
    requires forall k | m <= k < n :: steps[k] != Wake(r)
    ensures r in states[n].requests && states[n].requests[r] == states[m].requests[r]
  {
    hide Take;
    if m < n {
      KeepsWaiting(states, steps, m, n - 1, r);
      assert Take(states[n - 1], steps[n - 1]) == Some(states[n - 1 + 1]);
      StepKeepsRequest(states[n - 1], steps[n - 1], r);
    }
  }

  lemma StepKeepsPast(s: State, step: Step, token: int)
    requires Take(s, step).Some?
    ensures var t := Take(s, step).value;
            s.past <= t.past && (s.token == Some(token) && t.token != Some(token) ==> token in t.past)
  {
  }

  /** Once a token has been current, it is either still current or replaced. */
  lemma {:induction false} CurrentOrReplaced(states: seq<State>, steps: seq<Step>, m: nat, n: nat, token: int)
    requires IsRun(states, steps) && m <= n <= |steps| && (states[m].token == Some(token) || token in states[m].past)
    ensures states[n].token == Some(token) || token in states[n].past
    ensures token in states[m].past ==> token in states[n].past
  {
    hide Take;
    if m < n {
      CurrentOrReplaced(states, steps, m, n - 1, token);
      assert Take(states[n - 1], steps[n - 1]) == Some(states[n - 1 + 1]);
      StepKeepsPast(states[n - 1], steps[n - 1], token);
    }
  }

  /** The 401 of an ordinary request for the current token waits for the changes its tab has in flight. */
  lemma UnauthorizedWaits(s: State, r: int)
    requires Take(s, Unauthorized(r)).Some? && s.requests[r].kind.Ordinary? && s.token == s.requests[r].carried
    requires Changing(s, s.requests[r].tab) != {}
    ensures var t := Take(s, Unauthorized(r)).value;
            t.ended == s.ended && t.requests[r] == s.requests[r].(phase := Waiting(Changing(s, s.requests[r].tab)))
  {
  }

  /**
   * An ordinary request's 401 at step i waits for a session change w that its tab has in flight, and wakes at
   * step n. If w succeeds with another token, w stored it before, and the wake ends the session exactly if
   * the request's token was put back meanwhile: never, if no rename was overtaken.
   */
  lemma ChangeInFlightKeepsSession(
    states: seq<State>, steps: seq<Step>, i: nat, j: nat, n: nat, r: int, w: int, token: int)
    requires IsRun(states, steps) && i < j < |steps| && i < n < |steps|
    requires steps[i] == Unauthorized(r) && r in states[i].requests && states[i].requests[r].kind.Ordinary?
    requires states[i].requests[r].carried == Some(token) && states[i].token == Some(token)
    requires w in Changing(states[i], states[i].requests[r].tab)
    requires steps[j] == Store(w) && Stored(states[j], steps[j]).Some? && Stored(states[j], steps[j]) != Some(token)
    requires steps[n] == Wake(r) && forall k | i < k < n :: steps[k] != Wake(r)
    ensures states[i + 1].ended == states[i].ended && j < n && token in states[n].past
    ensures states[n + 1].ended != states[n].ended <==> states[n].token == Some(token)
    ensures NoneOvertaken(states, steps, n) ==> states[n + 1].ended == states[n].ended
  {
    hide NoneOvertaken, Decide, Inv;
    assert Take(states[i], steps[i]) == Some(states[i + 1]);
    UnauthorizedWaits(states[i], r);
    KeepsWaiting(states, steps, i + 1, n, r);
    assert Take(states[n], steps[n]) == Some(states[n + 1]);
    assert Take(states[j], steps[j]) == Some(states[j + 1]);
    assert Settled(states[n], Changing(states[i], states[i].requests[r].tab));
    if n <= j { OverIsFinal(states, steps, n, j, w); }
    CurrentOrReplaced(states, steps, i, j + 1, token);
    assert states[j + 1].token != Some(token);
    CurrentOrReplaced(states, steps, j + 1, n, token);
    EndsExactly(states[n], r);
    if NoneOvertaken(states, steps, n) { ReplacedTokenKeepsSession(states, steps, n, r); }
  }

  // ---------------------------------------------------------------- when it fails

  lemma Extend(states: seq<State>, steps: seq<Step>, step: Step, next: State)
    returns (states': seq<State>, steps': seq<Step>)
    requires |states| == |steps| + 1 && IsRun(states, steps) && Take(states[|steps|], step) == Some(next)
    ensures |states'| == |steps'| + 1 && IsRun(states', steps') && states'[|steps'|] == next && steps' == steps + [step]
    ensures forall i | 0 <= i < |states| :: states'[i] == states[i]
  {
    states', steps' := states + [next], steps + [step];
  }

  function Sent(kind: Kind, phase: Phase): Request {
    Request(0, kind, Some(10), false, 1, phase)
  }

  /** In one tab, a rename (1), a password change (2) and a request (3) were sent with token 10. */
  function ThreeSent(): State {
    State(Some(10),
          map[1 := Sent(Rename, InFlight), 2 := Sent(ChangePassword, InFlight), 3 := Sent(Ordinary, InFlight)],
          {1, 2}, {10}, {}, [])
  }

  lemma ThreeAreSent() returns (states: seq<State>, steps: seq<Step>)
    ensures |states| == |steps| + 1 && IsRun(states, steps) && states[|steps|] == ThreeSent()
  {
    states, steps := [START], [];
    assert IsRun(states, steps);
    hide IsRun;
    var s1 := Take(START, SignIn(10)).value;
    states, steps := Extend(states, steps, SignIn(10), s1);
    var s2 := Take(s1, Send(1, 0, Rename)).value;
    states, steps := Extend(states, steps, Send(1, 0, Rename), s2);
    var s3 := Take(s2, Send(2, 0, ChangePassword)).value;
    states, steps := Extend(states, steps, Send(2, 0, ChangePassword), s3);
    var s4 := Take(s3, Send(3, 0, Ordinary)).value;
    states, steps := Extend(states, steps, Send(3, 0, Ordinary), s4);
    assert s4.requests == ThreeSent().requests && s4.changes == {1, 2} && s4.issued == {10};
  }

  /** The password change stored token 20 while the rename is still in flight. */
  function PasswordChanged(): State {
    State(Some(20), map[1 := Sent(Rename, InFlight), 2 := Sent(ChangePassword, Over), 3 := Sent(Ordinary, InFlight)],
          {1, 2}, {10, 20}, {10}, [])
  }

  lemma PasswordChangeOvertakes() returns (states: seq<State>, steps: seq<Step>)
    ensures |states| == |steps| + 1 && IsRun(states, steps) && states[|steps|] == PasswordChanged()
  {
    states, steps := ThreeAreSent();
    hide IsRun;
    var s5 := Take(ThreeSent(), Succeed(2, 20)).value;
    states, steps := Extend(states, steps, Succeed(2, 20), s5);
    var s6 := Take(s5, Store(2)).value;
    states, steps := Extend(states, steps, Store(2), s6);
    assert s6.requests == PasswordChanged().requests && s6.issued == {10, 20} && s6.past == {10};
  }

  /**
   * A replaced token can end the session: the rename's answer, which re-issues the token it carried, is stored
   * after the password change's; then the 401 of the request sent with that token signs the user out.
   */
  lemma SlowRenameEndsSession() returns (states: seq<State>, steps: seq<Step>)
    ensures |states| == |steps| + 1 && IsRun(states, steps) && steps != []
    ensures steps[|steps| - 1] == Unauthorized(3) && BreaksPromise(states[|steps| - 1], Unauthorized(3))
  {
    states, steps := PasswordChangeOvertakes();
    hide IsRun;
    var s7 := Take(PasswordChanged(), Succeed(1, 0)).value;
    states, steps := Extend(states, steps, Succeed(1, 0), s7);
    var s8 := Take(s7, Store(1)).value;
    states, steps := Extend(states, steps, Store(1), s8);
    var s9 := Take(s8, Forget(1)).value;
    states, steps := Extend(states, steps, Forget(1), s9);
    var s10 := Take(s9, Forget(2)).value;
    states, steps := Extend(states, steps, Forget(2), s10);
    assert Changing(s10, 0) == {};
    var s11 := Take(s10, Unauthorized(3)).value;
    states, steps := Extend(states, steps, Unauthorized(3), s11);
  }

  /**
   * A session change does not wait for others: the rename's 401 signs the user out although the password
   * change has succeeded, and its new token is stored right afterwards.
   */
  lemma RenameEndsSessionDuringPasswordChange() returns (states: seq<State>, steps: seq<Step>)
    ensures |states| == |steps| + 1 && |steps| >= 2 && IsRun(states, steps) && steps[|steps| - 2] == Unauthorized(1)
    ensures var before, ended, after := states[|steps| - 2], states[|steps| - 1], states[|steps|];
            Pending(before, 2) && ended.ended == before.ended + [End(1, Some(10))] && ended.token == None &&
            after.token == Some(20)
  {
    states, steps := ThreeAreSent();
    hide IsRun;
    var s5 := Take(ThreeSent(), Succeed(2, 20)).value;
    states, steps := Extend(states, steps, Succeed(2, 20), s5);
    var s6 := Take(s5, Unauthorized(1)).value;
    states, steps := Extend(states, steps, Unauthorized(1), s6);
    var s7 := Take(s6, Store(2)).value;
    states, steps := Extend(states, steps, Store(2), s7);
  }
}
