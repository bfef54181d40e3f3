/**
 * The project-lock protocol. A transaction checks its caller's access, waits for the project's row
 * lock, checks again under the lock, works on a private copy and commits or rolls back, while other
 * clients take their own steps in between. What the rows are and what operations do to them is given.
 */
module LockProtocol {
  import opened Wrappers

  /**
   * isNew says which rows a creator's new project has, authorized whether a caller may do an operation,
   * and perform what it does to the project's rows; None when it deletes the project.
   */
  datatype Rules<!P, !O, !E> = Rules(
    isNew: (int, P) -> bool, authorized: (P, int, O) -> bool, perform: (P, O) -> Result<Option<P>, E>)

  // ---------------------------------------------------------------- transactions in progress

  datatype Phase<P> =
    | Waiting                         // access checked, waiting for the lock
    | Locked                          // lock taken, nothing read under it yet
    | Rechecked                       // the caller's role was found sufficient under the lock
    | Written(outcome: Option<P>)     // what the commit will install

  datatype Txn<P, O> = Txn(caller: int, project: int, op: O, phase: Phase<P>)

  datatype Entry<P, O> = Created(creator: int, first: P) | Changed(caller: int, project: int, op: O)

  /** log lists the commits, oldest first. Project ids are never reused. */
  datatype State<P, O> = State(
    projects: map<int, P>, lastProject: int, locks: map<int, int>, txns: map<int, Txn<P, O>>, log: seq<Entry<P, O>>)

  datatype Step<P, O> =
    | Create(creator: int, first: P)
    | Begin(t: int, caller: int, project: int, op: O)
    | Acquire(t: int)
    | Recheck(t: int)
    | Write(t: int)
    | Commit(t: int)
    | Abort(t: int)

  function Install<P>(projects: map<int, P>, id: int, outcome: Option<P>): map<int, P> {
    match outcome
    case Some(p) => projects[id := p]
    case None => projects - {id}
  }

  /** The transaction ends and lets go of the lock it may hold. */
  function End<P, O>(s: State<P, O>, t: int): State<P, O>
    requires t in s.txns
  {
    var p := s.txns[t].project;
    s.(txns := s.txns - {t}, locks := if p in s.locks && s.locks[p] == t then s.locks - {p} else s.locks)
  }

  function Advance<P, O>(s: State<P, O>, t: int, phase: Phase<P>): State<P, O>
    requires t in s.txns
  {
    s.(txns := s.txns[t := s.txns[t].(phase := phase)])
  }

  predicate Allowed<P, O, E>(rules: Rules<P, O, E>, projects: map<int, P>, project: int, caller: int, op: O) {
    project in projects && rules.authorized(projects[project], caller, op)
  }

  /** The state after a step, or None when the step cannot be taken. A failed check ends the transaction. */
  function Take<P, O, E>(rules: Rules<P, O, E>, s: State<P, O>, step: Step<P, O>): Option<State<P, O>> {
    match step
    case Create(creator, first) =>
      if !rules.isNew(creator, first) then None
      else Some(s.(projects := s.projects[s.lastProject + 1 := first], lastProject := s.lastProject + 1,
                   log := s.log + [Created(creator, first)]))
    case Begin(t, caller, project, op) =>
      if t in s.txns || !Allowed(rules, s.projects, project, caller, op) then None
      else Some(s.(txns := s.txns[t := Txn(caller, project, op, Waiting)]))
    case Acquire(t) =>
      if t !in s.txns || !s.txns[t].phase.Waiting? || s.txns[t].project in s.locks then None
      else if s.txns[t].project !in s.projects then Some(End(s, t))
      else Some(Advance(s, t, Locked).(locks := s.locks[s.txns[t].project := t]))
    case Recheck(t) =>
      if t !in s.txns || !s.txns[t].phase.Locked? then None
      else if Allowed(rules, s.projects, s.txns[t].project, s.txns[t].caller, s.txns[t].op)
        then Some(Advance(s, t, Rechecked))
      else Some(End(s, t))
    case Write(t) =>
      if t !in s.txns || !s.txns[t].phase.Rechecked? || s.txns[t].project !in s.projects then None
      else
        var outcome := rules.perform(s.projects[s.txns[t].project], s.txns[t].op);
        if outcome.Ok? then Some(Advance(s, t, Written(outcome.value))) else Some(End(s, t))
    case Commit(t) =>
      if t !in s.txns || !s.txns[t].phase.Written? then None
      else
        var Txn(caller, project, op, phase) := s.txns[t];
        Some(End(s, t).(projects := Install(s.projects, project, phase.outcome),
                        log := s.log + [Changed(caller, project, op)]))
    case Abort(t) => if t !in s.txns then None else Some(End(s, t))
  }

  // ---------------------------------------------------------------- one at a time

  /** The projects and the last id used, as one client at a time would leave them. */
  datatype Serial<P> = Serial(projects: map<int, P>, lastProject: int)

  /** A commit replayed alone: what perform answers is what the project becomes. None if it would be refused. */
  function Replay<P, O, E>(rules: Rules<P, O, E>, s: Serial<P>, e: Entry<P, O>): Option<Serial<P>> {
    match e
    case Created(creator, first) =>
      if !rules.isNew(creator, first) then None
      else Some(Serial(s.projects[s.lastProject + 1 := first], s.lastProject + 1))
    case Changed(caller, project, op) =>
      if !Allowed(rules, s.projects, project, caller, op) then None
      else
        match rules.perform(s.projects[project], op)
        case Err(_) => None
        case Ok(None) => Some(s.(projects := s.projects - {project}))
        case Ok(Some(p)) => Some(s.(projects := s.projects[project := p]))
  }

  function ReplayAll<P, O, E>(rules: Rules<P, O, E>, log: seq<Entry<P, O>>): Option<Serial<P>>
    decreases log
  {
    if log == [] then Some(Serial(map[], 0))
    else
      var before := ReplayAll(rules, log[..|log| - 1]);
      if before.None? then None else Replay(rules, before.value, log[|log| - 1])
  }

  // ---------------------------------------------------------------- what the lock protects

  /** What a transaction has read is still so: nobody else can change its project while it holds the lock. */
  ghost predicate TxnOk<P, O, E>(rules: Rules<P, O, E>, s: State<P, O>, t: int)
    requires t in s.txns
  {
    var Txn(caller, project, op, phase) := s.txns[t];
    phase.Waiting? ||
    (project in s.locks && s.locks[project] == t && project in s.projects &&
     (!phase.Locked? ==> rules.authorized(s.projects[project], caller, op)) &&
     (phase.Written? ==> rules.perform(s.projects[project], op) == Ok(phase.outcome)))
  }

  ghost predicate LocksOk<P, O>(s: State<P, O>) {
    forall p | p in s.locks ::
      s.locks[p] in s.txns && s.txns[s.locks[p]].project == p && !s.txns[s.locks[p]].phase.Waiting?
  }

  ghost predicate Inv<P, O, E>(rules: Rules<P, O, E>, s: State<P, O>) {
    LocksOk(s) && (forall t | t in s.txns :: TxnOk(rules, s, t)) &&
    (forall p | p in s.projects :: p <= s.lastProject) &&
    ReplayAll(rules, s.log) == Some(Serial(s.projects, s.lastProject))
  }

  lemma ReplayExtends<P, O, E>(rules: Rules<P, O, E>, log: seq<Entry<P, O>>, e: Entry<P, O>, s: Serial<P>, r: Serial<P>)
    requires ReplayAll(rules, log) == Some(s) && Replay(rules, s, e) == Some(r)
    ensures ReplayAll(rules, log + [e]) == Some(r)
  {
    assert (log + [e])[..|log|] == log;
  }

  lemma EndKeeps<P, O, E>(rules: Rules<P, O, E>, s: State<P, O>, t: int)
    requires LocksOk(s) && (forall x | x in s.txns :: TxnOk(rules, s, x)) && t in s.txns
    ensures LocksOk(End(s, t)) && forall x | x in End(s, t).txns :: TxnOk(rules, End(s, t), x)
  {
    var r := End(s, t);
    forall x | x in r.txns ensures TxnOk(rules, r, x) { assert TxnOk(rules, s, x); }
    assert TxnOk(rules, s, t);
  }

  lemma CommitKeeps<P, O, E>(rules: Rules<P, O, E>, s: State<P, O>, t: int)
    requires Inv(rules, s) && Take(rules, s, Commit(t)).Some?
    ensures Inv(rules, Take(rules, s, Commit(t)).value)
  {
    hide ReplayAll;
    var Txn(caller, project, op, phase) := s.txns[t];
    var r, e := Take(rules, s, Commit(t)).value, Changed(caller, project, op);
    EndKeeps(rules, s, t);
    assert TxnOk(rules, s, t);
    forall x | x in r.txns ensures TxnOk(rules, r, x) { assert TxnOk(rules, End(s, t), x); assert TxnOk(rules, s, x); }
    ReplayExtends(rules, s.log, e, Serial(s.projects, s.lastProject), Serial(r.projects, r.lastProject));
  }

  lemma StepKeeps<P, O, E>(rules: Rules<P, O, E>, s: State<P, O>, step: Step<P, O>)
    requires Inv(rules, s) && Take(rules, s, step).Some?
    ensures Inv(rules, Take(rules, s, step).value)
  {
    hide ReplayAll;
    var r := Take(rules, s, step).value;
    match step
    case Create(creator, first) =>
      ReplayExtends(rules, s.log, Created(creator, first), Serial(s.projects, s.lastProject),
                    Serial(r.projects, r.lastProject));
      forall x | x in r.txns ensures TxnOk(rules, r, x) { assert TxnOk(rules, s, x); }
    case Commit(t) => CommitKeeps(rules, s, t);
    case Begin(t, _, _, _) =>
      forall x | x in r.txns ensures TxnOk(rules, r, x) { if x != t { assert TxnOk(rules, s, x); } }
    case Acquire(t) =>
      EndKeeps(rules, s, t);
      forall x | x in r.txns ensures TxnOk(rules, r, x) { assert TxnOk(rules, s, x); }
    case Recheck(t) =>
      EndKeeps(rules, s, t);
      assert TxnOk(rules, s, t);
      forall x | x in r.txns ensures TxnOk(rules, r, x) { assert TxnOk(rules, s, x); }
    case Write(t) =>
      EndKeeps(rules, s, t);
      assert TxnOk(rules, s, t);
      forall x | x in r.txns ensures TxnOk(rules, r, x) { assert TxnOk(rules, s, x); }
    case Abort(t) => EndKeeps(rules, s, t);
  }

  // ---------------------------------------------------------------- every interleaving

  ghost predicate IsRun<P, O, E>(rules: Rules<P, O, E>, states: seq<State<P, O>>, steps: seq<Step<P, O>>) {
    |states| == |steps| + 1 && states[0] == State(map[], 0, map[], map[], []) &&
    forall i | 0 <= i < |steps| :: Take(rules, states[i], steps[i]) == Some(states[i + 1])
  }

  lemma {:induction false} RunKeeps<P, O, E>(
    rules: Rules<P, O, E>, states: seq<State<P, O>>, steps: seq<Step<P, O>>, n: nat)
    requires IsRun(rules, states, steps) && n <= |steps|
    ensures Inv(rules, states[n])
    decreases n
  {
    hide Take, Inv;
    if n > 0 {
      RunKeeps(rules, states, steps, n - 1);
      assert Take(rules, states[n - 1], steps[n - 1]) == Some(states[n - 1 + 1]);
      StepKeeps(rules, states[n - 1], steps[n - 1]);
    } else {
      StartIsOk(rules, states[0]);
    }
  }

  lemma StartIsOk<P, O, E>(rules: Rules<P, O, E>, s: State<P, O>)
    requires s == State(map[], 0, map[], map[], [])
    ensures Inv(rules, s)
  {
  }

  /**
   * Every interleaving is equivalent to its commits run one after the other: each of them would be
   * authorised and succeed alone, and the projects end up the same.
   */
  lemma CommitsAreSerial<P, O, E>(rules: Rules<P, O, E>, states: seq<State<P, O>>, steps: seq<Step<P, O>>, n: nat)
    requires IsRun(rules, states, steps) && n <= |steps|
    ensures ReplayAll(rules, states[n].log) == Some(Serial(states[n].projects, states[n].lastProject))
  {
    RunKeeps(rules, states, steps, n);
  }

  /** At the moment of a commit its caller may do the operation, and the operation does what it installs. */
  lemma CommitIsAuthorized<P, O, E>(
    rules: Rules<P, O, E>, states: seq<State<P, O>>, steps: seq<Step<P, O>>, n: nat, t: int)
    requires IsRun(rules, states, steps) && n < |steps| && steps[n] == Commit(t)
    ensures t in states[n].txns && states[n].txns[t].phase.Written?
    ensures var q := states[n].txns[t];
            Allowed(rules, states[n].projects, q.project, q.caller, q.op) &&
            rules.perform(states[n].projects[q.project], q.op) == Ok(q.phase.outcome)
  {
    RunKeeps(rules, states, steps, n);
    assert Take(rules, states[n], steps[n]) == Some(states[n + 1]);
    assert TxnOk(rules, states[n], t);
  }

  // ---------------------------------------------------------------- what commits do to the rows

  /** Project p holds the rows r, or is gone. */
  predicate Holds<P(==)>(projects: map<int, P>, p: int, r: Option<P>) {
    match r
    case Some(rows) => p in projects && projects[p] == rows
    case None => p !in projects
  }

  /** All projects but p are in both states, or in neither, with the same rows. */
  ghost predicate SameButFor<P>(a: map<int, P>, b: map<int, P>, p: int) {
    forall x | x != p :: (x in b <==> x in a) && (x in a ==> b[x] == a[x])
  }

  /**
   * After a commit the project holds exactly what the operation makes of its rows as they were at that moment, or
   * is gone if the operation deletes it; no other project's rows change, and the commit is logged.
   */
  lemma CommitTakesEffect<P, O, E>(
    rules: Rules<P, O, E>, states: seq<State<P, O>>, steps: seq<Step<P, O>>, n: nat, t: int)
    requires IsRun(rules, states, steps) && n < |steps| && steps[n] == Commit(t)
    ensures t in states[n].txns && states[n].txns[t].project in states[n].projects
    ensures var q := states[n].txns[t];
            var outcome := rules.perform(states[n].projects[q.project], q.op);
            outcome.Ok? && Holds(states[n + 1].projects, q.project, outcome.value) &&
            SameButFor(states[n].projects, states[n + 1].projects, q.project) &&
            states[n + 1].log == states[n].log + [Changed(q.caller, q.project, q.op)]
  {
    CommitIsAuthorized(rules, states, steps, n, t);
    assert Take(rules, states[n], steps[n]) == Some(states[n + 1]);
  }

  /** Only commits change rows: any other step leaves all of them alone, but for a new project's. */
  lemma OnlyCommitsChangeRows<P, O, E>(
    rules: Rules<P, O, E>, states: seq<State<P, O>>, steps: seq<Step<P, O>>, n: nat)
    requires IsRun(rules, states, steps) && n < |steps| && !steps[n].Commit?
    ensures if steps[n].Create?
            then var p := states[n].lastProject + 1;
                 p !in states[n].projects && Holds(states[n + 1].projects, p, Some(steps[n].first)) &&
                 SameButFor(states[n].projects, states[n + 1].projects, p) &&
                 rules.isNew(steps[n].creator, steps[n].first)
            else states[n + 1].projects == states[n].projects && states[n + 1].log == states[n].log
  {
    RunKeeps(rules, states, steps, n);
    assert Take(rules, states[n], steps[n]) == Some(states[n + 1]);
  }

  /** Anybody can create a project at any time, with the rows of a new one. */
  lemma CreatesExactly<P, O, E>(rules: Rules<P, O, E>, s: State<P, O>, creator: int, first: P)
    ensures Take(rules, s, Create(creator, first)).Some? <==> rules.isNew(creator, first)
  {
  }

  /** A transaction can be given up at any time: nothing it did is seen, and it holds no lock any more. */
  lemma AbortLeavesNothing<P, O, E>(rules: Rules<P, O, E>, s: State<P, O>, t: int)
    requires Inv(rules, s) && t in s.txns
    ensures Take(rules, s, Abort(t)).Some? &&
            var r := Take(rules, s, Abort(t)).value;
            r == s.(txns := s.txns - {t}, locks := r.locks) &&
            forall p :: p in r.locks <==> p in s.locks && s.locks[p] != t
  {
    hide ReplayAll;
    assert TxnOk(rules, s, t);
  }

  /** A transaction begins exactly if its caller may do the operation, whatever others are doing. */
  lemma BeginsExactly<P, O, E>(rules: Rules<P, O, E>, s: State<P, O>, t: int, caller: int, project: int, op: O)
    requires t !in s.txns
    ensures Take(rules, s, Begin(t, caller, project, op)).Some? <==>
            project in s.projects && rules.authorized(s.projects[project], caller, op)
  {
  }

  /**
   * An authorised transaction on a project nobody has locked, with nobody in between, gets through: if the
   * operation succeeds on the rows it commits it, and if it fails it ends with the rows and the log as they were.
   */
  lemma AloneSucceeds<P, O, E>(rules: Rules<P, O, E>, s: State<P, O>, t: int, caller: int, project: int, op: O)
    requires t !in s.txns && project in s.projects && project !in s.locks
    requires rules.authorized(s.projects[project], caller, op)
    ensures var s1 := Take(rules, s, Begin(t, caller, project, op));
            s1.Some? &&
            var s2 := Take(rules, s1.value, Acquire(t));
            s2.Some? &&
            var s3 := Take(rules, s2.value, Recheck(t));
            s3.Some? &&
            var s4 := Take(rules, s3.value, Write(t));
            s4.Some? &&
            match rules.perform(s.projects[project], op)
            case Err(_) => s4.value == s
            case Ok(outcome) =>
              var s5 := Take(rules, s4.value, Commit(t));
              s5.Some? && Holds(s5.value.projects, project, outcome) &&
              SameButFor(s.projects, s5.value.projects, project) &&
              s5.value == s.(projects := s5.value.projects, log := s.log + [Changed(caller, project, op)])
  {
    var s1 := Take(rules, s, Begin(t, caller, project, op)).value;
    var s2 := Take(rules, s1, Acquire(t)).value;
    var s3 := Take(rules, s2, Recheck(t)).value;
    var s4 := Take(rules, s3, Write(t)).value;
    assert s3.txns - {t} == s.txns && s3.locks - {project} == s.locks;
    assert s4.txns - {t} == s.txns && s4.locks - {project} == s.locks;
  }

  // ---------------------------------------------------------------- invariants of the rows

  /** New rows are ok, and no operation spoils them. */
  ghost predicate Preserved<P(!new), O(!new), E>(rules: Rules<P, O, E>, ok: P -> bool) {
    (forall c, p :: rules.isNew(c, p) ==> ok(p)) &&
    forall p, o :: ok(p) && rules.perform(p, o).Ok? && rules.perform(p, o).value.Some? ==>
      ok(rules.perform(p, o).value.value)
  }

  lemma {:induction false} ReplayPreserves<P(!new), O(!new), E>(
    rules: Rules<P, O, E>, ok: P -> bool, log: seq<Entry<P, O>>)
    requires Preserved(rules, ok) && ReplayAll(rules, log).Some?
    ensures forall p | p in ReplayAll(rules, log).value.projects :: ok(ReplayAll(rules, log).value.projects[p])
    decreases log
  {
    if log != [] {
      ReplayPreserves(rules, ok, log[..|log| - 1]);
    }
  }

  /** What new rows satisfy and every operation alone preserves holds of all projects in every interleaving. */
  lemma RowsStayOk<P(!new), O(!new), E>(
    rules: Rules<P, O, E>, ok: P -> bool, states: seq<State<P, O>>, steps: seq<Step<P, O>>, n: nat, p: int)
    requires Preserved(rules, ok) && IsRun(rules, states, steps) && n <= |steps| && p in states[n].projects
    ensures ok(states[n].projects[p])
  {
    CommitsAreSerial(rules, states, steps, n);
    ReplayPreserves(rules, ok, states[n].log);
  }
}
