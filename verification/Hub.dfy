/** The realtime hub: subscriptions per project, with publishers that send and drop in two locked phases. */
module Hub {
  import opened Wrappers

  // ---------------------------------------------------------------- state

  datatype Event = Event(project: int, actor: int)

  /**
   * A subscription and its buffered channel. sent lists the publications delivered to the channel,
   * by their place in the hub's history; the consumer has taken the first `received` of them.
   */
  datatype Channel = Channel(project: int, since: int, sent: seq<int>, received: int, open: bool, closes: int)

  /** A publication under way: sending under the read lock, or done sending and about to drop. */
  datatype Phase = Sending(todo: set<int>, slow: set<int>) | Dropping(slow: set<int>)

  /** history records publications in the order in which they took the read lock. */
  datatype State = State(
    capacity: int, subs: map<int, set<int>>, closed: bool, channels: map<int, Channel>,
    history: seq<Event>, publishing: map<int, Phase>)

  ghost predicate IsStart(h: State) {
    h == State(h.capacity, map[], false, map[], [], map[]) && h.capacity > 0
  }

  function Subscribers(subs: map<int, set<int>>, project: int): set<int> {
    if project in subs then subs[project] else {}
  }

  predicate Registered(h: State, s: int) {
    s in h.channels && s in Subscribers(h.subs, h.channels[s].project)
  }

  /** The write lock is free: no publication is in its sending phase. */
  predicate NoReaders(h: State) {
    forall k | k in h.publishing :: h.publishing[k].Dropping?
  }

  function SubsWithout(subs: map<int, set<int>>, project: int, s: int): map<int, set<int>> {
    var rest := Subscribers(subs, project) - {s};
    if rest == {} then subs - {project} else subs[project := rest]
  }

  /** Unregisters s and closes its channel, if it is registered. */
  function RemoveLocked(h: State, s: int): State {
    if !Registered(h, s) then h
    else
      var c := h.channels[s];
      h.(subs := SubsWithout(h.subs, c.project, s),
         channels := h.channels[s := c.(open := false, closes := c.closes + 1)])
  }

  /** The same for every member of a set at once. */
  function RemoveAll(h: State, gone: set<int>): State {
    h.(subs := map p | p in h.subs && h.subs[p] - gone != {} :: h.subs[p] - gone,
       channels := map s | s in h.channels ::
         if s in gone && Registered(h, s) then h.channels[s].(open := false, closes := h.channels[s].closes + 1)
           else h.channels[s])
  }

  // ---------------------------------------------------------------- steps

  datatype Step =
    | Subscribe(s: int, project: int)
    | Unsubscribe(s: int)
    | Close
    | BeginPublish(event: Event)
    | Send(publication: int, s: int)
    | EndSending(publication: int)
    | Drop(publication: int)
    | Receive(s: int)

  /** The state after a step, or None when locks or the state rule the step out. */
  function Take(h: State, step: Step): Option<State> {
    match step
    case Subscribe(s, project) =>
      if !NoReaders(h) || s in h.channels then None
      else
        var c := Channel(project, |h.history|, [], 0, !h.closed, if h.closed then 1 else 0);
        var subs := if h.closed then h.subs else h.subs[project := Subscribers(h.subs, project) + {s}];
        Some(h.(subs := subs, channels := h.channels[s := c]))
    case Unsubscribe(s) => if !NoReaders(h) then None else Some(RemoveLocked(h, s))
    case Close => if !NoReaders(h) then None else Some(RemoveAll(h, h.channels.Keys).(closed := true))
    case BeginPublish(event) =>
      Some(h.(history := h.history + [event],
              publishing := h.publishing[|h.history| := Sending(Subscribers(h.subs, event.project), {})]))
    case Send(k, s) =>
      if k !in h.publishing || !h.publishing[k].Sending? || s !in h.publishing[k].todo || s !in h.channels then None
      else
        var Sending(todo, slow) := h.publishing[k];
        var c := h.channels[s];
        if |c.sent| - c.received < h.capacity
        then Some(h.(channels := h.channels[s := c.(sent := c.sent + [k])],
                     publishing := h.publishing[k := Sending(todo - {s}, slow)]))
        else Some(h.(publishing := h.publishing[k := Sending(todo - {s}, slow + {s})]))
    case EndSending(k) =>
      if k !in h.publishing || !h.publishing[k].Sending? || h.publishing[k].todo != {} then None
      else if h.publishing[k].slow == {} then Some(h.(publishing := h.publishing - {k}))
      else Some(h.(publishing := h.publishing[k := Dropping(h.publishing[k].slow)]))
    case Drop(k) =>
      if k !in h.publishing || !NoReaders(h) then None
      else Some(RemoveAll(h, h.publishing[k].slow).(publishing := h.publishing - {k}))
    case Receive(s) =>
      if s !in h.channels || h.channels[s].received >= |h.channels[s].sent| then None
      else Some(h.(channels := h.channels[s := h.channels[s].(received := h.channels[s].received + 1)]))
  }

  // ---------------------------------------------------------------- the invariant

  function Waiting(p: Phase): set<int> {
    if p.Sending? then p.todo + p.slow else p.slow
  }

  /** The publications of s's project that took the read lock after s subscribed. */
  function Due(h: State, s: int): set<int>
    requires s in h.channels
  {
    set k | h.channels[s].since <= k < |h.history| && 0 <= k && h.history[k].project == h.channels[s].project
  }

  /** The publications still to be sent to s, or that found its buffer full and will drop it. */
  function Pending(h: State, s: int): set<int> {
    set k | k in h.publishing && s in Waiting(h.publishing[k])
  }

  function SentTo(h: State, s: int): set<int>
    requires s in h.channels
  {
    set k | k in h.channels[s].sent
  }

  ghost predicate Distinct(l: seq<int>) {
    forall i, j | 0 <= i < j < |l| :: l[i] != l[j]
  }

  ghost predicate ChannelOk(h: State, s: int)
    requires s in h.channels
  {
    var c := h.channels[s];
    (c.open <==> Registered(h, s)) && c.closes == (if c.open then 0 else 1) && 0 <= c.since <= |h.history| &&
    0 <= c.received <= |c.sent| <= c.received + h.capacity && Distinct(c.sent) && SentTo(h, s) <= Due(h, s) &&
    (h.closed ==> !c.open) &&
    (c.open ==> SentTo(h, s) !! Pending(h, s) && Due(h, s) == SentTo(h, s) + Pending(h, s))
  }

  /** While a publication sends, no subscription it works on can go away. */
  ghost predicate PhaseOk(h: State, k: int)
    requires k in h.publishing
  {
    0 <= k < |h.history| &&
    (forall s | s in Waiting(h.publishing[k]) :: s in h.channels && h.channels[s].project == h.history[k].project &&
                                                 h.channels[s].since <= k) &&
    (h.publishing[k].Sending? ==>
       h.publishing[k].todo !! h.publishing[k].slow &&
       Waiting(h.publishing[k]) <= Subscribers(h.subs, h.history[k].project))
  }

  ghost predicate SubsOk(h: State) {
    forall p | p in h.subs ::
      h.subs[p] != {} && forall s | s in h.subs[p] :: s in h.channels && h.channels[s].project == p
  }

  ghost predicate Inv(h: State) {
    h.capacity > 0 && SubsOk(h) && (forall s | s in h.channels :: ChannelOk(h, s)) &&
    forall k | k in h.publishing :: PhaseOk(h, k)
  }

  // ---------------------------------------------------------------- every step keeps it

  lemma SubscribeKeeps(h: State, s: int, project: int)
    requires Inv(h) && Take(h, Subscribe(s, project)).Some?
    ensures Inv(Take(h, Subscribe(s, project)).value)
  {
    var r := Take(h, Subscribe(s, project)).value;
    forall x | x in r.channels ensures ChannelOk(r, x) {
      if x != s {
        assert ChannelOk(h, x);
        assert Due(r, x) == Due(h, x) && SentTo(r, x) == SentTo(h, x) && Pending(r, x) == Pending(h, x);
        assert Registered(r, x) <==> Registered(h, x);
      } else {
        assert Due(r, s) == {} && SentTo(r, s) == {};
        forall k | k in h.publishing ensures s !in Waiting(h.publishing[k]) { assert PhaseOk(h, k); }
        assert Pending(r, s) == {};
        if h.closed { forall p | p in h.subs ensures s !in h.subs[p] {} }
      }
    }
    forall k | k in r.publishing ensures PhaseOk(r, k) { assert PhaseOk(h, k); }
  }

  lemma RemoveAllKeeps(h: State, gone: set<int>)
    requires Inv(h) && NoReaders(h)
    ensures Inv(RemoveAll(h, gone))
    ensures forall s | s in h.channels :: Registered(RemoveAll(h, gone), s) <==> Registered(h, s) && s !in gone
  {
    var r := RemoveAll(h, gone);
    forall s | s in h.channels ensures Registered(r, s) <==> Registered(h, s) && s !in gone {}
    forall s | s in r.channels ensures ChannelOk(r, s) {
      assert ChannelOk(h, s);
      assert Due(r, s) == Due(h, s) && SentTo(r, s) == SentTo(h, s) && Pending(r, s) == Pending(h, s);
    }
    forall k | k in r.publishing ensures PhaseOk(r, k) { assert PhaseOk(h, k); }
  }

  lemma RemoveOneIsRemoveAll(h: State, s: int)
    requires SubsOk(h) && s in h.channels
    ensures RemoveLocked(h, s) == RemoveAll(h, {s})
  {
    var one, all := RemoveLocked(h, s), RemoveAll(h, {s});
    var project := h.channels[s].project;
    forall p | p in h.subs && p != project ensures h.subs[p] - {s} == h.subs[p] {}
    if !Registered(h, s) {
      forall p | p in h.subs ensures p in all.subs && all.subs[p] == h.subs[p] { assert h.subs[p] - {s} == h.subs[p]; }
      assert all.subs == h.subs;
      assert all.channels == h.channels;
    } else {
      forall p ensures p in one.subs <==> p in all.subs {}
      assert one.subs == all.subs;
      assert one.channels == all.channels;
    }
  }

  lemma BeginKeeps(h: State, event: Event)
    requires Inv(h)
    ensures Inv(Take(h, BeginPublish(event)).value)
  {
    var r, k := Take(h, BeginPublish(event)).value, |h.history|;
    forall x | x in h.publishing ensures x < k { assert PhaseOk(h, x); }
    forall s | s in r.channels ensures ChannelOk(r, s) {
      assert ChannelOk(h, s);
      assert SentTo(r, s) == SentTo(h, s);
      assert Due(r, s) == if h.channels[s].project == event.project then Due(h, s) + {k} else Due(h, s);
      assert Pending(r, s) == if s in Subscribers(h.subs, event.project) then Pending(h, s) + {k} else Pending(h, s);
    }
    forall x | x in r.publishing ensures PhaseOk(r, x) {
      if x != k { assert PhaseOk(h, x); }
      else { forall s | s in Subscribers(h.subs, event.project) ensures ChannelOk(h, s) {} }
    }
  }

  lemma SentToMembers(h: State, s: int, k: int)
    requires s in h.channels
    ensures k in h.channels[s].sent <==> k in SentTo(h, s)
  {
  }

  lemma SendKeeps(h: State, k: int, s: int)
    requires Inv(h) && Take(h, Send(k, s)).Some?
    ensures Inv(Take(h, Send(k, s)).value)
  {
    var r := Take(h, Send(k, s)).value;
    assert PhaseOk(h, k) && ChannelOk(h, s);
    var delivered := |h.channels[s].sent| - h.channels[s].received < h.capacity;
    forall x | x in r.channels ensures ChannelOk(r, x) {
      assert ChannelOk(h, x);
      assert Due(r, x) == Due(h, x);
      if x == s && delivered {
        assert k in Pending(h, s);
        SentToMembers(h, s, k);
        assert SentTo(r, s) == SentTo(h, s) + {k};
        assert Pending(r, s) == Pending(h, s) - {k};
      } else {
        assert SentTo(r, x) == SentTo(h, x);
        assert Pending(r, x) == Pending(h, x);
      }
    }
    forall x | x in r.publishing ensures PhaseOk(r, x) { assert PhaseOk(h, x); }
  }

  lemma EndKeeps(h: State, k: int)
    requires Inv(h) && Take(h, EndSending(k)).Some?
    ensures Inv(Take(h, EndSending(k)).value)
  {
    var r := Take(h, EndSending(k)).value;
    assert PhaseOk(h, k);
    forall s | s in r.channels ensures ChannelOk(r, s) {
      assert ChannelOk(h, s);
      assert Due(r, s) == Due(h, s) && SentTo(r, s) == SentTo(h, s) && Pending(r, s) == Pending(h, s);
    }
    forall x | x in r.publishing ensures PhaseOk(r, x) { assert PhaseOk(h, x); }
  }

  lemma DropKeeps(h: State, k: int)
    requires Inv(h) && Take(h, Drop(k)).Some?
    ensures Inv(Take(h, Drop(k)).value)
  {
    var gone := h.publishing[k].slow;
    var a, r := RemoveAll(h, gone), Take(h, Drop(k)).value;
    RemoveAllKeeps(h, gone);
    forall s | s in r.channels ensures ChannelOk(r, s) {
      assert ChannelOk(a, s);
      assert Due(r, s) == Due(a, s) && SentTo(r, s) == SentTo(a, s);
      if a.channels[s].open { assert Pending(r, s) == Pending(a, s); }
    }
    forall x | x in r.publishing ensures PhaseOk(r, x) { assert PhaseOk(a, x); }
  }

  lemma ReceiveKeeps(h: State, s: int)
    requires Inv(h) && Take(h, Receive(s)).Some?
    ensures Inv(Take(h, Receive(s)).value)
  {
    var r := Take(h, Receive(s)).value;
    forall x | x in r.channels ensures ChannelOk(r, x) {
      assert ChannelOk(h, x);
      assert Due(r, x) == Due(h, x) && SentTo(r, x) == SentTo(h, x) && Pending(r, x) == Pending(h, x);
    }
    forall k | k in r.publishing ensures PhaseOk(r, k) { assert PhaseOk(h, k); }
  }

  lemma CloseKeeps(h: State)
    requires Inv(h) && NoReaders(h)
    ensures Inv(Take(h, Close).value)
  {
    var a, r := RemoveAll(h, h.channels.Keys), Take(h, Close).value;
    RemoveAllKeeps(h, h.channels.Keys);
    forall s | s in r.channels ensures ChannelOk(r, s) {
      assert ChannelOk(a, s);
      assert Due(r, s) == Due(a, s) && SentTo(r, s) == SentTo(a, s) && Pending(r, s) == Pending(a, s);
    }
    forall k | k in r.publishing ensures PhaseOk(r, k) { assert PhaseOk(a, k); }
  }

  lemma StepKeeps(h: State, step: Step)
    requires Inv(h) && Take(h, step).Some?
    ensures Inv(Take(h, step).value)
  {
    match step
    case Subscribe(s, project) => SubscribeKeeps(h, s, project);
    case Unsubscribe(s) =>
      if s in h.channels { RemoveOneIsRemoveAll(h, s); RemoveAllKeeps(h, {s}); }
    case Close => CloseKeeps(h);
    case BeginPublish(event) => BeginKeeps(h, event);
    case Send(k, s) => SendKeeps(h, k, s);
    case EndSending(k) => EndKeeps(h, k);
    case Drop(k) => DropKeeps(h, k);
    case Receive(s) => ReceiveKeeps(h, s);
  }

  // ---------------------------------------------------------------- every interleaving

  ghost predicate IsRun(states: seq<State>, steps: seq<Step>) {
    |states| == |steps| + 1 && IsStart(states[0]) &&
    forall i | 0 <= i < |steps| :: Take(states[i], steps[i]) == Some(states[i + 1])
  }

  lemma {:induction false} RunKeeps(states: seq<State>, steps: seq<Step>, n: nat)
    requires IsRun(states, steps) && n <= |steps|
    ensures Inv(states[n])
  {
    if n > 0 {
      RunKeeps(states, steps, n - 1);
      assert Take(states[n - 1], steps[n - 1]) == Some(states[n - 1 + 1]);
      StepKeeps(states[n - 1], steps[n - 1]);
    }
  }

  /** In every interleaving a channel is open exactly while registered, and is closed at most once. */
  lemma OpenExactlyWhileRegistered(states: seq<State>, steps: seq<Step>, n: nat, s: int)
    requires IsRun(states, steps) && n <= |steps| && s in states[n].channels
    ensures states[n].channels[s].open <==> Registered(states[n], s)
    ensures states[n].channels[s].closes == if states[n].channels[s].open then 0 else 1
  {
    RunKeeps(states, steps, n);
    assert ChannelOk(states[n], s);
  }

  /** A publication only ever sends to an open channel, although others may be closed meanwhile. */
  lemma NeverSendsToClosed(states: seq<State>, steps: seq<Step>, n: nat, k: int, s: int)
    requires IsRun(states, steps) && n < |steps| && steps[n] == Send(k, s)
    ensures s in states[n].channels && states[n].channels[s].open
  {
    RunKeeps(states, steps, n);
    assert Take(states[n], steps[n]) == Some(states[n + 1]);
    assert PhaseOk(states[n], k) && ChannelOk(states[n], s);
  }

  // ---------------------------------------------------------------- what each step does to the channels

  /** No channel but those of `some` changes, and nobody else joins or leaves. */
  ghost predicate OthersStay(a: State, b: State, some: set<int>) {
    (forall x :: x in b.channels && x !in some <==> x in a.channels && x !in some) &&
    forall x | x in a.channels && x !in some ::
      b.channels[x] == a.channels[x] && (Registered(b, x) <==> Registered(a, x))
  }

  /** Subscribing waits for the sends under way; unless the hub is closed it opens a channel that missed nothing. */
  lemma SubscribeOpens(h: State, s: int, project: int)
    requires Inv(h)
    ensures Take(h, Subscribe(s, project)).Some? <==> NoReaders(h) && s !in h.channels
    ensures Take(h, Subscribe(s, project)).Some? ==>
              var r := Take(h, Subscribe(s, project)).value;
              s in r.channels && OthersStay(h, r, {s}) && r.history == h.history && r.closed == h.closed &&
              r.channels[s].project == project && r.channels[s].sent == [] && Due(r, s) == {} &&
              (r.channels[s].open <==> !h.closed) && (Registered(r, s) <==> !h.closed)
  {
    if Take(h, Subscribe(s, project)).Some? {
      var r := Take(h, Subscribe(s, project)).value;
      SubscribeKeeps(h, s, project);
      assert ChannelOk(r, s);
      forall x | x in h.channels && x != s ensures Registered(r, x) <==> Registered(h, x) {}
    }
  }

  /** Unsubscribing waits for the sends under way; then the channel is closed and out of the registry. */
  lemma UnsubscribeCloses(h: State, s: int)
    requires Inv(h)
    ensures Take(h, Unsubscribe(s)).Some? <==> NoReaders(h)
    ensures Take(h, Unsubscribe(s)).Some? ==>
              var r := Take(h, Unsubscribe(s)).value;
              OthersStay(h, r, {s}) && r.history == h.history && r.closed == h.closed &&
              (s in h.channels ==>
                 s in r.channels && !r.channels[s].open && !Registered(r, s) &&
                 r.channels[s].sent == h.channels[s].sent)
  {
    if NoReaders(h) && s in h.channels {
      var r := Take(h, Unsubscribe(s)).value;
      StepKeeps(h, Unsubscribe(s));
      RemoveOneIsRemoveAll(h, s);
      RemoveAllKeeps(h, {s});
      assert ChannelOk(r, s) && ChannelOk(h, s);
    }
  }

  /** Closing the hub waits for the sends under way; then every channel is closed. */
  lemma CloseClosesAll(h: State)
    requires Inv(h)
    ensures Take(h, Close).Some? <==> NoReaders(h)
    ensures Take(h, Close).Some? ==>
              var r := Take(h, Close).value;
              r.closed && r.channels.Keys == h.channels.Keys && r.history == h.history &&
              forall s | s in r.channels :: !r.channels[s].open && !Registered(r, s)
  {
    if NoReaders(h) {
      CloseKeeps(h);
      var r := Take(h, Close).value;
      forall s | s in r.channels ensures !r.channels[s].open && !Registered(r, s) { assert ChannelOk(r, s); }
    }
  }

  /** Once the hub is closed, no channel is open, not even one that is subscribed later. */
  lemma {:induction false} ClosedIsFinal(states: seq<State>, steps: seq<Step>, m: nat, n: nat)
    requires IsRun(states, steps) && m <= n <= |steps| && states[m].closed
    ensures states[n].closed && forall s | s in states[n].channels :: !states[n].channels[s].open
  {
    RunKeeps(states, steps, n);
    if m < n {
      ClosedIsFinal(states, steps, m, n - 1);
      assert Take(states[n - 1], steps[n - 1]) == Some(states[n - 1 + 1]);
    }
    forall s | s in states[n].channels ensures !states[n].channels[s].open { assert ChannelOk(states[n], s); }
  }

  /** A send reaches a subscriber that has room and notes one that has none; nobody else is affected. */
  lemma SendReachesIfRoom(h: State, k: int, s: int)
    requires Inv(h)
    ensures Take(h, Send(k, s)).Some? <==> k in h.publishing && h.publishing[k].Sending? && s in h.publishing[k].todo
    ensures Take(h, Send(k, s)).Some? ==>
              var r := Take(h, Send(k, s)).value;
              var room := |h.channels[s].sent| - h.channels[s].received < h.capacity;
              OthersStay(h, r, {s}) && r.history == h.history && s in r.channels &&
              r.channels[s] == (if room then h.channels[s].(sent := h.channels[s].sent + [k]) else h.channels[s]) &&
              k in r.publishing && r.publishing[k].Sending? && r.publishing[k].todo == h.publishing[k].todo - {s} &&
              r.publishing[k].slow == h.publishing[k].slow + if room then {} else {s}
  {
    if k in h.publishing { assert PhaseOk(h, k); }
  }

  /** A publication starts with every subscriber of its project before it, and waits for nobody. */
  lemma PublishStarts(h: State, event: Event)
    ensures Take(h, BeginPublish(event)).Some?
    ensures var r, k := Take(h, BeginPublish(event)).value, |h.history|;
            r.history == h.history + [event] && r.channels == h.channels && r.subs == h.subs &&
            r.publishing.Keys == h.publishing.Keys + {k} && r.publishing[k].Sending? && r.publishing[k].slow == {} &&
            forall s | s in h.channels && h.channels[s].project == event.project ::
              s in r.publishing[k].todo <==> Registered(h, s)
  {
  }

  /** Once it has sent to all, a publication drops those who had no room, and only those, and is over. */
  lemma SlowAreDropped(h: State, k: int)
    requires Inv(h) && k in h.publishing
    ensures h.publishing[k].Sending? && h.publishing[k].todo == {} ==>
              var slow := h.publishing[k].slow;
              Take(h, EndSending(k)) ==
              Some(h.(publishing := if slow == {} then h.publishing - {k} else h.publishing[k := Dropping(slow)]))
    ensures h.publishing[k].Dropping? && NoReaders(h) ==>
              Take(h, Drop(k)).Some? &&
              var r, slow := Take(h, Drop(k)).value, h.publishing[k].slow;
              OthersStay(h, r, slow) && r.publishing == h.publishing - {k} && r.history == h.history &&
              forall s | s in slow :: s in r.channels && !r.channels[s].open && !Registered(r, s)
  {
    if h.publishing[k].Dropping? && NoReaders(h) {
      var slow := h.publishing[k].slow;
      assert PhaseOk(h, k);
      RemoveAllKeeps(h, slow);
      forall s | s in slow ensures s in h.channels && !RemoveAll(h, slow).channels[s].open {
        assert ChannelOk(RemoveAll(h, slow), s);
      }
    }
  }

  /**
   * A consumer can take an event exactly if one was sent that it has not taken, and takes them in the order they
   * were sent: what was sent stays, even after the channel is closed, and nothing else counts as taken.
   */
  lemma ReceivesInOrder(h: State, step: Step, s: int)
    requires Inv(h) && s in h.channels
    ensures Take(h, Receive(s)).Some? <==> h.channels[s].received < |h.channels[s].sent|
    ensures Take(h, step).Some? ==>
              var r := Take(h, step).value;
              s in r.channels && h.channels[s].sent <= r.channels[s].sent &&
              r.channels[s].received == h.channels[s].received + if step == Receive(s) then 1 else 0
  {
    if step.Unsubscribe? && step.s in h.channels { RemoveOneIsRemoveAll(h, step.s); }
  }

  /**
   * A registered subscriber has been sent each event of its project published since it subscribed
   * once, except exactly those of publications that are still sending to it or are about to drop it.
   * So it has missed nothing if and only if no publication is pending for it.
   */
  lemma NothingMissedUnlessPending(states: seq<State>, steps: seq<Step>, n: nat, s: int)
    requires IsRun(states, steps) && n <= |steps| && s in states[n].channels && Registered(states[n], s)
    ensures Distinct(states[n].channels[s].sent)
    ensures Due(states[n], s) - SentTo(states[n], s) == Pending(states[n], s) &&
            SentTo(states[n], s) <= Due(states[n], s)
    ensures Due(states[n], s) == SentTo(states[n], s) <==> Pending(states[n], s) == {}
  {
    RunKeeps(states, steps, n);
    assert ChannelOk(states[n], s);
  }

  ghost predicate InOrder(l: seq<int>) {
    forall i, j | 0 <= i < j < |l| :: l[i] < l[j]
  }

  /** s was sent its project's events in the order they were published, and none was left out before another. */
  ghost predicate GapFree(h: State, s: int)
    requires s in h.channels
  {
    InOrder(h.channels[s].sent) && forall k, d | k in SentTo(h, s) && d in Due(h, s) && d < k :: d in SentTo(h, s)
  }

  /**
   * A registered subscriber has seen a gap-free prefix of the events due to it exactly if they reached it in
   * order and every publication pending for it took the read lock after all those it was sent.
   */
  lemma GapFreeExactly(states: seq<State>, steps: seq<Step>, n: nat, s: int)
    requires IsRun(states, steps) && n <= |steps| && s in states[n].channels && Registered(states[n], s)
    ensures GapFree(states[n], s) <==>
            InOrder(states[n].channels[s].sent) &&
            forall k, p | k in SentTo(states[n], s) && p in Pending(states[n], s) :: k < p
  {
    hide InOrder;
    RunKeeps(states, steps, n);
    assert ChannelOk(states[n], s);
    var sent, pending, due := SentTo(states[n], s), Pending(states[n], s), Due(states[n], s);
    assert sent !! pending && due == sent + pending;
    hide SentTo, Pending, Due;
    forall k, p | k in sent && p in pending ensures p in due && p !in sent && k != p {}
  }

  // ---------------------------------------------------------------- a gap before the drop

  /** A hub whose one project 7 has subscriber 0, its buffer one event long. */
  function OneSubscriber(sent: seq<int>, received: int, published: nat, publishing: map<int, Phase>): State {
    State(1, map[7 := {0}], false, map[0 := Channel(7, 0, sent, received, true, 0)],
          seq(published, _ => Event(7, 1)), publishing)
  }

  lemma PublishingBegins(sent: seq<int>, received: int, published: nat, publishing: map<int, Phase>)
    ensures Take(OneSubscriber(sent, received, published, publishing), BeginPublish(Event(7, 1))) ==
            Some(OneSubscriber(sent, received, published + 1, publishing[published := Sending({0}, {})]))
  {
    var h := OneSubscriber(sent, received, published, publishing);
    assert h.history + [Event(7, 1)] == seq(published + 1, _ => Event(7, 1));
    assert Subscribers(h.subs, 7) == {0};
  }

  lemma SendingReaches(sent: seq<int>, received: int, published: nat, publishing: map<int, Phase>, k: int)
    requires k in publishing && publishing[k] == Sending({0}, {})
    ensures Take(OneSubscriber(sent, received, published, publishing), Send(k, 0)) ==
            if |sent| - received < 1
            then Some(OneSubscriber(sent + [k], received, published, publishing[k := Sending({}, {})]))
            else Some(OneSubscriber(sent, received, published, publishing[k := Sending({}, {0})]))
  {
    var h := OneSubscriber(sent, received, published, publishing);
    assert {0} - {0} == {} && {} + {0} == {0};
    assert h.channels[0 := h.channels[0].(sent := sent + [k])] ==
           OneSubscriber(sent + [k], received, published, publishing).channels;
  }

  lemma SubscriptionStarts()
    ensures Take(State(1, map[], false, map[], [], map[]), Subscribe(0, 7)) == Some(OneSubscriber([], 0, 0, map[]))
  {
    var h := State(1, map[], false, map[], [], map[]);
    assert Subscribers(h.subs, 7) + {0} == {0} && h.history == seq(0, _ => Event(7, 1));
    assert h.subs[7 := {0}] == map[7 := {0}] &&
           h.channels[0 := Channel(7, 0, [], 0, true, 0)] == map[0 := Channel(7, 0, [], 0, true, 0)];
  }

  lemma SubscriberMakesRoom(sent: seq<int>, received: int, published: nat, publishing: map<int, Phase>)
    requires received < |sent|
    ensures Take(OneSubscriber(sent, received, published, publishing), Receive(0)) ==
            Some(OneSubscriber(sent, received + 1, published, publishing))
  {
    var h, r := OneSubscriber(sent, received, published, publishing),
      OneSubscriber(sent, received + 1, published, publishing);
    assert h.channels[0 := h.channels[0].(received := received + 1)] == r.channels && h.history == r.history;
  }

  lemma Extend(states: seq<State>, steps: seq<Step>, step: Step, next: State)
    returns (states': seq<State>, steps': seq<Step>)
    requires |states| == |steps| + 1 && IsRun(states, steps) && Take(states[|steps|], step) == Some(next)
    ensures |states'| == |steps'| + 1 && IsRun(states', steps') && states'[|steps'|] == next
  {
    states', steps' := states + [next], steps + [step];
  }

  /** The subscriber was sent publication 0; publication 1 found its buffer full. */
  function OneMissed(): map<int, Phase> {
    map[0 := Sending({}, {}), 1 := Sending({}, {0})]
  }

  lemma OneIsMissed() returns (states: seq<State>, steps: seq<Step>)
    ensures |states| == |steps| + 1 && IsRun(states, steps) && states[|steps|] == OneSubscriber([0], 0, 2, OneMissed())
  {
    var e, sending, one := Event(7, 1), Sending({0}, {}), map[0 := Sending({}, {})];
    states, steps := [State(1, map[], false, map[], [], map[])], [];
    assert IsRun(states, steps);
    hide IsRun, Take, OneSubscriber;
    SubscriptionStarts();
    states, steps := Extend(states, steps, Subscribe(0, 7), OneSubscriber([], 0, 0, map[]));
    PublishingBegins([], 0, 0, map[]);
    states, steps := Extend(states, steps, BeginPublish(e), OneSubscriber([], 0, 1, map[0 := sending]));
    SendingReaches([], 0, 1, map[0 := sending], 0);
    assert [] + [0] == [0] && map[0 := sending][0 := Sending({}, {})] == one;
    states, steps := Extend(states, steps, Send(0, 0), OneSubscriber([0], 0, 1, one));
    PublishingBegins([0], 0, 1, one);
    states, steps := Extend(states, steps, BeginPublish(e), OneSubscriber([0], 0, 2, one[1 := sending]));
    SendingReaches([0], 0, 2, one[1 := sending], 1);
    assert one[1 := sending][1 := Sending({}, {0})] == OneMissed();
    states, steps := Extend(states, steps, Send(1, 0), OneSubscriber([0], 0, 2, OneMissed()));
  }

  /**
   * A subscriber need not see a gap-free prefix: it can miss an event, make room, be sent the next
   * one, and only then be dropped.
   */
  lemma GapIsPossible() returns (states: seq<State>, steps: seq<Step>)
    ensures IsRun(states, steps)
    ensures var last := states[|steps|];
            0 in last.channels && last.channels[0].open && last.channels[0].sent == [0, 2] && Due(last, 0) == {0, 1, 2}
  {
    var e, sending, missed := Event(7, 1), Sending({0}, {}), OneMissed();
    var last := OneSubscriber([0, 2], 1, 3, missed[2 := Sending({}, {})]);
    assert Due(last, 0) == {0, 1, 2};
    hide IsRun, Take, OneSubscriber, OneMissed, Due;
    states, steps := OneIsMissed();
    SubscriberMakesRoom([0], 0, 2, missed);
    states, steps := Extend(states, steps, Receive(0), OneSubscriber([0], 1, 2, missed));
    PublishingBegins([0], 1, 2, missed);
    states, steps := Extend(states, steps, BeginPublish(e), OneSubscriber([0], 1, 3, missed[2 := sending]));
    SendingReaches([0], 1, 3, missed[2 := sending], 2);
    assert [0] + [2] == [0, 2] && missed[2 := sending][2 := Sending({}, {})] == missed[2 := Sending({}, {})];
    states, steps := Extend(states, steps, Send(2, 0), last);
  }
}
