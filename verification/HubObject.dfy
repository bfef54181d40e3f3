/** The hub as the object the server holds: its registry is changed under its lock. */
module HubObject {
  import opened Wrappers
  import opened IdSets
  import opened Hub

  /** Sends publication |history| to each subscriber with room for it and drops the others. */
  function Published(h: State, event: Event): State {
    var full := Full(h, event.project);
    RemoveAll(Delivered(h, event, Subscribers(h.subs, event.project) - full), full)
  }

  /** The subscribers of a project whose buffer has no room. */
  function Full(h: State, project: int): set<int> {
    NoRoom(h, Subscribers(h.subs, project))
  }

  function Delivered(h: State, event: Event, to: set<int>): State {
    h.(history := h.history + [event], channels := SentChannels(h, to, |h.history|))
  }

  // ---------------------------------------------------------------- the phases of a publication

  /** Where publication k's sends lead: whoever has room is sent it, the others are slow. */
  function AllSent(h: State, k: int): State
    requires k in h.publishing && h.publishing[k].Sending?
  {
    var Sending(todo, slow) := h.publishing[k];
    var full := NoRoom(h, todo);
    h.(channels := SentChannels(h, todo - full, k), publishing := h.publishing[k := Sending({}, slow + full)])
  }

  function NoRoom(h: State, to: set<int>): set<int> {
    set s | s in to && s in h.channels && |h.channels[s].sent| - h.channels[s].received >= h.capacity
  }

  function SentChannels(h: State, to: set<int>, k: int): map<int, Channel> {
    map s | s in h.channels :: if s in to then h.channels[s].(sent := h.channels[s].sent + [k]) else h.channels[s]
  }

  /** Each send leads towards the same state, so their order does not matter. */
  lemma SendsAgree(h: State, k: int, s: int)
    requires Take(h, Send(k, s)).Some?
    ensures var r := Take(h, Send(k, s)).value;
            k in r.publishing && r.publishing[k].Sending? && r.publishing[k].todo == h.publishing[k].todo - {s} &&
            AllSent(r, k) == AllSent(h, k)
  {
    var r := Take(h, Send(k, s)).value;
    var todo, full := h.publishing[k].todo, NoRoom(h, h.publishing[k].todo);
    var full' := NoRoom(r, todo - {s});
    assert full' == full - {s};
    forall x | x in h.channels
      ensures SentChannels(r, todo - {s} - full', k)[x] == SentChannels(h, todo - full, k)[x]
    {
    }
    assert SentChannels(r, todo - {s} - full', k) == SentChannels(h, todo - full, k);
    assert r.publishing[k].slow + full' == h.publishing[k].slow + full;
    assert AllSent(r, k).publishing == AllSent(h, k).publishing;
  }

  lemma SendsEnd(h: State, k: int)
    requires k in h.publishing && h.publishing[k].Sending? && h.publishing[k].todo == {}
    ensures AllSent(h, k) == h
  {
    var full := NoRoom(h, h.publishing[k].todo);
    assert full == {} && h.publishing[k].slow + full == h.publishing[k].slow;
    assert SentChannels(h, h.publishing[k].todo - full, k) == h.channels;
    assert h.publishing[k := h.publishing[k]] == h.publishing;
  }

  /** Sends of publication k, one after the other, to whichever subscribers. */
  ghost predicate SendPath(states: seq<State>, steps: seq<Step>, k: int) {
    |states| == |steps| + 1 &&
    forall i | 0 <= i < |steps| ::
      steps[i].Send? && steps[i].publication == k && Take(states[i], steps[i]) == Some(states[i + 1])
  }

  lemma {:induction false} PathAgrees(states: seq<State>, steps: seq<Step>, k: int, n: nat)
    requires SendPath(states, steps, k) && n <= |steps| && k in states[0].publishing && states[0].publishing[k].Sending?
    ensures k in states[n].publishing && states[n].publishing[k].Sending? &&
            AllSent(states[n], k) == AllSent(states[0], k)
  {
    hide AllSent, Take;
    if n > 0 {
      PathAgrees(states, steps, k, n - 1);
      assert steps[n - 1] == Send(k, steps[n - 1].s) && Take(states[n - 1], steps[n - 1]) == Some(states[n - 1 + 1]);
      SendsAgree(states[n - 1], k, steps[n - 1].s);
    }
  }

  /** Whatever the order of the sends, once nobody is left to send to they end in the same state. */
  lemma SendsEndInAllSent(states: seq<State>, steps: seq<Step>, k: int)
    requires SendPath(states, steps, k) && k in states[0].publishing && states[0].publishing[k].Sending?
    requires k in states[|steps|].publishing && states[|steps|].publishing[k].Sending? &&
             states[|steps|].publishing[k].todo == {}
    ensures states[|steps|] == AllSent(states[0], k)
  {
    hide AllSent;
    PathAgrees(states, steps, k, |steps|);
    SendsEnd(states[|steps|], k);
  }

  /** Nothing stops a publication from sending to everybody. */
  lemma {:induction false} SendsCanEnd(h: State, k: int, todo: set<int>) returns (states: seq<State>, steps: seq<Step>)
    requires k in h.publishing && h.publishing[k].Sending? && h.publishing[k].todo == todo <= h.channels.Keys
    ensures SendPath(states, steps, k) && states[0] == h
    ensures k in states[|steps|].publishing && states[|steps|].publishing[k].Sending? &&
            states[|steps|].publishing[k].todo == {}
    decreases todo
  {
    if todo == {} {
      states, steps := [h], [];
    } else {
      SomeMember(todo);
      var s :| s in todo;
      SendsAgree(h, k, s);
      var next := Take(h, Send(k, s)).value;
      var rest, later := SendsCanEnd(next, k, todo - {s});
      states, steps := [h] + rest, [Send(k, s)] + later;
      hide Take;
      assert states[|steps|] == rest[|later|];
      forall i | 0 <= i < |steps|
        ensures steps[i].Send? && steps[i].publication == k && Take(states[i], steps[i]) == Some(states[i + 1])
      {
        if i > 0 { assert Take(rest[i - 1], later[i - 1]) == Some(rest[i - 1 + 1]); }
      }
    }
  }

  /**
   * With nobody else publishing, a publication that sends to everybody in any order, and then ends its
   * sending and drops the slow subscribers, leaves the state that the object's method leaves.
   */
  lemma PhasesPublish(h: State, event: Event, states: seq<State>, steps: seq<Step>)
    requires SubsOk(h) && h.publishing == map[]
    requires SendPath(states, steps, |h.history|) && states[0] == Take(h, BeginPublish(event)).value
    requires var last := states[|steps|];
             |h.history| in last.publishing && last.publishing[|h.history|].Sending? &&
             last.publishing[|h.history|].todo == {}
    ensures var k, full := |h.history|, Full(h, event.project);
            var ended := Take(states[|steps|], EndSending(k));
            ended.Some? &&
            if full == {} then ended == Some(Published(h, event))
              else Take(ended.value, Drop(k)) == Some(Published(h, event))
  {
    hide AllSent, SendPath, Published, RemoveAll;
    SendsEndInAllSent(states, steps, |h.history|);
    EndAndDrop(h, event);
  }

  lemma EndAndDrop(h: State, event: Event)
    requires SubsOk(h) && h.publishing == map[]
    ensures var k, full := |h.history|, Full(h, event.project);
            var begun := Take(h, BeginPublish(event)).value;
            var ended := Take(AllSent(begun, k), EndSending(k));
            ended.Some? &&
            if full == {} then ended == Some(Published(h, event))
              else Take(ended.value, Drop(k)) == Some(Published(h, event))
  {
    var k, full, to := |h.history|, Full(h, event.project), Subscribers(h.subs, event.project);
    var begun := Take(h, BeginPublish(event)).value;
    var sent := AllSent(begun, k);
    assert NoRoom(begun, to) == full;
    assert {} + full == full;
    assert sent.channels == Delivered(h, event, to - full).channels;
    assert sent.publishing == map[k := Sending({}, full)];
    var ended := Take(sent, EndSending(k)).value;
    if full == {} {
      assert ended.publishing == map[];
      RemoveNone(Delivered(h, event, to));
      assert to - {} == to;
    } else {
      assert ended.publishing == map[k := Dropping(full)];
      assert ended.publishing - {k} == map[];
      RemoveAllIgnoresPublishing(ended, Delivered(h, event, to - full), full);
    }
  }

  lemma RemoveAllIgnoresPublishing(a: State, b: State, gone: set<int>)
    requires a == b.(publishing := a.publishing)
    ensures RemoveAll(a, gone) == RemoveAll(b, gone).(publishing := a.publishing)
  {
    forall s | s in a.channels ensures Registered(a, s) <==> Registered(b, s) {}
    assert RemoveAll(a, gone).channels == RemoveAll(b, gone).channels;
  }

  // ---------------------------------------------------------------- removal

  /** Removing subscriptions one by one removes them all, in whatever order. */
  lemma RemoveOneMore(h: State, gone: set<int>, s: int)
    requires SubsOk(h) && s in h.channels
    ensures SubsOk(RemoveAll(h, gone)) && RemoveLocked(RemoveAll(h, gone), s) == RemoveAll(h, gone + {s})
  {
    var a, all := RemoveAll(h, gone), RemoveAll(h, gone + {s});
    RemoveOneIsRemoveAll(a, s);
    var one := RemoveAll(a, {s});
    forall p | p in h.subs ensures h.subs[p] - gone - {s} == h.subs[p] - (gone + {s}) {}
    forall p ensures p in one.subs <==> p in all.subs {}
    assert one.subs == all.subs;
    forall x | x in h.channels ensures one.channels[x] == all.channels[x] {
      assert Registered(a, x) <==> Registered(h, x) && x !in gone;
    }
    assert one.channels == all.channels;
  }

  lemma RemoveNone(h: State)
    requires SubsOk(h)
    ensures RemoveAll(h, {}) == h
  {
    var r := RemoveAll(h, {});
    forall p | p in h.subs ensures p in r.subs && r.subs[p] == h.subs[p] { assert h.subs[p] - {} == h.subs[p]; }
    assert r.subs == h.subs;
    assert r.channels == h.channels;
  }

  lemma RemoveEverything(h: State, gone: set<int>)
    requires SubsOk(h) && RemoveAll(h, gone).subs == map[]
    ensures RemoveAll(h, gone) == RemoveAll(h, h.channels.Keys)
  {
    forall p | p in h.subs ensures h.subs[p] - gone == {} && h.subs[p] - h.channels.Keys == {} {
      assert p !in RemoveAll(h, gone).subs;
      forall s | s in h.subs[p] ensures s in h.channels.Keys {}
    }
    assert RemoveAll(h, h.channels.Keys).subs == map[];
    assert RemoveAll(h, gone).channels == RemoveAll(h, h.channels.Keys).channels;
  }

  lemma KeysAfterProject(h: State, gone: set<int>, p: int)
    requires SubsOk(h) && p in h.subs
    ensures RemoveAll(h, gone + h.subs[p]).subs.Keys == RemoveAll(h, gone).subs.Keys - {p}
  {
    var a, b := RemoveAll(h, gone), RemoveAll(h, gone + h.subs[p]);
    forall q | q in h.subs ensures q in b.subs <==> q in a.subs && q != p {
      if q == p { assert h.subs[q] - (gone + h.subs[p]) == {}; }
      else {
        assert forall s | s in h.subs[q] :: h.channels[s].project == q;
        assert h.subs[q] - (gone + h.subs[p]) == h.subs[q] - gone;
      }
    }
  }

  class Registry {
    const capacity: int
    var subs: map<int, set<int>>
    var closed: bool
    var channels: map<int, Channel>
    var history: seq<Event>

    function Snapshot(): State
      reads this
    {
      State(capacity, subs, closed, channels, history, map[])
    }

    constructor (capacity: int)
      requires capacity > 0
      ensures IsStart(Snapshot())
    {
      this.capacity := capacity;
      subs, closed, channels, history := map[], false, map[], [];
    }

    method Subscribe(s: int, project: int)
      requires s !in channels
      modifies this
      ensures Take(old(Snapshot()), Step.Subscribe(s, project)).value == Snapshot()
    {
      channels := channels[s := Channel(project, |history|, [], 0, true, 0)];
      if closed {
        channels := channels[s := channels[s].(open := false, closes := 1)];
        return;
      }
      if project !in subs {
        subs := subs[project := {}];
      }
      subs := subs[project := subs[project] + {s}];
    }

    method RemoveSubscription(s: int)
      requires s in channels
      modifies this`subs, this`channels
      ensures Snapshot() == RemoveLocked(old(Snapshot()), s)
    {
      var c := channels[s];
      if c.project !in subs { return; }
      if s !in subs[c.project] { return; }
      subs := subs[c.project := subs[c.project] - {s}];
      if subs[c.project] == {} {
        subs := subs - {c.project};
      }
      channels := channels[s := c.(open := false, closes := c.closes + 1)];
    }

    /** Drops every subscriber; the registry is empty and closed afterwards. */
    method Shut()
      requires SubsOk(Snapshot())
      modifies this
      ensures Snapshot() == Take(old(Snapshot()), Close).value && subs == map[]
    {
      closed := true;
      ghost var before, gone: set<int> := Snapshot(), {};
      RemoveNone(before);
      var projects := subs.Keys;
      while projects != {}
        invariant gone <= before.channels.Keys && Snapshot() == RemoveAll(before, gone)
        invariant projects <= subs.Keys && before.subs.Keys - projects !! subs.Keys
        decreases projects
      {
        SomeMember(projects);
        var p :| p in projects;
        DropProject(p, before, gone);
        forall s | s in before.subs[p] ensures s in before.channels.Keys {}
        gone := gone + before.subs[p];
        projects := projects - {p};
      }
      assert subs == map[];
      RemoveEverything(before, gone);
    }

    /** The inner loop of Close: every subscriber of one project is dropped. */
    method DropProject(p: int, ghost before: State, ghost gone: set<int>)
      requires SubsOk(before) && gone <= before.channels.Keys && Snapshot() == RemoveAll(before, gone) && p in subs
      modifies this`subs, this`channels
      ensures Snapshot() == RemoveAll(before, gone + before.subs[p])
      ensures subs.Keys == old(subs).Keys - {p}
    {
      var members := subs[p];
      ghost var done: set<int> := {};
      assert gone + {} == gone;
      while members != {}
        invariant members !! gone + done && members + done + (before.subs[p] * gone) == before.subs[p]
        invariant Snapshot() == RemoveAll(before, gone + done)
        decreases members
      {
        SomeMember(members);
        var s :| s in members;
        RemoveOneMore(before, gone + done, s);
        RemoveSubscription(s);
        assert gone + done + {s} == gone + (done + {s});
        members, done := members - {s}, done + {s};
      }
      assert gone + done == gone + before.subs[p];
      KeysAfterProject(before, gone, p);
    }

    /** Sends to whoever has room, then drops the others: two phases, each in one piece here. */
    method Publish(event: Event)
      requires SubsOk(Snapshot())
      modifies this`history, this`channels, this`subs
      ensures Snapshot() == Published(old(Snapshot()), event)
    {
      hide RemoveAll;
      var slow := SendToAll(event);
      DropSlow(slow);
    }

    /** The read-locked phase: reports the subscribers whose buffer was full. */
    method SendToAll(event: Event) returns (slow: set<int>)
      requires SubsOk(Snapshot())
      modifies this`history, this`channels
      ensures slow == Full(old(Snapshot()), event.project)
      ensures Snapshot() == Delivered(old(Snapshot()), event, Subscribers(subs, event.project) - slow) &&
              SubsOk(Snapshot())
    {
      ghost var before, to := Snapshot(), Subscribers(subs, event.project);
      ghost var full := Full(before, event.project);
      var k := |history|;
      slow := {};
      var members := if event.project in subs then subs[event.project] else {};
      history := history + [event];
      assert channels == Delivered(before, event, {}).channels;
      while members != {}
        invariant members <= to && slow == full - members
        invariant Snapshot() == Delivered(before, event, to - full - members)
        decreases members
      {
        SomeMember(members);
        var s :| s in members;
        if |channels[s].sent| - channels[s].received < capacity {
          channels := channels[s := channels[s].(sent := channels[s].sent + [k])];
        } else {
          slow := slow + {s};
        }
        members := members - {s};
        assert channels == Delivered(before, event, to - full - members).channels;
      }
      assert to - full - members == to - full && slow == full;
    }

    /** The write-locked phase. */
    method DropSlow(slow: set<int>)
      requires SubsOk(Snapshot()) && slow <= channels.Keys
      modifies this`channels, this`subs
      ensures Snapshot() == RemoveAll(old(Snapshot()), slow)
    {
      ghost var before, gone: set<int> := Snapshot(), {};
      var todo := slow;
      RemoveNone(before);
      hide RemoveAll, RemoveLocked;
      while todo != {}
        invariant todo <= slow && gone == slow - todo && Snapshot() == RemoveAll(before, gone) &&
                  channels.Keys == before.channels.Keys
        decreases todo
      {
        SomeMember(todo);
        var s :| s in todo;
        RemoveOneMore(before, gone, s);
        RemoveSubscription(s);
        todo, gone := todo - {s}, gone + {s};
      }
      assert gone == slow;
    }
  }
}
