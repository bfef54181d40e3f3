/** A token bucket per key, refilled over time, with idle buckets swept away. Times are nanoseconds. */
module RateLimit {
  import opened Wrappers

  const SECOND := 1_000_000_000
  const SWEEP_EVERY := 60 * SECOND

  datatype Bucket = Bucket(tokens: real, last: int)

  datatype State = State(perSecond: real, burst: real, buckets: map<string, Bucket>, lastSweep: Option<int>)

  function New(perMinute: int, burst: int): State {
    State(perMinute as real / 60.0, burst as real, map[], None)
  }

  // ---------------------------------------------------------------- arithmetic

  function Min(a: real, b: real): real {
    if a <= b then a else b
  }

  function Ceil(x: real): (c: int)
    ensures x <= c as real < x + 1.0
  {
    -((-x).Floor)
  }

  /** Tokens earned in a duration. */
  function Earned(perSecond: real, d: int): real {
    d as real / SECOND as real * perSecond
  }

  lemma EarnedAdds(perSecond: real, c: int, d: int)
    requires perSecond > 0.0
    ensures Earned(perSecond, c + d) == Earned(perSecond, c) + Earned(perSecond, d)
    ensures d >= 0 ==> Earned(perSecond, d) >= 0.0
    ensures Earned(perSecond, 0) == 0.0
  {
    var x, y := c as real / SECOND as real, d as real / SECOND as real;
    assert (c + d) as real / SECOND as real == x + y;
    assert (x + y) * perSecond == x * perSecond + y * perSecond;
  }

  /** A shortfall is made up after d nanoseconds exactly if d is at least the shortfall over the rate. */
  lemma EarnedCovers(perSecond: real, missing: real, d: int)
    requires perSecond > 0.0
    ensures Earned(perSecond, d) >= missing <==> d >= Ceil(missing / perSecond * SECOND as real)
  {
    var s, x := SECOND as real, d as real;
    var t := missing / perSecond;
    assert t * perSecond == missing;
    if x >= t * s {
      assert x / s >= t;
      assert (x / s - t) * perSecond >= 0.0;
      assert (x / s) * perSecond >= t * perSecond;
    } else {
      assert x / s < t;
      assert (t - x / s) * perSecond > 0.0;
      assert (x / s) * perSecond < t * perSecond;
    }
  }

  // ---------------------------------------------------------------- the limiter

  predicate Full(s: State, b: Bucket, now: int) {
    b.tokens + Earned(s.perSecond, now - b.last) >= s.burst
  }

  predicate SweepDue(s: State, now: int) {
    s.lastSweep.None? || now - s.lastSweep.value >= SWEEP_EVERY
  }

  /** Drops the buckets that have refilled completely. */
  function Sweep(s: State, now: int): State {
    if !SweepDue(s, now) then s
    else s.(lastSweep := Some(now), buckets := map k | k in s.buckets && !Full(s, s.buckets[k], now) :: s.buckets[k])
  }

  function TopUp(s: State, b: Bucket, now: int): Bucket {
    if now > b.last then Bucket(Min(s.burst, b.tokens + Earned(s.perSecond, now - b.last)), now) else b
  }

  /** The state with key's bucket topped up; sweeping can be switched off for comparison. */
  function Refill(s: State, key: string, now: int, sweeping: bool): (r: State)
    ensures key in r.buckets
  {
    var s' := if sweeping then Sweep(s, now) else s;
    var b := if key in s'.buckets then TopUp(s', s'.buckets[key], now) else Bucket(s'.burst, now);
    s'.(buckets := s'.buckets[key := b])
  }

  function Wait(s: State, b: Bucket): int
    requires s.perSecond != 0.0
  {
    Ceil((1.0 - b.tokens) / s.perSecond * SECOND as real)
  }

  datatype Call = Allow(key: string) | Refund(key: string) | Reset(key: string)

  datatype Answer = Allowed | Refused(wait: int) | Nothing

  function WithTokens(s: State, key: string, tokens: real): State
    requires key in s.buckets
  {
    s.(buckets := s.buckets[key := s.buckets[key].(tokens := tokens)])
  }

  function Do(s: State, call: Call, now: int, sweeping: bool): (State, Answer)
    requires s.perSecond != 0.0
  {
    match call
    case Allow(key) =>
      var r := Refill(s, key, now, sweeping);
      var b := r.buckets[key];
      if b.tokens < 1.0 then (r, Refused(Wait(r, b))) else (WithTokens(r, key, b.tokens - 1.0), Allowed)
    case Refund(key) =>
      var r := Refill(s, key, now, sweeping);
      (WithTokens(r, key, Min(r.burst, r.buckets[key].tokens + 1.0)), Nothing)
    case Reset(key) => (s.(buckets := s.buckets - {key}), Nothing)
  }

  // ---------------------------------------------------------------- what a caller can observe

  /** A bucket is within its burst and not ahead of the clock. */
  ghost predicate Valid(s: State, now: int) {
    s.perSecond > 0.0 && s.burst >= 1.0 &&
    forall k | k in s.buckets :: 0.0 <= s.buckets[k].tokens <= s.burst && s.buckets[k].last <= now
  }

  /** The tokens key has at a moment: a missing bucket counts as a full one. */
  function Level(s: State, key: string, now: int): real {
    if key in s.buckets then Min(s.burst, s.buckets[key].tokens + Earned(s.perSecond, now - s.buckets[key].last))
      else s.burst
  }

  /** Levels rise at the refill rate and stop at the burst. */
  lemma LevelRises(s: State, key: string, now: int, later: int)
    requires Valid(s, now) && now <= later
    ensures Valid(s, later) && 0.0 <= Level(s, key, now) <= s.burst
    ensures Level(s, key, later) == Min(s.burst, Level(s, key, now) + Earned(s.perSecond, later - now))
  {
    hide Earned;
    EarnedAdds(s.perSecond, now, later - now);
    if key in s.buckets {
      var last := s.buckets[key].last;
      EarnedAdds(s.perSecond, now - last, later - now);
      EarnedAdds(s.perSecond, 0, now - last);
    }
  }

  /** Sweeping and topping up change no level, at any time from now on. */
  lemma RefillKeepsLevels(s: State, key: string, now: int, sweeping: bool)
    requires Valid(s, now)
    ensures var r := Refill(s, key, now, sweeping);
            Valid(r, now) && r.perSecond == s.perSecond && r.burst == s.burst &&
            r.buckets[key].tokens == Level(s, key, now) && r.buckets[key].last == now &&
            forall k :: Level(r, k, now) == Level(s, k, now)
  {
    hide Earned;
    EarnedAdds(s.perSecond, 0, 0);
    var r := Refill(s, key, now, sweeping);
    forall k
      ensures Level(r, k, now) == Level(s, k, now) && (k in r.buckets ==> 0.0 <= r.buckets[k].tokens <= s.burst)
    {
      if k in s.buckets { EarnedAdds(s.perSecond, 0, now - s.buckets[k].last); }
    }
    if key in s.buckets { EarnedAdds(s.perSecond, 0, now - s.buckets[key].last); }
  }

  /**
   * The sweep: a call other than a reset first drops exactly the idle buckets, those that have refilled completely,
   * if the last sweep is at least a minute ago, and drops none before; besides, only its own key gets a bucket.
   */
  lemma SweepsOnceAMinute(s: State, call: Call, now: int, k: string)
    requires s.perSecond != 0.0 && !call.Reset? && k != call.key
    ensures var r, due := Do(s, call, now, true).0, s.lastSweep.None? || now - s.lastSweep.value >= 60 * SECOND;
            r.lastSweep == (if due then Some(now) else s.lastSweep) &&
            (k in r.buckets <==>
               k in s.buckets &&
               !(due && s.buckets[k].tokens + Earned(s.perSecond, now - s.buckets[k].last) >= s.burst)) &&
            (k in r.buckets ==> r.buckets[k] == s.buckets[k])
  {
    hide Earned;
  }

  /** What a call does to every key's level, and what it answers: a function of the level alone. */
  lemma CallByLevel(s: State, call: Call, now: int, sweeping: bool)
    requires Valid(s, now)
    ensures var (r, answer) := Do(s, call, now, sweeping);
            var level := Level(s, call.key, now);
            Valid(r, now) && r.perSecond == s.perSecond && r.burst == s.burst &&
            (forall k | k != call.key :: Level(r, k, now) == Level(s, k, now)) &&
            Level(r, call.key, now) == (match call
                                        case Allow(_) => if level < 1.0 then level else level - 1.0
                                        case Refund(_) => Min(s.burst, level + 1.0)
                                        case Reset(_) => s.burst) &&
            answer == (match call
                       case Allow(_) => if level < 1.0
                         then Refused(Ceil((1.0 - level) / s.perSecond * SECOND as real)) else Allowed
                       case _ => Nothing)
  {
    hide Earned, Sweep, TopUp;
    EarnedAdds(s.perSecond, 0, 0);
    LevelRises(s, call.key, now, now);
    if !call.Reset? {
      hide Refill;
      RefillKeepsLevels(s, call.key, now, sweeping);
      var r, r' := Refill(s, call.key, now, sweeping), Do(s, call, now, sweeping).0;
      forall k | k != call.key ensures Level(r', k, now) == Level(r, k, now) {}
    }
  }

  // ---------------------------------------------------------------- runs

  datatype Event = Event(call: Call, at: int)

  /** Calls under a monotone clock that has reached `from` and does not pass `until`. */
  predicate Between(events: seq<Event>, from: int, until: int) {
    from <= until &&
    (events != [] ==> from <= events[0].at && Between(events[1..], events[0].at, until))
  }

  function After(s: State, events: seq<Event>, sweeping: bool): State
    requires s.perSecond != 0.0
    decreases events
  {
    if events == [] then s
    else
      var r := Do(s, events[0].call, events[0].at, sweeping).0;
      DoKeepsRate(s, events[0].call, events[0].at, sweeping);
      After(r, events[1..], sweeping)
  }

  function Answers(s: State, events: seq<Event>, sweeping: bool): seq<Answer>
    requires s.perSecond != 0.0
    decreases events
  {
    if events == [] then []
    else
      var (r, answer) := Do(s, events[0].call, events[0].at, sweeping);
      DoKeepsRate(s, events[0].call, events[0].at, sweeping);
      [answer] + Answers(r, events[1..], sweeping)
  }

  lemma DoKeepsRate(s: State, call: Call, now: int, sweeping: bool)
    requires s.perSecond != 0.0
    ensures Do(s, call, now, sweeping).0.perSecond == s.perSecond
  {
  }

  ghost predicate SameLevels(s: State, t: State, now: int) {
    s.perSecond == t.perSecond && s.burst == t.burst && forall k :: Level(s, k, now) == Level(t, k, now)
  }

  lemma {:induction false} SameLevelsSameAnswers(s: State, t: State, events: seq<Event>, now: int, until: int)
    requires Valid(s, now) && Valid(t, now) && SameLevels(s, t, now) && Between(events, now, until)
    ensures Answers(s, events, true) == Answers(t, events, false)
    decreases events
  {
    if events != [] {
      var Event(call, at) := events[0];
      hide Do, Level;
      forall k ensures Level(s, k, at) == Level(t, k, at) {
        LevelRises(s, k, now, at);
        LevelRises(t, k, now, at);
      }
      LevelRises(s, call.key, now, at);
      LevelRises(t, call.key, now, at);
      CallByLevel(s, call, at, true);
      CallByLevel(t, call, at, false);
      SameLevelsSameAnswers(Do(s, call, at, true).0, Do(t, call, at, false).0, events[1..], at, until);
    }
  }

  /** No caller can tell a limiter that sweeps idle buckets from one that never does. */
  lemma SweepingIsUnobservable(perMinute: int, burst: int, events: seq<Event>, now: int, until: int)
    requires perMinute > 0 && burst > 0 && Between(events, now, until)
    ensures Answers(New(perMinute, burst), events, true) == Answers(New(perMinute, burst), events, false)
  {
    var s := New(perMinute, burst);
    assert s.perSecond > 0.0;
    SameLevelsSameAnswers(s, s, events, now, until);
  }

  /** How many calls for key were allowed, less how many gave a token back. */
  function Spent(s: State, events: seq<Event>, key: string): int
    requires s.perSecond != 0.0
    decreases events
  {
    if events == [] then 0
    else
      var Event(call, at) := events[0];
      var (r, answer) := Do(s, call, at, true);
      DoKeepsRate(s, call, at, true);
      (if call == Allow(key) && answer.Allowed? then 1 else if call == Refund(key) then -1 else 0) +
      Spent(r, events[1..], key)
  }

  predicate NoResetOf(events: seq<Event>, key: string) {
    forall i | 0 <= i < |events| :: events[i].call != Reset(key)
  }

  /** What is spent and what is left never exceed what there was and what was earned. */
  lemma {:induction false} BudgetHolds(s: State, events: seq<Event>, key: string, now: int, until: int)
    requires Valid(s, now) && Between(events, now, until) && NoResetOf(events, key)
    ensures Valid(After(s, events, true), until)
    ensures Spent(s, events, key) as real + Level(After(s, events, true), key, until) <=
            Level(s, key, now) + Earned(s.perSecond, until - now)
    decreases events
  {
    hide Do, Earned, Level;
    if events == [] {
      LevelRises(s, key, now, until);
      EarnedAdds(s.perSecond, 0, until - now);
    } else {
      var Event(call, at) := events[0];
      assert NoResetOf(events[1..], key) && call != Reset(key);
      LevelRises(s, key, now, at);
      LevelRises(s, call.key, now, at);
      CallByLevel(s, call, at, true);
      BudgetHolds(Do(s, call, at, true).0, events[1..], key, at, until);
      EarnedAdds(s.perSecond, at - now, until - at);
    }
  }

  /** Within any stretch of time T, at most burst + rate * T calls are allowed net of refunds. */
  lemma RateIsBounded(s: State, events: seq<Event>, key: string, now: int, until: int)
    requires Valid(s, now) && Between(events, now, until) && NoResetOf(events, key)
    ensures Spent(s, events, key) as real <= s.burst + Earned(s.perSecond, until - now)
  {
    hide Earned, Level;
    BudgetHolds(s, events, key, now, until);
    LevelRises(s, key, now, now);
    LevelRises(After(s, events, true), key, until, until);
    RateIsKept(s, events);
  }

  lemma {:induction false} RateIsKept(s: State, events: seq<Event>)
    requires s.perSecond != 0.0
    ensures After(s, events, true).burst == s.burst && After(s, events, true).perSecond == s.perSecond
    decreases events
  {
    if events != [] {
      DoKeepsRate(s, events[0].call, events[0].at, true);
      RateIsKept(Do(s, events[0].call, events[0].at, true).0, events[1..]);
    }
  }

  /** Only attempts for key, and anything for other keys. */
  predicate PollsOnly(events: seq<Event>, key: string) {
    forall i | 0 <= i < |events| :: events[i].call.key == key ==> events[i].call.Allow?
  }

  /** While key has less than one token, polling it leaves its level alone. */
  lemma {:induction false} PollingIsRefused(s: State, events: seq<Event>, key: string, now: int, until: int)
    requires Valid(s, now) && Between(events, now, until) && PollsOnly(events, key)
    requires Level(s, key, now) + Earned(s.perSecond, until - now) < 1.0
    ensures |Answers(s, events, true)| == |events|
    ensures forall i | 0 <= i < |events| && events[i].call.key == key :: Answers(s, events, true)[i].Refused?
    ensures var r := After(s, events, true);
            Valid(r, until) && r.perSecond == s.perSecond && r.burst == s.burst &&
            Level(r, key, until) == Level(s, key, now) + Earned(s.perSecond, until - now)
    decreases events
  {
    hide Do, Earned, Level;
    if events == [] {
      LevelRises(s, key, now, until);
    } else {
      var Event(call, at) := events[0];
      BetweenEnds(events[1..], at, until);
      EarnedAdds(s.perSecond, at - now, until - at);
      EarnedAdds(s.perSecond, 0, at - now);
      LevelRises(s, key, now, at);
      LevelRises(s, call.key, now, at);
      CallByLevel(s, call, at, true);
      var r := Do(s, call, at, true).0;
      assert PollsOnly(events[1..], key) by {
        forall i | 0 <= i < |events[1..]| ensures events[1..][i] == events[i + 1] {}
      }
      PollingIsRefused(r, events[1..], key, at, until);
      var answers := Answers(s, events, true);
      forall i | 0 <= i < |events| && events[i].call.key == key ensures answers[i].Refused? {
        if i > 0 { assert events[i] == events[1..][i - 1] && answers[i] == Answers(r, events[1..], true)[i - 1]; }
      }
    }
  }

  lemma BetweenEnds(events: seq<Event>, from: int, until: int)
    requires Between(events, from, until)
    ensures from <= until
  {
  }

  /**
   * A refusal's wait is exact: however often key is polled meanwhile, every attempt up to one
   * nanosecond before the wait is over is refused, and the attempt made when it is over succeeds.
   */
  lemma WaitIsExact(s: State, key: string, now: int, wait: int, polls: seq<Event>, until: int)
    requires Valid(s, now) && Do(s, Allow(key), now, true).1 == Refused(wait)
    requires Between(polls, now, until) && until < now + wait && PollsOnly(polls, key)
    ensures var r := Do(s, Allow(key), now, true).0;
            r.perSecond == s.perSecond && |Answers(r, polls, true)| == |polls| &&
            (forall i | 0 <= i < |polls| && polls[i].call.key == key :: Answers(r, polls, true)[i].Refused?) &&
            After(r, polls, true).perSecond == s.perSecond &&
            Do(After(r, polls, true), Allow(key), now + wait, true).1 == Allowed
  {
    hide Do, Earned, Level;
    var r, level := Do(s, Allow(key), now, true).0, Level(s, key, now);
    CallByLevel(s, Allow(key), now, true);
    EarnedCovers(s.perSecond, 1.0 - level, until - now);
    EarnedCovers(s.perSecond, 1.0 - level, wait);
    PollingIsRefused(r, polls, key, now, until);
    var t := After(r, polls, true);
    LevelRises(t, key, until, now + wait);
    EarnedAdds(s.perSecond, until - now, now + wait - until);
    CallByLevel(t, Allow(key), now + wait, true);
  }
}
