/** The limiter as the object the API holds: a map of buckets updated under its mutex. */
module LimiterObject {
  import opened Wrappers
  import opened RateLimit

  class Limiter {
    const perSecond: real
    const burst: real
    var buckets: map<string, Bucket>
    var lastSweep: Option<int>

    function Snapshot(): State
      reads this
    {
      State(perSecond, burst, buckets, lastSweep)
    }

    constructor (perMinute: int, burst: int)
      requires perMinute > 0 && burst > 0
      ensures Snapshot() == New(perMinute, burst)
      ensures forall now :: Valid(Snapshot(), now)
    {
      perSecond := perMinute as real / 60.0;
      this.burst := burst as real;
      buckets := map[];
      lastSweep := None;
    }

    /** Deletes the buckets that have refilled completely, once a minute. */
    method SweepIdle(now: int)
      modifies this
      ensures Snapshot() == Sweep(old(Snapshot()), now)
    {
      if lastSweep.Some? && now - lastSweep.value < SWEEP_EVERY { return; }
      lastSweep := Some(now);
      ghost var before := buckets;
      var unseen := buckets.Keys;
      while unseen != {}
        invariant unseen <= before.Keys && lastSweep == Some(now)
        invariant forall k :: k in buckets <==>
                              k in before && (k in unseen || !Full(old(Snapshot()), before[k], now))
        invariant forall k | k in buckets :: buckets[k] == before[k]
        decreases unseen
      {
        var k :| k in unseen;
        unseen := unseen - {k};
        if buckets[k].tokens + Earned(perSecond, now - buckets[k].last) >= burst {
          buckets := buckets - {k};
        }
      }
    }

    method RefillBucket(key: string, now: int)
      modifies this
      ensures Snapshot() == Refill(old(Snapshot()), key, now, true)
    {
      SweepIdle(now);
      if key !in buckets {
        buckets := buckets[key := Bucket(burst, now)];
        return;
      }
      var b := buckets[key];
      if now - b.last > 0 {
        buckets := buckets[key := Bucket(Min(burst, b.tokens + Earned(perSecond, now - b.last)), now)];
      } else {
        assert buckets[key := b] == buckets;
      }
    }

    method TryTake(key: string, now: int) returns (answer: Answer)
      requires Valid(Snapshot(), now)
      modifies this
      ensures (Snapshot(), answer) == Do(old(Snapshot()), Allow(key), now, true) && Valid(Snapshot(), now)
    {
      CallByLevel(Snapshot(), Allow(key), now, true);
      RefillBucket(key, now);
      var b := buckets[key];
      if b.tokens < 1.0 { return Refused(Wait(Snapshot(), b)); }
      buckets := buckets[key := b.(tokens := b.tokens - 1.0)];
      return Allowed;
    }

    method GiveBack(key: string, now: int)
      requires Valid(Snapshot(), now)
      modifies this
      ensures Snapshot() == Do(old(Snapshot()), Refund(key), now, true).0 && Valid(Snapshot(), now)
    {
      CallByLevel(Snapshot(), Refund(key), now, true);
      RefillBucket(key, now);
      var b := buckets[key];
      buckets := buckets[key := b.(tokens := Min(burst, b.tokens + 1.0))];
    }

    method Forget(key: string, now: int)
      requires Valid(Snapshot(), now)
      modifies this
      ensures Snapshot() == Do(old(Snapshot()), Reset(key), now, true).0 && Valid(Snapshot(), now)
    {
      CallByLevel(Snapshot(), Reset(key), now, true);
      buckets := buckets - {key};
    }
  }
}
