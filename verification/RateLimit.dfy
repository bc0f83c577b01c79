/**
 The rate limiter: attempts counted per key and time slot, through an atomic
 increment whose counter outlives its slot by a second.
 */
module RateLimit {
  import opened Basics
  import opened BitString
  import opened Decimals
  import opened CacheFlat
  import CacheRuns
  import CacheMemory

  const NAMESPACE := "rustlavel:throttle:"
  const SLACK := 1000

  /** Where an attempt stands. */
  datatype Standing = Standing(limit: nat, used: nat, remaining: nat, resetAfter: nat, exceeded: bool)

  /** A window is at least a millisecond. */
  function Window(window: nat): (w: nat)
    ensures w > 0
  {
    if window == 0 then 1 else window
  }

  function CounterKey(key: string, slot: nat): Key {
    NAMESPACE + key + ":" + Decimal(slot)
  }

  /** The counter an attempt on `key` at `now` is counted in. */
  function CounterOf(key: string, window: nat, now: nat): Key {
    CounterKey(key, now / Window(window))
  }

  /** No two keys or slots share a counter, whatever colons the keys contain. */
  lemma CountersAreApart(k: string, m: nat, l: string, n: nat)
    requires CounterKey(k, m) == CounterKey(l, n)
    ensures k == l && m == n
  {
    var a, b := NAMESPACE + k, NAMESPACE + l;
    var s, t := Decimal(m), Decimal(n);
    DecimalHasNoColon(m);
    DecimalHasNoColon(n);
    assert CounterKey(k, m) == a + [':'] + s && CounterKey(l, n) == b + [':'] + t;
    LastColon(a, s, b, t);
    assert a[|NAMESPACE|..] == k && b[|NAMESPACE|..] == l;
    DecimalIsInjective(m, n);
  }

  lemma LastColon(a: string, s: string, b: string, t: string)
    requires a + [':'] + s == b + [':'] + t && ':' !in s && ':' !in t
    ensures a == b && s == t
  {
    var x, y := a + [':'] + s, b + [':'] + t;
    assert x[|a|] == ':' && y[|b|] == ':';
    NoColonAfter(a, s);
    NoColonAfter(b, t);
    assert |a| == |b|;
    assert x[..|a|] == a && y[..|b|] == b && x[|a| + 1..] == s && y[|b| + 1..] == t;
  }

  lemma NoColonAfter(a: string, s: string)
    requires ':' !in s
    ensures forall i :: |a| < i < |a + [':'] + s| ==> (a + [':'] + s)[i] != ':'
  {
    var x := a + [':'] + s;
    forall i | |a| < i < |x|
      ensures x[i] != ':'
    {
      assert x[i] == s[i - |a| - 1];
    }
  }

  /** The slot of a reading begins at or before it and ends within one window after it. */
  lemma SlotAround(now: nat, w: nat)
    requires w > 0
    ensures now / w * w <= now < (now / w + 1) * w <= now + w
  {
    assert now == now / w * w + now % w;
    assert (now / w + 1) * w == now / w * w + w;
  }

  /** The time between two multiples of the window; a window of nothing counts as a millisecond. */
  predicate InSlot(window: nat, slot: nat, t: nat) {
    if window == 0 then t == slot else slot * window <= t < (slot + 1) * window
  }

  /** Time is cut at the multiples of the window, and every piece has a counter of its own. */
  lemma CounterIsOfSlot(key: string, window: nat, now: nat, slot: nat)
    ensures InSlot(window, slot, now) ==>
            CounterOf(key, window, now) == "rustlavel:throttle:" + key + ":" + Decimal(slot)
    ensures InSlot(window, slot, now) <==> slot == now / Window(window)
  {
    SlotAround(now, Window(window));
    if InSlot(window, slot, now) && window > 0 {
      assert (slot + 1) * window == slot * window + window;
      QuotientIs(now, window, slot, now - slot * window);
    }
  }

  /** Two readings use one counter exactly if they lie between the same two multiples of the window. */
  lemma OneCounterExactly(key: string, window: nat, a: nat, b: nat)
    ensures CounterOf(key, window, a) == CounterOf(key, window, b) <==>
              exists slot :: InSlot(window, slot, a) && InSlot(window, slot, b)
  {
    hide CounterKey, InSlot;
    var m, n := a / Window(window), b / Window(window);
    CounterIsOfSlot(key, window, a, m);
    CounterIsOfSlot(key, window, b, n);
    if m == n {
      assert InSlot(window, m, a) && InSlot(window, m, b);
    } else {
      if CounterOf(key, window, a) == CounterOf(key, window, b) {
        CountersAreApart(key, m, key, n);
      }
      forall slot | InSlot(window, slot, a)
        ensures !InSlot(window, slot, b)
      {
        CounterIsOfSlot(key, window, a, slot);
        CounterIsOfSlot(key, window, b, slot);
      }
    }
  }

  /** The window is not part of the counter: two limits on one key count together when their slots have one number. */
  lemma WindowsShareCounters(key: string, v: nat, w: nat, a: nat, b: nat)
    requires v > 0 && w > 0
    ensures CounterOf(key, v, a) == CounterOf(key, w, b) <==> a / v == b / w
  {
    hide CounterKey;
    if CounterOf(key, v, a) == CounterOf(key, w, b) {
      CountersAreApart(key, a / v, key, b / w);
    }
  }

  class RateLimiter {
    const store: CacheMemory.MemoryStore

    constructor (store: CacheMemory.MemoryStore)
      ensures this.store == store
    {
      this.store := store;
    }

    /** Record one attempt: the limiter reads its clock, then the store its own. */
    method Attempt(key: string, limit: nat, window: nat, now: nat, storeNow: int) returns (r: Standing)
      requires store.Valid()
      modifies store.shards
      ensures store.Valid()
      ensures var k, ttl := CounterOf(key, window, now), (if window == 0 then 1 else window) + 1000;
              && store.Contents() == old(store.Contents())[k :=
                 Bumped(store.parse, old(store.Contents()), k, 1, Some(ttl), storeNow, storeNow)]
              && r.used == (var n := Counter(store.parse, store.Contents()[k].value); if n < 0 then 0 else n)
      ensures r.limit == limit && (r.exceeded <==> r.used > limit)
      ensures r.remaining + r.used == limit || (r.remaining == 0 && r.used > limit)
      ensures if window == 0 then r.resetAfter == 1
              else 0 < r.resetAfter <= window && (now + r.resetAfter) % window == 0
    {
      hide CounterKey, ResetAfter, CacheMemory.Flatten, CacheMemory.Sorted;
      var w := Window(window);
      var slot := now / w;
      var counted := store.Bump(CounterKey(key, slot), 1, Some(w + SLACK), storeNow);
      var used := if counted < 0 then 0 else counted;
      ResetIsNextMultiple(now, w);
      r := Standing(limit, used, if used < limit then limit - used else 0, ResetAfter(now, w), used > limit);
    }

    /** How many attempts the key has made in the current slot; asking costs nothing but an eviction. */
    method Used(key: string, window: nat, now: nat, storeNow: int) returns (n: nat)
      requires store.Valid()
      modifies store.shards
      ensures store.Valid()
      ensures var found := Lookup(old(store.Contents()), CounterOf(key, window, now), storeNow);
              n == if found.Some? && found.value.Number? && found.value.n > 0 then found.value.n else 0
      ensures forall k, c :: c >= storeNow ==> Lookup(store.Contents(), k, c) == Lookup(old(store.Contents()), k, c)
    {
      hide CounterKey, CacheRuns.RunSection, CacheRuns.RunRetry;
      var found := store.Read(CounterKey(key, now / Window(window)), storeNow);
      n := match found
        case Some(Number(m)) => if m > 0 then m else 0
        case _ => 0;
    }

    /** Forget the current slot of a key. */
    method Clear(key: string, window: nat, now: nat, storeNow: int)
      requires store.Valid()
      modifies store.shards
      ensures store.Valid() && store.Contents() == old(store.Contents()) - {CounterOf(key, window, now)}
    {
      var removed := store.Remove(CounterKey(key, now / Window(window)), storeNow);
    }
  }

  function ResetAfter(now: nat, w: nat): (r: int)
    requires w > 0
  {
    (now / w + 1) * w - now
  }

  /** The reset is the next multiple of the window: never now, never more than a window away. */
  lemma ResetIsNextMultiple(now: nat, w: nat)
    requires w > 0
    ensures 0 < ResetAfter(now, w) <= w && (now + ResetAfter(now, w)) % w == 0
  {
    SlotAround(now, w);
    QuotientIs((now / w + 1) * w, w, now / w + 1, 0);
  }
}
