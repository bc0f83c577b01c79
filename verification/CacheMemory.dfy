/**
 The in-memory driver: sixteen maps, each key in the one its hash names.
 Whatever the hash, the methods do to the shards together what the same
 operation does to one flat map.
 */
module CacheMemory {
  import opened Basics
  import opened CacheFlat
  import CacheRuns

  const SHARDS := 16

  function ShardOf(hash: Key -> nat, k: Key): (i: nat)
    ensures i < SHARDS
  {
    hash(k) % SHARDS
  }

  /** The key is in the one shard that may hold it. */
  predicate Sorted(shards: seq<Flat>, hash: Key -> nat) {
    && |shards| == SHARDS
    && forall i, k :: 0 <= i < SHARDS && k in shards[i] ==> ShardOf(hash, k) == i
  }

  /** Every key of every shard. */
  function KeysOf(shards: seq<Flat>): (r: set<Key>)
    ensures forall k :: k in r <==> exists i :: 0 <= i < |shards| && k in shards[i]
  {
    if shards == [] then {} else
      var rest := KeysOf(shards[..|shards| - 1]);
      assert forall k, i :: 0 <= i < |shards| && k in shards[i] && i != |shards| - 1 ==> k in shards[..|shards| - 1][i];
      rest + shards[|shards| - 1].Keys
  }

  /** The shards as one map. */
  function Flatten(shards: seq<Flat>, hash: Key -> nat): (m: Flat)
    requires |shards| == SHARDS
    ensures forall k :: k in m <==> k in shards[ShardOf(hash, k)]
    ensures forall k :: k in m ==> m[k] == shards[ShardOf(hash, k)][k]
  {
    map k | k in KeysOf(shards) && k in shards[ShardOf(hash, k)] :: shards[ShardOf(hash, k)][k]
  }

  class MemoryStore {
    const hash: Key -> nat
    const parse: Parse
    const shards: array<Flat>

    ghost predicate Valid()
      reads this, shards
    {
      shards.Length == SHARDS && Sorted(shards[..], hash)
    }

    /** What the store holds, expired entries included. */
    ghost function Contents(): Flat
      requires Valid()
      reads this, shards
    {
      Flatten(shards[..], hash)
    }

    constructor (hash: Key -> nat, parse: Parse)
      ensures Valid() && Contents() == map[] && this.hash == hash && this.parse == parse && fresh(shards)
    {
      this.hash := hash;
      this.parse := parse;
      shards := new Flat[SHARDS](_ => map[]);
    }

    /** Replace what one key's shard holds for it. */
    method Insert(k: Key, e: Entry)
      requires Valid()
      modifies shards
      ensures Valid() && Contents() == old(Contents())[k := e]
    {
      var i := ShardOf(hash, k);
      shards[i] := shards[i][k := e];
      FlattenAt(old(shards[..]), shards[..], hash, k);
    }

    method Drop(k: Key)
      requires Valid()
      modifies shards
      ensures Valid() && Contents() == old(Contents()) - {k}
    {
      var i := ShardOf(hash, k);
      shards[i] := shards[i] - {k};
      FlattenAt(old(shards[..]), shards[..], hash, k);
    }

    /** Read a key; an expired entry is evicted on the way. */
    method Read(k: Key, now: int) returns (r: Option<Value>)
      requires Valid()
      modifies shards
      ensures Valid() && r == Lookup(old(Contents()), k, now)
      ensures Contents() == if k in old(Contents()) && r.None? then old(Contents()) - {k} else old(Contents())
      ensures var (store, answer) := CacheRuns.RunSection(parse, old(Contents()), CacheRuns.Get(k), now);
              if answer.Some? then (Contents(), CacheRuns.Found(r)) == (store, answer.value)
              else (Contents(), r) == CacheRuns.RunRetry(store, k, now)
    {
      var i := ShardOf(hash, k);
      if k !in shards[i] {
        return None;
      }
      if !shards[i][k].Expired(now) {
        return Some(shards[i][k].value);
      }
      Drop(k);
      r := None;
    }

    method Write(k: Key, v: Value, deadline: Option<int>)
      requires Valid()
      modifies shards
      ensures Valid() && Contents() == old(Contents())[k := Entry(v, deadline)]
    {
      Insert(k, Entry(v, deadline));
    }

    /** Remove a key; one that had expired already does not count as removed. */
    method Remove(k: Key, now: int) returns (removed: bool)
      requires Valid()
      modifies shards
      ensures Valid() && Contents() == old(Contents()) - {k}
      ensures removed <==> Lookup(old(Contents()), k, now).Some?
      ensures CacheRuns.RunSection(parse, old(Contents()), CacheRuns.Remove(k), now)
              == (Contents(), Some(CacheRuns.Removed(removed)))
    {
      var i := ShardOf(hash, k);
      removed := k in shards[i] && !shards[i][k].Expired(now);
      Drop(k);
    }

    /** Store with a time to live; none at all removes the key. */
    method Put(k: Key, v: Value, ttl: nat, now: int)
      requires Valid()
      modifies shards
      ensures Valid()
      ensures Contents() == if ttl == 0 then old(Contents()) - {k} else old(Contents())[k := Entry(v, Some(now + ttl))]
      ensures ttl > 0 ==> Lookup(Contents(), k, now) == Some(v)
    {
      hide Flatten, KeysOf, Sorted;
      if ttl == 0 {
        var removed := Remove(k, now);
        return;
      }
      Write(k, v, Some(now + ttl));
    }

    /** Increment in one go. */
    method Bump(k: Key, delta: int, ttl: Option<nat>, now: int) returns (next: int)
      requires Valid()
      modifies shards
      ensures Valid() && Contents() == old(Contents())[k := Bumped(parse, old(Contents()), k, delta, ttl, now, now)]
      ensures CacheRuns.RunSection(parse, old(Contents()), CacheRuns.Bump(k, delta, ttl), now)
              == (Contents(), Some(CacheRuns.Count(next)))
    {
      hide Flatten, Sorted, Bumped, Counter, CacheRuns.RunSection;
      BumpIsSection(parse, Contents(), k, delta, ttl, now);
      var e := AfterBump(k, delta, ttl, now);
      next := e.value.n;
      Insert(k, e);
    }

    /** The entry an increment leaves in the shard. */
    method AfterBump(k: Key, delta: int, ttl: Option<nat>, now: int) returns (e: Entry)
      requires Valid()
      ensures e == Bumped(parse, Contents(), k, delta, ttl, now, now)
    {
      hide KeysOf, ShardOf, Sorted, Counter;
      var i := ShardOf(hash, k);
      if k in shards[i] && !shards[i][k].Expired(now) {
        e := Entry(Number(Counter(parse, shards[i][k].value) + delta), shards[i][k].deadline);
      } else {
        e := Entry(Number(delta), if ttl.Some? then Some(now + ttl.value) else None);
      }
    }

    /** Drop every expired entry, one shard after another. */
    method Sweep(now: int)
      requires Valid()
      modifies shards
      ensures Valid() && Contents() == Unexpired(old(Contents()), now)
      ensures forall k, c :: c >= now ==> Lookup(Contents(), k, c) == Lookup(old(Contents()), k, c)
    {
      hide Flatten, Sorted, Unexpired;
      for i := 0 to SHARDS
        invariant forall j :: 0 <= j < i ==> shards[j] == Unexpired(old(shards[j]), now)
        invariant forall j :: i <= j < SHARDS ==> shards[j] == old(shards[j])
      {
        shards[i] := Unexpired(shards[i], now);
      }
      SweepFlattens(old(shards[..]), shards[..], hash, now);
      SweepIsInvisible(old(Contents()), now);
    }

    /** How many unexpired entries there are. */
    method LiveCount(now: int) returns (n: nat)
      requires Valid()
      ensures n == |Unexpired(Contents(), now)|
    {
      hide Flatten, Sorted, Unexpired, LiveBelow;
      n := 0;
      NoShardsYet(shards[..], hash, now);
      for i := 0 to SHARDS
        invariant n == |LiveBelow(shards[..], hash, now, i)|
      {
        OneMoreShard(shards[..], hash, now, i);
        n := n + |Unexpired(shards[i], now)|;
      }
      AllShards(shards[..], hash, now);
    }

    /** Empty the store, one shard after another. */
    method Flush()
      requires Valid()
      modifies shards
      ensures Valid() && Contents() == map[]
    {
      for i := 0 to SHARDS
        invariant forall j :: 0 <= j < i ==> shards[j] == map[]
        invariant forall j :: i <= j < SHARDS ==> shards[j] == old(shards[j])
      {
        shards[i] := map[];
      }
    }

    method Ttl(k: Key, now: int) returns (r: Option<int>)
      requires Valid()
      ensures r == TimeLeft(Contents(), k, now)
      ensures CacheRuns.RunSection(parse, Contents(), CacheRuns.Ttl(k), now) == (Contents(), Some(CacheRuns.Left(r)))
      ensures r.Some? ==> r.value > 0
    {
      var i := ShardOf(hash, k);
      if k in shards[i] && !shards[i][k].Expired(now) && shards[i][k].deadline.Some? {
        var left := shards[i][k].deadline.value - now;
        return Some(if left < 0 then 0 else left);
      }
      r := None;
    }
  }

  /** A change to one key in its shard is a change to that key of the flat map. */
  lemma FlattenAt(a: seq<Flat>, b: seq<Flat>, hash: Key -> nat, k: Key)
    requires Sorted(a, hash) && |b| == SHARDS
    requires forall i :: 0 <= i < SHARDS && i != ShardOf(hash, k) ==> b[i] == a[i]
    requires forall x :: x != k ==>
               (x in b[ShardOf(hash, k)] <==> x in a[ShardOf(hash, k)])
               && (x in a[ShardOf(hash, k)] ==> b[ShardOf(hash, k)][x] == a[ShardOf(hash, k)][x])
    ensures Sorted(b, hash)
    ensures var at := b[ShardOf(hash, k)];
            Flatten(b, hash) == if k in at then Flatten(a, hash)[k := at[k]] else Flatten(a, hash) - {k}
  {
    hide Flatten, KeysOf, ShardOf;
    var s := ShardOf(hash, k);
    forall x
      ensures x != k ==> (x in b[ShardOf(hash, x)] <==> x in a[ShardOf(hash, x)])
      ensures x != k && x in a[ShardOf(hash, x)] ==> b[ShardOf(hash, x)][x] == a[ShardOf(hash, x)][x]
    {
      assert ShardOf(hash, x) != s ==> b[ShardOf(hash, x)] == a[ShardOf(hash, x)];
    }
  }

  lemma SweepFlattens(a: seq<Flat>, b: seq<Flat>, hash: Key -> nat, now: int)
    requires Sorted(a, hash) && |b| == SHARDS && forall j :: 0 <= j < SHARDS ==> b[j] == Unexpired(a[j], now)
    ensures Sorted(b, hash) && Flatten(b, hash) == Unexpired(Flatten(a, hash), now)
  {
    hide KeysOf, ShardOf, Flatten;
  }

  /** What a sweep takes away no later reading can see. */
  lemma SweepIsInvisible(m: Flat, now: int)
    ensures forall k, c :: c >= now ==> Lookup(Unexpired(m, now), k, c) == Lookup(m, k, c)
  {}

  /** The live keys of the first `n` shards. */
  ghost function LiveBelow(shards: seq<Flat>, hash: Key -> nat, now: int, n: nat): set<Key>
    requires |shards| == SHARDS
  {
    set k | k in Flatten(shards, hash) && ShardOf(hash, k) < n && !Flatten(shards, hash)[k].Expired(now)
  }

  lemma NoShardsYet(shards: seq<Flat>, hash: Key -> nat, now: int)
    requires |shards| == SHARDS
    ensures LiveBelow(shards, hash, now, 0) == {}
  {
    hide Flatten, ShardOf;
  }

  lemma OneMoreShard(shards: seq<Flat>, hash: Key -> nat, now: int, n: nat)
    requires Sorted(shards, hash) && n < SHARDS
    ensures |LiveBelow(shards, hash, now, n + 1)| == |LiveBelow(shards, hash, now, n)| + |Unexpired(shards[n], now)|
  {
    hide Flatten, KeysOf, ShardOf;
    var below, more := LiveBelow(shards, hash, now, n), Unexpired(shards[n], now).Keys;
    assert LiveBelow(shards, hash, now, n + 1) == below + more;
    assert below !! more;
    assert |Unexpired(shards[n], now)| == |more|;
  }

  lemma AllShards(shards: seq<Flat>, hash: Key -> nat, now: int)
    requires |shards| == SHARDS
    ensures |LiveBelow(shards, hash, now, SHARDS)| == |Unexpired(Flatten(shards, hash), now)|
  {
    hide Flatten, KeysOf;
    assert LiveBelow(shards, hash, now, SHARDS) == Unexpired(Flatten(shards, hash), now).Keys;
  }

  lemma BumpIsSection(parse: Parse, m: Flat, k: Key, delta: int, ttl: Option<nat>, now: int)
    ensures var e := Bumped(parse, m, k, delta, ttl, now, now);
            e.value.Number? && CacheRuns.RunSection(parse, m, CacheRuns.Bump(k, delta, ttl), now)
                == (m[k := e], Some(CacheRuns.Count(e.value.n)))
  {
    hide Counter;
  }
}
