/**
 The session middleware: load, run the handler, record the page, age the
 flash, and then skip the write or destroy the old record and write the new.
 */
module SessionMiddleware {
  import opened Basics
  import opened Session

  /** What a store keeps under a session's id. */
  datatype Payload = Payload(data: map<Key, Value>, flash: set<Key>, updatedAt: nat)

  type Store = map<Id, Payload>

  /** One request: the id its cookie proves, what its handler does, and whether it is a page to return to. */
  datatype Request = Request(presented: Option<Id>, ops: seq<Op>, page: bool, target: Value, now: nat, newId: Id)

  /** What a store would keep of a session written now. */
  function ToPayload(s: Sess, now: nat): Payload {
    Payload(s.data, s.stale, now)
  }

  function FromPayload(id: Id, p: Payload): Sess {
    Sess(id, p.data, {}, p.flash, false)
  }

  predicate IsLive(updatedAt: nat, now: nat, lifetime: nat) {
    (if now < updatedAt then 0 else now - updatedAt) < lifetime
  }

  /** The stored session the request belongs to, if it has one that is still live. */
  predicate Finds(store: Store, r: Request, lifetime: nat) {
    r.presented.Some? && r.presented.value in store && IsLive(store[r.presented.value].updatedAt, r.now, lifetime)
  }

  function Load(store: Store, r: Request, lifetime: nat): Sess {
    if Finds(store, r, lifetime) then FromPayload(r.presented.value, store[r.presented.value])
    else Sess(r.newId, map[], {}, {}, false)
  }

  /** What the handler and the record of the page do. */
  function AllOps(s: Sess, r: Request): seq<Op> {
    if r.page && ApplyAll(s, r.ops).dirty then r.ops + [Put(PREVIOUS_URL_KEY, r.target)] else r.ops
  }

  /** The session at the end of the request. */
  function AtEnd(s: Sess, r: Request): Sess {
    Aged(ApplyAll(s, AllOps(s, r)))
  }

  predicate Skips(loaded: Sess, end: Sess) {
    !end.dirty && end.id == loaded.id
  }

  function Saved(store: Store, existed: bool, loaded: Sess, end: Sess, now: nat): Store {
    if Skips(loaded, end) then store
    else (if existed && end.id != loaded.id then store - {loaded.id} else store)[end.id := ToPayload(end, now)]
  }

  function Served(store: Store, r: Request, lifetime: nat): Store {
    var loaded := Load(store, r, lifetime);
    Saved(store, Finds(store, r, lifetime), loaded, AtEnd(loaded, r), r.now)
  }

  class SessionManager {
    const lifetime: nat
    var store: Store

    constructor (lifetime: nat)
      ensures this.lifetime == lifetime && store == map[]
    {
      this.lifetime := lifetime;
      store := map[];
    }

    /** Serve one request; the answer is the id its cookie carries, if it gets one. */
    method Handle(r: Request) returns (cookie: Option<Id>)
      modifies this
      ensures store == Served(old(store), r, lifetime)
      ensures cookie.None? ==> store == old(store)
      ensures cookie.Some? ==> cookie.value == AtEnd(Load(old(store), r, lifetime), r).id
      ensures cookie.Some? ==> cookie.value in store && store[cookie.value].updatedAt == r.now
    {
      hide Apply, Aged, IsLive;
      var existed := Finds(store, r, lifetime);
      var s;
      if existed {
        s := new SessionObject(r.presented.value, store[r.presented.value].data, store[r.presented.value].flash);
      } else {
        s := new SessionObject(r.newId, map[], {});
      }
      ghost var loaded := s.View();
      var loadedId := s.id;
      for i := 0 to |r.ops|
        invariant s.View() == ApplyAll(loaded, r.ops[..i]) && store == old(store)
      {
        s.Do(r.ops[i]);
        assert r.ops[..i + 1][..i] == r.ops[..i];
      }
      assert r.ops[..|r.ops|] == r.ops;
      if r.page && s.dirty {
        ghost var all := r.ops + [Put(PREVIOUS_URL_KEY, r.target)];
        assert all[..|all| - 1] == r.ops;
        s.Do(Put(PREVIOUS_URL_KEY, r.target));
      }
      s.AgeFlash();
      if !s.dirty && s.id == loadedId {
        return None;
      }
      if existed && s.id != loadedId {
        store := store - {loadedId};
      }
      store := store[s.id := Payload(s.data, s.stale, r.now)];
      cookie := Some(s.id);
    }
  }

  // ----- What every sequence of requests keeps -----

  /** In every record the flashed keys are keys of the data. */
  predicate FlashWithin(store: Store) {
    forall id :: id in store ==> store[id].flash <= store[id].data.Keys
  }

  function ServedAll(store: Store, requests: seq<Request>, lifetime: nat): Store
    decreases |requests|
  {
    if requests == [] then store else ServedAll(Served(store, requests[0], lifetime), requests[1..], lifetime)
  }

  lemma EndIsTidy(store: Store, r: Request, lifetime: nat)
    requires FlashWithin(store)
    ensures var loaded := Load(store, r, lifetime);
            Tidy(loaded) && Tidy(ApplyAll(loaded, AllOps(loaded, r))) && Tidy(AtEnd(loaded, r))
  {
    var loaded := Load(store, r, lifetime);
    OpsKeepTidy(loaded, AllOps(loaded, r));
    AgingKeepsTidy(ApplyAll(loaded, AllOps(loaded, r)));
  }

  lemma ServingKeepsFlashWithin(store: Store, r: Request, lifetime: nat)
    requires FlashWithin(store)
    ensures FlashWithin(Served(store, r, lifetime))
  {
    hide Load, AtEnd, Finds, Skips;
    EndIsTidy(store, r, lifetime);
  }

  lemma {:induction false} EverySequenceKeepsFlashWithin(store: Store, requests: seq<Request>, lifetime: nat)
    requires FlashWithin(store)
    ensures FlashWithin(ServedAll(store, requests, lifetime))
    decreases |requests|
  {
    hide Served, FlashWithin;
    if requests != [] {
      ServingKeepsFlashWithin(store, requests[0], lifetime);
      EverySequenceKeepsFlashWithin(Served(store, requests[0], lifetime), requests[1..], lifetime);
    }
  }

  /** A skipped write would have stored what is stored already, but for the time. */
  lemma SkippingLosesNothing(store: Store, r: Request, lifetime: nat)
    requires FlashWithin(store) && Finds(store, r, lifetime)
    requires Skips(Load(store, r, lifetime), AtEnd(Load(store, r, lifetime), r))
    ensures Served(store, r, lifetime) == store
    ensures ToPayload(AtEnd(Load(store, r, lifetime), r), r.now) == store[r.presented.value].(updatedAt := r.now)
  {
    var loaded := Load(store, r, lifetime);
    EndIsTidy(store, r, lifetime);
    OpsMarkChange(loaded, AllOps(loaded, r));
    AgingMarksChange(loaded, ApplyAll(loaded, AllOps(loaded, r)));
  }

  /** Rotating the id leaves no record under the old one. */
  lemma OldIdIsGone(store: Store, r: Request, lifetime: nat)
    requires Finds(store, r, lifetime) && AtEnd(Load(store, r, lifetime), r).id != r.presented.value
    ensures r.presented.value !in Served(store, r, lifetime)
    ensures AtEnd(Load(store, r, lifetime), r).id in Served(store, r, lifetime)
  {}

  // ----- The life of a flash, request by request -----

  lemma {:induction false} ApplySplits(s: Sess, a: seq<Op>, b: seq<Op>)
    ensures ApplyAll(s, a + b) == ApplyAll(ApplyAll(s, a), b)
    decreases |b|
  {
    hide Apply;
    if b == [] {
      assert a + b == a;
    } else {
      var n := |b| - 1;
      assert (a + b)[..|a + b| - 1] == a + b[..n];
      ApplySplits(s, a, b[..n]);
    }
  }

  /** The page record is one more operation that leaves the key alone. */
  lemma AllOpsLeaveAlone(s: Sess, r: Request, before: seq<Op>, flash: Op, after: seq<Op>, k: Key)
    requires r.ops == before + [flash] + after && LeavesAlone(after, k) && k != PREVIOUS_URL_KEY
    ensures exists rest :: AllOps(s, r) == before + [flash] + rest && LeavesAlone(rest, k)
  {
    hide Apply;
    var rest := if AllOps(s, r) == r.ops then after else after + [Put(PREVIOUS_URL_KEY, r.target)];
    assert AllOps(s, r) == before + [flash] + rest;
    assert LeavesAlone(rest, k);
  }

  /** A key flashed in a request, and left alone after that, is stored with its value as flashed. */
  lemma FlashIsStored(store: Store, r: Request, lifetime: nat, before: seq<Op>, after: seq<Op>, k: Key, v: Value)
    requires r.ops == before + [Flash(k, v)] + after && LeavesAlone(after, k) && k != PREVIOUS_URL_KEY
    ensures var id := AtEnd(Load(store, r, lifetime), r).id;
            var after := Served(store, r, lifetime);
            id in after && k in after[id].data && after[id].data[k] == v && k in after[id].flash
                && after[id].updatedAt == r.now
  {
    hide Apply, Load, Finds, Touches;
    var loaded := Load(store, r, lifetime);
    AllOpsLeaveAlone(loaded, r, before, Flash(k, v), after, k);
    var rest :| AllOps(loaded, r) == before + [Flash(k, v)] + rest && LeavesAlone(rest, k);
    ApplySplits(loaded, before + [Flash(k, v)], rest);
    assert (before + [Flash(k, v)])[..|before|] == before;
    FlashedIsCarried(ApplyAll(loaded, before), rest, k, v);
  }

  /** In the next request of the session it is readable to the end, and then it is gone from the store. */
  lemma FlashIsReadOnceMore(store: Store, r: Request, lifetime: nat, k: Key, i: nat)
    requires Finds(store, r, lifetime) && k in store[r.presented.value].data && k in store[r.presented.value].flash
    requires LeavesAlone(r.ops, k) && NoneRenews(r.ops, k) && k != PREVIOUS_URL_KEY && i <= |r.ops|
    ensures var loaded := Load(store, r, lifetime);
            var seen := ApplyAll(loaded, r.ops[..i]).data;
            k in seen && seen[k] == store[r.presented.value].data[k]
    ensures var id := AtEnd(Load(store, r, lifetime), r).id;
            var after := Served(store, r, lifetime);
            id in after && k !in after[id].data && k !in after[id].flash
  {
    var loaded := Load(store, r, lifetime);
    var all := AllOps(loaded, r);
    hide Apply, Finds;
    assert all[..i] == r.ops[..i];
    assert LeavesAlone(all, k) && NoneRenews(all, k);
    CarriedIsReadOnceMore(loaded, all, k, i);
  }

  /** A flashed key that is left alone lives on, flashed again, exactly if the request renews it. */
  lemma RenewedExactly(store: Store, r: Request, lifetime: nat, k: Key)
    requires Finds(store, r, lifetime) && k in store[r.presented.value].data && k in store[r.presented.value].flash
    requires LeavesAlone(r.ops, k) && k != PREVIOUS_URL_KEY
    ensures var id := AtEnd(Load(store, r, lifetime), r).id;
            var after := Served(store, r, lifetime);
            if exists i :: 0 <= i < |r.ops| && Renews(r.ops[i], k)
            then id in after && k in after[id].data && after[id].data[k] == store[r.presented.value].data[k]
                 && k in after[id].flash
            else id in after && k !in after[id].data && k !in after[id].flash
  {
    var loaded := Load(store, r, lifetime);
    var all := AllOps(loaded, r);
    hide Apply;
    assert LeavesAlone(all, k);
    assert forall i :: 0 <= i < |r.ops| ==> all[i] == r.ops[i];
    RenewedIsYoung(loaded, all, k);
    UntouchedStays(loaded, all, k);
    if exists i :: 0 <= i < |r.ops| && Renews(r.ops[i], k) {
      assert !NoneRenews(all, k);
    } else {
      assert NoneRenews(all, k);
    }
  }

  /** A key that is not flashed, and is left alone, is stored as it was. */
  lemma PlainValueStays(store: Store, r: Request, lifetime: nat, k: Key)
    requires Finds(store, r, lifetime) && k in store[r.presented.value].data && k !in store[r.presented.value].flash
    requires LeavesAlone(r.ops, k) && k != PREVIOUS_URL_KEY
    ensures var id := AtEnd(Load(store, r, lifetime), r).id;
            var after := Served(store, r, lifetime);
            id in after && k in after[id].data && after[id].data[k] == store[r.presented.value].data[k]
                && k !in after[id].flash
  {
    var loaded := Load(store, r, lifetime);
    var all := AllOps(loaded, r);
    hide Apply;
    assert LeavesAlone(all, k);
    UntouchedStays(loaded, all, k);
    AgingKeepsTheRest(ApplyAll(loaded, all), k);
  }
}
