/**
 What a request leaves in the store, told from what its handler asked for: what
 was put is there, what was removed is not, a logout leaves nothing, and a new
 id comes with a new token.
 */
module SessionLaws {
  import opened Basics
  import opened Session
  import opened SessionMiddleware
  import opened SessionRuns

  /** A record is found exactly while less than a lifetime has passed since it was written. */
  lemma FoundExactly(store: Store, r: Request, lifetime: nat)
    ensures Finds(store, r, lifetime) <==>
              && lifetime > 0 && r.presented.Some? && r.presented.value in store
              && r.now < store[r.presented.value].updatedAt + lifetime
  {}

  // ----- Which id -----

  predicate Rotates(op: Op) {
    op.Regenerate? || op.Invalidate?
  }

  predicate NoneRotates(ops: seq<Op>) {
    forall i :: 0 <= i < |ops| ==> !Rotates(ops[i])
  }

  lemma {:induction false} IdStays(s: Sess, ops: seq<Op>)
    requires NoneRotates(ops)
    ensures ApplyAll(s, ops).id == s.id
    decreases |ops|
  {
    if ops != [] {
      IdStays(s, ops[..|ops| - 1]);
    }
  }

  /** The operations of a request with the record of the page, cut at one of them. */
  function Rest(s: Sess, r: Request, after: seq<Op>): seq<Op> {
    if r.page && ApplyAll(s, r.ops).dirty then after + [Put("_previous", r.target)] else after
  }

  lemma CutAt(s: Sess, r: Request, before: seq<Op>, op: Op, after: seq<Op>)
    requires r.ops == before + [op] + after
    ensures ApplyAll(s, AllOps(s, r)) == ApplyAll(Apply(ApplyAll(s, before), op), Rest(s, r, after))
  {
    hide Apply;
    assert AllOps(s, r) == before + [op] + Rest(s, r, after);
    ApplySplits(s, before + [op], Rest(s, r, after));
    assert (before + [op])[..|before|] == before;
  }

  /** A request that rotates last to `id` ends under it; one that never rotates ends under the id it was loaded with. */
  lemma EndsUnder(s: Sess, r: Request, before: seq<Op>, op: Op, after: seq<Op>)
    requires r.ops == before + [op] + after && NoneRotates(after)
    ensures Rotates(op) ==> AtEnd(s, r).id == op.newId
    ensures !Rotates(op) && NoneRotates(before) ==> AtEnd(s, r).id == s.id
  {
    CutAt(s, r, before, op, after);
    IdStays(Apply(ApplyAll(s, before), op), Rest(s, r, after));
    if NoneRotates(before) {
      IdStays(s, before);
    }
  }

  // ----- Removing -----

  /** The operation takes the key out of the session. */
  predicate Removes(op: Op, k: Key) {
    match op
    case Forget(x) => x == k
    case Flush => true
    case Invalidate(_) => true
    case Regenerate(_) => k == "_token"
    case _ => false
  }

  predicate NoneAdds(ops: seq<Op>, k: Key) {
    forall i :: 0 <= i < |ops| ==> !Adds(ops[i], k)
  }

  lemma RemovedIsAbsent(s: Sess, op: Op, k: Key)
    requires Removes(op, k)
    ensures k !in Apply(s, op).data && k !in Apply(s, op).young && k !in Apply(s, op).stale
    ensures Apply(s, op).dirty || op.Forget?
  {}

  /**
   A key that a request removes, and does not add again, is not in the record
   that the request leaves, nor flashed there.
   */
  lemma RemovedIsGone(store: Store, r: Request, lifetime: nat, before: seq<Op>, op: Op, after: seq<Op>, k: Key)
    requires FlashWithin(store) && (op.Forget? ==> Finds(store, r, lifetime))
    requires r.ops == before + [op] + after && Removes(op, k) && NoneAdds(after, k)
    requires r.page ==> k != "_previous"
    ensures var id := AtEnd(Load(store, r, lifetime), r).id;
            var stored := Served(store, r, lifetime);
            id in stored && k !in stored[id].data && k !in stored[id].flash
  {
    var loaded := Load(store, r, lifetime);
    var s := Apply(ApplyAll(loaded, before), op);
    var rest := Rest(loaded, r, after);
    CutAt(loaded, r, before, op, after);
    RemovedIsAbsent(ApplyAll(loaded, before), op, k);
    assert NoneAdds(rest, k);
    AbsentStays(s, rest, k);
    if s.dirty {
      DirtyStays(s, rest);
    }
    hide Apply, ApplyAll, Removes, NoneAdds;
    if Skips(loaded, AtEnd(loaded, r)) {
      SkippingLosesNothing(store, r, lifetime);
    }
  }

  /**
   Logging out: what is left under the new id is an empty record, but for the
   page if it is one to return to; under the old id there is nothing.
   */
  lemma LogoutLeavesNothing(store: Store, r: Request, lifetime: nat, before: seq<Op>, id: Id)
    requires r.ops == before + [Invalidate(id)]
    ensures AtEnd(Load(store, r, lifetime), r).id == id
    ensures var stored := Served(store, r, lifetime);
            id in stored
            && stored[id] == Payload(if r.page then map["_previous" := r.target] else map[], {}, r.now)
    ensures Finds(store, r, lifetime) && r.presented.value != id ==> r.presented.value !in Served(store, r, lifetime)
  {
    var loaded := Load(store, r, lifetime);
    assert before + [Invalidate(id)] == before + [Invalidate(id)] + [];
    CutAt(loaded, r, before, Invalidate(id), []);
    assert r.ops[..|before|] == before;
    EmptyAfter(ApplyAll(loaded, before), id, r.page, r.target);
    hide Apply;
    assert ApplyAll(loaded, r.ops) == Apply(ApplyAll(loaded, before), Invalidate(id));
  }

  lemma EmptyAfter(s: Sess, id: Id, page: bool, target: Value)
    ensures Apply(s, Invalidate(id)) == Sess(id, map[], {}, {}, true)
    ensures Aged(ApplyAll(Apply(s, Invalidate(id)), if page then [] + [Put("_previous", target)] else []))
         == Sess(id, if page then map["_previous" := target] else map[], {}, {}, true)
  {
    var put := Put("_previous", target);
    assert [] + [put] == [put];
    OneMore(Apply(s, Invalidate(id)), put);
  }

  /** What a logout took out of the session stays out, until somebody puts it there again. */
  lemma LogoutIsForGood(store: Store, r: Request, later: seq<Request>, lifetime: nat, before: seq<Op>, id: Id,
                        after: seq<Op>, k: Key)
    requires FlashWithin(store) && r.ops == before + [Invalidate(id)] + after
    requires NoneAdds(after, k) && NoneRotates(after) && k != "_previous"
    requires Threaded(Served(store, r, lifetime), later, id, lifetime, k, Gone)
    ensures var last := Follow(Served(store, r, lifetime), later, id, lifetime);
            var stored := ServedAll(store, [r] + later, lifetime);
            last in stored && k !in stored[last].data && k !in stored[last].flash
  {
    hide Served, Apply, Threaded, Follow, ServedAll, AtEnd, NoneAdds, FlashWithin;
    RemovedIsGone(store, r, lifetime, before, Invalidate(id), after, k);
    EndsUnder(Load(store, r, lifetime), r, before, Invalidate(id), after);
    OneThenMore(store, r, later, lifetime);
    FateIsKept(Served(store, r, lifetime), later, id, lifetime, k, Gone);
  }

  /** A new id comes with a new token: the one asked for after the rotation, whatever was planted before. */
  lemma TokenIsRenewed(store: Store, r: Request, lifetime: nat, before: seq<Op>, id: Id, between: seq<Op>,
                       minted: Value, after: seq<Op>)
    requires r.ops == before + [Regenerate(id)] + (between + [Token(minted)] + after)
    requires NoneAdds(between, "_token") && LeavesAlone(after, "_token")
    ensures var end := AtEnd(Load(store, r, lifetime), r).id;
            var stored := Served(store, r, lifetime);
            end in stored && "_token" in stored[end].data && stored[end].data["_token"] == minted
  {
    var loaded := Load(store, r, lifetime);
    var start := Apply(ApplyAll(loaded, before), Regenerate(id));
    var rest := Rest(loaded, r, after);
    CutAt(loaded, r, before, Regenerate(id), between + [Token(minted)] + after);
    assert Rest(loaded, r, between + [Token(minted)] + after) == between + [Token(minted)] + rest;
    ApplySplits(start, between + [Token(minted)], rest);
    assert (between + [Token(minted)])[..|between|] == between;
    AbsentStays(start, between, "_token");
    var absent := ApplyAll(start, between);
    var held := Apply(absent, Token(minted));
    assert LeavesAlone(rest, "_token");
    UntouchedStays(held, rest, "_token");
    DirtyStays(held, rest);
    AgingKeepsTheRest(ApplyAll(held, rest), "_token");
    hide Apply, ApplyAll;
  }

  // ----- Putting -----

  /**
   A value that is put, and left alone after that, is stored, unless the key is
   one that was flashed in the last request and is not kept: putting does not
   take the mark off, and the value goes with it at the end of the request.
   */
  lemma PutIsStoredExactly(store: Store, r: Request, lifetime: nat, before: seq<Op>, k: Key, v: Value, after: seq<Op>)
    requires r.ops == before + [Put(k, v)] + after && LeavesAlone(after, k) && k != "_previous"
    ensures var id := AtEnd(Load(store, r, lifetime), r).id;
            var stored := Served(store, r, lifetime);
            var s := ApplyAll(Load(store, r, lifetime), before);
            && id in stored && stored[id].updatedAt == r.now
            && if k in s.stale && k !in s.young && NoneRenews(after, k) then k !in stored[id].data
               else k in stored[id].data && stored[id].data[k] == v
  {
    var loaded := Load(store, r, lifetime);
    var s := ApplyAll(loaded, before);
    var put := Apply(s, Put(k, v));
    var rest := Rest(loaded, r, after);
    CutAt(loaded, r, before, Put(k, v), after);
    assert LeavesAlone(rest, k);
    assert NoneRenews(rest, k) <==> NoneRenews(after, k);
    UntouchedStays(put, rest, k);
    DirtyStays(put, rest);
    if k in put.stale && k !in put.young {
      RenewedIsYoung(put, rest, k);
    } else if k !in put.young {
      UntouchedIsNotStale(put, rest, k);
    }
    hide Apply, ApplyAll, LeavesAlone;
  }

  lemma {:induction false} UntouchedIsNotStale(s: Sess, ops: seq<Op>, k: Key)
    requires k in s.data && LeavesAlone(ops, k) && k !in s.stale && k !in s.young
    ensures k !in ApplyAll(s, ops).stale
  {
    UntouchedStays(s, ops, k);
  }

  /** In particular where the key was not flashed, or the handler keeps it; and not otherwise. */
  lemma PutOverFlash(store: Store, r: Request, lifetime: nat, before: seq<Op>, k: Key, v: Value, after: seq<Op>)
    requires r.ops == before + [Put(k, v)] + after && k != "_previous"
    requires Finds(store, r, lifetime) && k in store[r.presented.value].data
    requires LeavesAlone(before, k) && LeavesAlone(after, k)
    ensures var id := AtEnd(Load(store, r, lifetime), r).id;
            var stored := Served(store, r, lifetime);
            id in stored
            && (k in stored[id].data && stored[id].data[k] == v <==>
                  k !in store[r.presented.value].flash || exists i :: 0 <= i < |r.ops| && Renews(r.ops[i], k))
  {
    var loaded := Load(store, r, lifetime);
    UntouchedStays(loaded, before, k);
    if k in loaded.stale {
      RenewedIsYoung(loaded, before, k);
    }
    PutIsStoredExactly(store, r, lifetime, before, k, v, after);
    hide Apply, ApplyAll, LeavesAlone, Served, AtEnd;
    RenewsSomewhere(before, Put(k, v), after, k);
  }

  lemma RenewsSomewhere(before: seq<Op>, op: Op, after: seq<Op>, k: Key)
    requires !Renews(op, k)
    ensures var ops := before + [op] + after;
            (exists i :: 0 <= i < |ops| && Renews(ops[i], k)) <==> !(NoneRenews(before, k) && NoneRenews(after, k))
  {
    var ops := before + [op] + after;
    assert forall i :: 0 <= i < |before| ==> ops[i] == before[i];
    assert forall i :: 0 <= i < |after| ==> ops[|before| + 1 + i] == after[i];
  }

  // ----- The page to return to -----

  predicate NeverFlashes(ops: seq<Op>, k: Key) {
    forall i :: 0 <= i < |ops| ==> !(ops[i].Flash? && ops[i].k == k)
  }

  lemma {:induction false} PlainStaysPlain(s: Sess, ops: seq<Op>, k: Key)
    requires k !in s.young && k !in s.stale && NeverFlashes(ops, k)
    ensures k !in ApplyAll(s, ops).young && k !in ApplyAll(s, ops).stale
    decreases |ops|
  {
    if ops != [] {
      PlainStaysPlain(s, ops[..|ops| - 1], k);
    }
  }

  /** A request for a page that changes its session leaves the page on record; one that changes nothing does not. */
  lemma PageIsRecorded(store: Store, r: Request, lifetime: nat)
    requires r.page && NeverFlashes(r.ops, "_previous")
    requires Finds(store, r, lifetime) ==> "_previous" !in store[r.presented.value].flash
    ensures var loaded := Load(store, r, lifetime);
            var id, stored := AtEnd(loaded, r).id, Served(store, r, lifetime);
            ApplyAll(loaded, r.ops).dirty ==>
              id in stored && "_previous" in stored[id].data && stored[id].data["_previous"] == r.target
  {
    var loaded := Load(store, r, lifetime);
    if ApplyAll(loaded, r.ops).dirty {
      PlainStaysPlain(loaded, r.ops, "_previous");
      ApplySplits(loaded, r.ops, [Put("_previous", r.target)]);
      OneMore(ApplyAll(loaded, r.ops), Put("_previous", r.target));
      hide ApplyAll;
    }
  }
}
