/**
 Sessions over sequences of requests by any visitors: what becomes of a key
 while its session is carried from record to record, when a session is
 prolonged, and when a record comes back after its id was rotated away.
 */
module SessionRuns {
  import opened Basics
  import opened Session
  import opened SessionMiddleware

  // ----- Other visitors -----

  /** The operation gives the session this id. */
  predicate Mints(op: Op, id: Id) {
    (op.Regenerate? || op.Invalidate?) && op.newId == id
  }

  /** The request neither starts a session under the id nor rotates one to it. */
  predicate NeverMints(r: Request, id: Id) {
    r.newId != id && forall i :: 0 <= i < |r.ops| ==> !Mints(r.ops[i], id)
  }

  lemma {:induction false} IdIsNotMinted(s: Sess, ops: seq<Op>, id: Id)
    requires s.id != id && forall i :: 0 <= i < |ops| ==> !Mints(ops[i], id)
    ensures ApplyAll(s, ops).id != id
    decreases |ops|
  {
    if ops != [] {
      IdIsNotMinted(s, ops[..|ops| - 1], id);
    }
  }

  /** A request of another session leaves a record alone. */
  lemma OthersLeaveRecord(store: Store, r: Request, lifetime: nat, id: Id)
    requires NeverMints(r, id) && !(r.presented == Some(id) && Finds(store, r, lifetime))
    ensures var after := Served(store, r, lifetime);
            (id in after <==> id in store) && (id in store ==> after[id] == store[id])
  {
    hide Apply;
    var loaded := Load(store, r, lifetime);
    IdIsNotMinted(loaded, AllOps(loaded, r), id);
  }

  lemma {:induction false} ServedAllSplits(store: Store, a: seq<Request>, b: seq<Request>, lifetime: nat)
    ensures ServedAll(store, a + b, lifetime) == ServedAll(ServedAll(store, a, lifetime), b, lifetime)
    decreases |a|
  {
    hide Served;
    if a == [] {
      assert a + b == b;
    } else {
      assert (a + b)[1..] == a[1..] + b;
      ServedAllSplits(Served(store, a[0], lifetime), a[1..], b, lifetime);
    }
  }

  /** Nobody in between presents the id, starts a session under it or rotates one to it. */
  predicate AllLeaveAlone(requests: seq<Request>, id: Id) {
    forall i :: 0 <= i < |requests| ==> NeverMints(requests[i], id) && requests[i].presented != Some(id)
  }

  lemma {:induction false} RecordIsLeftAlone(store: Store, requests: seq<Request>, lifetime: nat, id: Id)
    requires AllLeaveAlone(requests, id) && id in store
    ensures var after := ServedAll(store, requests, lifetime);
            id in after && after[id] == store[id]
    decreases |requests|
  {
    hide Served;
    if requests != [] {
      OthersLeaveRecord(store, requests[0], lifetime, id);
      RecordIsLeftAlone(Served(store, requests[0], lifetime), requests[1..], lifetime, id);
    }
  }

  // ----- The fate of a key -----

  /** What is claimed of a key: that it is gone, that it holds a value and is not flashed, or that it is flashed. */
  datatype Fate = Gone | Held(v: Value) | Flashed(v: Value)

  predicate RecordFits(p: Payload, k: Key, fate: Fate) {
    match fate
    case Gone => k !in p.data && k !in p.flash
    case Held(v) => k in p.data && p.data[k] == v && k !in p.flash
    case Flashed(v) => k in p.data && p.data[k] == v && k in p.flash
  }

  /** The operation may put something under the key. */
  predicate Adds(op: Op, k: Key) {
    match op
    case Put(x, _) => x == k
    case Flash(x, _) => x == k
    case Token(_) => k == TOKEN_KEY
    case _ => false
  }

  /** The handler does nothing that would change the fate of the key; a flashed one it has to keep. */
  predicate Careful(r: Request, k: Key, fate: Fate) {
    && k != PREVIOUS_URL_KEY
    && (forall i :: 0 <= i < |r.ops| ==> if fate.Gone? then !Adds(r.ops[i], k) else !Touches(r.ops[i], k))
    && (fate.Flashed? ==> exists i :: 0 <= i < |r.ops| && Renews(r.ops[i], k))
  }

  lemma {:induction false} AbsentStays(s: Sess, ops: seq<Op>, k: Key)
    requires k !in s.data && k !in s.young && k !in s.stale && forall i :: 0 <= i < |ops| ==> !Adds(ops[i], k)
    ensures var t := ApplyAll(s, ops);
            k !in t.data && k !in t.young && k !in t.stale
    decreases |ops|
  {
    if ops != [] {
      AbsentStays(s, ops[..|ops| - 1], k);
      AbsentAfter(ApplyAll(s, ops[..|ops| - 1]), ops[|ops| - 1], k);
      hide Apply;
    }
  }

  lemma AbsentAfter(s: Sess, op: Op, k: Key)
    requires k !in s.data && k !in s.young && k !in s.stale && !Adds(op, k)
    ensures k !in Apply(s, op).data && k !in Apply(s, op).young && k !in Apply(s, op).stale
  {}

  /** A request of the session carries the fate of the key over to the record it leaves. */
  lemma OwnRequestKeepsFate(store: Store, r: Request, lifetime: nat, k: Key, fate: Fate)
    requires Finds(store, r, lifetime) && RecordFits(store[r.presented.value], k, fate) && Careful(r, k, fate)
    ensures var id := AtEnd(Load(store, r, lifetime), r).id;
            var after := Served(store, r, lifetime);
            id in after && RecordFits(after[id], k, fate)
  {
    if fate.Gone? {
      hide Apply;
      var loaded := Load(store, r, lifetime);
      AbsentStays(loaded, AllOps(loaded, r), k);
    } else if fate.Held? {
      hide Apply, AtEnd, Load, Served;
      PlainValueStays(store, r, lifetime, k);
    } else {
      hide Apply, AtEnd, Load, Served;
      RenewedExactly(store, r, lifetime, k);
    }
  }

  /** The id a session goes by after some requests, rotations included. */
  function Follow(store: Store, requests: seq<Request>, id: Id, lifetime: nat): Id
    decreases |requests|
  {
    if requests == [] then id
    else
      var r := requests[0];
      var next := if r.presented == Some(id) && Finds(store, r, lifetime) then AtEnd(Load(store, r, lifetime), r).id
          else id;
      Follow(Served(store, r, lifetime), requests[1..], next, lifetime)
  }

  /** Every request is either the session's own, and careful with the key, or another's. */
  predicate Threaded(store: Store, requests: seq<Request>, id: Id, lifetime: nat, k: Key, fate: Fate)
    decreases |requests|
  {
    requests == [] || (
      var r := requests[0];
      if r.presented == Some(id) && Finds(store, r, lifetime)
      then Careful(r, k, fate)
           && Threaded(Served(store, r, lifetime), requests[1..], AtEnd(Load(store, r, lifetime), r).id, lifetime, k,
              fate)
      else NeverMints(r, id) && Threaded(Served(store, r, lifetime), requests[1..], id, lifetime, k, fate))
  }

  /** Over any number of requests, of the session and of others, the fate of the key is kept. */
  lemma {:induction false} FateIsKept(store: Store, requests: seq<Request>, id: Id, lifetime: nat, k: Key, fate: Fate)
    requires id in store && RecordFits(store[id], k, fate) && Threaded(store, requests, id, lifetime, k, fate)
    ensures var after := ServedAll(store, requests, lifetime);
            var now := Follow(store, requests, id, lifetime);
            now in after && RecordFits(after[now], k, fate)
    decreases |requests|
  {
    hide Served, AtEnd, Load, Finds, RecordFits, Careful;
    if requests != [] {
      var r := requests[0];
      var next := Served(store, r, lifetime);
      if r.presented == Some(id) && Finds(store, r, lifetime) {
        OwnRequestKeepsFate(store, r, lifetime, k, fate);
        FateIsKept(next, requests[1..], AtEnd(Load(store, r, lifetime), r).id, lifetime, k, fate);
      } else {
        OthersLeaveRecord(store, r, lifetime, id);
        FateIsKept(next, requests[1..], id, lifetime, k, fate);
      }
    }
  }

  // ----- The life of a flash -----

  /** The request flashes the key, and leaves it alone from then on. */
  ghost predicate Flashes(r: Request, before: seq<Op>, after: seq<Op>, k: Key, v: Value) {
    r.ops == before + [Flash(k, v)] + after && LeavesAlone(after, k) && k != PREVIOUS_URL_KEY
  }

  /**
   A flash over a whole sequence of requests: flashed in one request of a
   session, it is readable throughout the session's next request, however many
   others come in between; after that request it is gone, and stays gone over
   whatever comes later, until somebody puts or flashes it again.
   */
  lemma FlashLivesOneMoreRequest(store: Store, r1: Request, between: seq<Request>, r2: Request, later: seq<Request>,
                                 lifetime: nat, before: seq<Op>, after: seq<Op>, k: Key, v: Value)
    requires Flashes(r1, before, after, k, v)
    requires var id := AtEnd(Load(store, r1, lifetime), r1).id;
             && AllLeaveAlone(between, id)
             && r2.presented == Some(id) && IsLive(r1.now, r2.now, lifetime) && LeavesAlone(r2.ops, k)
                && NoneRenews(r2.ops, k)
    requires var s := ServedAll(store, [r1] + between, lifetime);
             Threaded(Served(s, r2, lifetime), later, AtEnd(Load(s, r2, lifetime), r2).id, lifetime, k, Gone)
    ensures var s := ServedAll(store, [r1] + between, lifetime);
            var end := AtEnd(Load(s, r2, lifetime), r2).id;
            var t := ServedAll(store, [r1] + between + [r2], lifetime);
            && Finds(s, r2, lifetime)
            && (forall i :: 0 <= i <= |r2.ops| ==>
                  k in ApplyAll(Load(s, r2, lifetime), r2.ops[..i]).data
                      && ApplyAll(Load(s, r2, lifetime), r2.ops[..i]).data[k] == v)
            && end in t && RecordFits(t[end], k, Gone)
            && var last := Follow(t, later, end, lifetime);
               var u := ServedAll(store, [r1] + between + [r2] + later, lifetime);
               last in u && RecordFits(u[last], k, Gone)
  {
    hide Served, AtEnd, Load, RecordFits, Threaded, Follow, ServedAll, LeavesAlone, NoneRenews, ApplyAll;
    var id := AtEnd(Load(store, r1, lifetime), r1).id;
    var s1 := Served(store, r1, lifetime);
    var s := ServedAll(store, [r1] + between, lifetime);
    FlashIsStored(store, r1, lifetime, before, after, k, v);
    OneThenMore(store, r1, between, lifetime);
    RecordIsLeftAlone(s1, between, lifetime, id);
    ReadThroughout(s, r2, lifetime, k, v);
    ServedAllSplits(store, [r1] + between, [r2], lifetime);
    OneThenMore(s, r2, [], lifetime);
    NoMore(Served(s, r2, lifetime), lifetime);
    assert [r2] + [] == [r2];
    var t := ServedAll(store, [r1] + between + [r2], lifetime);
    assert t == Served(s, r2, lifetime);
    FateIsKept(t, later, AtEnd(Load(s, r2, lifetime), r2).id, lifetime, k, Gone);
    ServedAllSplits(store, [r1] + between + [r2], later, lifetime);
  }

  lemma OneThenMore(store: Store, r: Request, more: seq<Request>, lifetime: nat)
    ensures ServedAll(store, [r] + more, lifetime) == ServedAll(Served(store, r, lifetime), more, lifetime)
  {
    assert ([r] + more)[1..] == more;
  }

  lemma NoMore(store: Store, lifetime: nat)
    ensures ServedAll(store, [], lifetime) == store
  {}

  /** In the request after the flash the key is there at every point, and gone at the end. */
  lemma ReadThroughout(store: Store, r: Request, lifetime: nat, k: Key, v: Value)
    requires Finds(store, r, lifetime) && k in store[r.presented.value].data && store[r.presented.value].data[k] == v
    requires k in store[r.presented.value].flash && LeavesAlone(r.ops, k) && NoneRenews(r.ops, k)
             && k != PREVIOUS_URL_KEY
    ensures forall i :: 0 <= i <= |r.ops| ==>
              k in ApplyAll(Load(store, r, lifetime), r.ops[..i]).data
              && ApplyAll(Load(store, r, lifetime), r.ops[..i]).data[k] == v
    ensures var end := AtEnd(Load(store, r, lifetime), r).id;
            var after := Served(store, r, lifetime);
            end in after && RecordFits(after[end], k, Gone)
  {
    hide Served, AtEnd, Load, LeavesAlone, NoneRenews, ApplyAll;
    FlashIsReadOnceMore(store, r, lifetime, k, 0);
    forall i | 0 <= i <= |r.ops|
      ensures k in ApplyAll(Load(store, r, lifetime), r.ops[..i]).data
      ensures ApplyAll(Load(store, r, lifetime), r.ops[..i]).data[k] == v
    {
      FlashIsReadOnceMore(store, r, lifetime, k, i);
    }
  }

  // ----- When a session is prolonged -----

  /** The operation finds nothing to do in a session with these data and flashed keys. */
  predicate Idle(op: Op, data: map<Key, Value>, flash: set<Key>) {
    match op
    case Forget(k) => k !in data
    case Keep(k) => k !in flash
    case Reflash => flash == {}
    case Token(_) => TOKEN_KEY in data
    case _ => false
  }

  lemma IdleOrMarked(s: Sess, op: Op)
    requires s.young == {} && s.stale == {} && !s.dirty
    ensures if Idle(op, s.data, {}) then Apply(s, op) == s else Apply(s, op).dirty
  {
    assert s.young + s.stale == s.young;
    if op.Forget? && op.k !in s.data {
      assert s.data - {op.k} == s.data && s.young - {op.k} == s.young && s.stale - {op.k} == s.stale;
    }
  }

  /** Idle operations leave the session as it is; the first that is not marks it as changed. */
  lemma {:induction false} IdleOrAllMarked(s: Sess, ops: seq<Op>)
    requires s.young == {} && s.stale == {} && !s.dirty
    ensures if forall i :: 0 <= i < |ops| ==>
            Idle(ops[i], s.data, {}) then ApplyAll(s, ops) == s else ApplyAll(s, ops).dirty
    decreases |ops|
  {
    hide Apply, Idle;
    if ops != [] {
      var n := |ops| - 1;
      IdleOrAllMarked(s, ops[..n]);
      assert forall i :: 0 <= i < n ==> ops[..n][i] == ops[i];
      if ApplyAll(s, ops[..n]) == s {
        IdleOrMarked(s, ops[n]);
      } else {
        DirtyStays(ApplyAll(s, ops[..n]), [ops[n]]);
        OneMore(ApplyAll(s, ops[..n]), ops[n]);
      }
    }
  }

  lemma OneMore(s: Sess, op: Op)
    ensures ApplyAll(s, [op]) == Apply(s, op)
  {
    assert [op][..0] == [];
  }

  /** What a caller can see beforehand: nothing is flashed, and nothing the handler does has anything to do. */
  predicate ChangesNothing(p: Payload, r: Request) {
    p.flash == {} && forall i :: 0 <= i < |r.ops| ==> Idle(r.ops[i], p.data, p.flash)
  }

  /** The middleware skips the write exactly for such requests. */
  lemma SkipsExactlyWhenNothingChanges(store: Store, r: Request, lifetime: nat)
    requires FlashWithin(store) && Finds(store, r, lifetime)
    ensures Skips(Load(store, r, lifetime), AtEnd(Load(store, r, lifetime), r)) <==>
            ChangesNothing(store[r.presented.value], r)
  {
    var loaded := Load(store, r, lifetime);
    var all := AllOps(loaded, r);
    hide Apply, Idle;
    if loaded.stale == {} {
      IdleOrAllMarked(loaded, r.ops);
      if ChangesNothing(store[r.presented.value], r) {
        NothingToAge(loaded);
      } else {
        assert ApplyAll(loaded, r.ops).dirty;
        MoreStaysDirty(loaded, r);
      }
    } else {
      EndIsTidy(store, r, lifetime);
      OpsMarkChange(loaded, all);
      FlashedIsMarked(loaded, ApplyAll(loaded, all));
    }
  }

  lemma NothingToAge(s: Sess)
    requires s.young == {} && s.stale == {}
    ensures Aged(s) == s
  {
    assert s.data - (s.stale - s.young) == s.data;
  }

  lemma MoreStaysDirty(loaded: Sess, r: Request)
    requires ApplyAll(loaded, r.ops).dirty
    ensures AtEnd(loaded, r).dirty
  {
    hide Apply;
    var put := Put(PREVIOUS_URL_KEY, r.target);
    ApplySplits(loaded, r.ops, [put]);
    DirtyStays(ApplyAll(loaded, r.ops), [put]);
  }

  lemma FlashedIsMarked(loaded: Sess, s: Sess)
    requires loaded.young == {} && loaded.stale != {} && Unchanged(loaded, s)
    ensures Aged(s).dirty
  {
    if !s.dirty {
      assert s.stale - s.young == s.stale;
    }
  }

  /**
   A found session is prolonged exactly by the requests that change something:
   the record is written with their time and lives a lifetime from then; after
   any other it lives a lifetime from its last write.
   */
  lemma ProlongedExactlyByChange(store: Store, r: Request, lifetime: nat, again: Request)
    requires FlashWithin(store) && Finds(store, r, lifetime) && again.now >= r.now >= store[r.presented.value].updatedAt
    requires again.presented == Some(AtEnd(Load(store, r, lifetime), r).id)
    ensures var p := store[r.presented.value];
            var after := Served(store, r, lifetime);
            && again.presented.value in after
            && after[again.presented.value].updatedAt == (if ChangesNothing(p, r) then p.updatedAt else r.now)
            && (Finds(after, again, lifetime) <==>
               again.now < (if ChangesNothing(p, r) then p.updatedAt else r.now) + lifetime)
  {
    hide ChangesNothing, Apply, ApplyAll;
    SkipsExactlyWhenNothingChanges(store, r, lifetime);
  }

  // ----- A rotated id -----

  /** Nobody brings a record under the id into being. */
  predicate NobodyMints(requests: seq<Request>, id: Id) {
    forall i :: 0 <= i < |requests| ==> NeverMints(requests[i], id)
  }

  lemma {:induction false} GoneStaysGone(store: Store, requests: seq<Request>, lifetime: nat, id: Id)
    requires id !in store && NobodyMints(requests, id)
    ensures id !in ServedAll(store, requests, lifetime)
    decreases |requests|
  {
    hide Served;
    if requests != [] {
      assert !Finds(store, requests[0], lifetime) || requests[0].presented != Some(id);
      OthersLeaveRecord(store, requests[0], lifetime, id);
      GoneStaysGone(Served(store, requests[0], lifetime), requests[1..], lifetime, id);
    }
  }

  /** Once a request has rotated its session to another id, no later sequence brings a record back under the old one. */
  lemma OldIdNeverReturns(store: Store, r: Request, later: seq<Request>, lifetime: nat)
    requires Finds(store, r, lifetime) && AtEnd(Load(store, r, lifetime), r).id != r.presented.value
    requires NobodyMints(later, r.presented.value)
    ensures r.presented.value !in ServedAll(store, [r] + later, lifetime)
  {
    hide Served;
    OldIdIsGone(store, r, lifetime);
    OneThenMore(store, r, later, lifetime);
    GoneStaysGone(Served(store, r, lifetime), later, lifetime, r.presented.value);
  }

  // ----- Overlapping requests -----

  /** A request that has loaded its session and not been answered yet. */
  datatype Pending = Pending(r: Request, loaded: Sess, existed: bool)

  datatype State = State(store: Store, open: map<nat, Pending>)

  datatype Step = Begin(n: nat, r: Request) | Finish(n: nat)

  function Next(s: State, step: Step, lifetime: nat): State {
    match step
    case Begin(n, r) =>
      if n in s.open then s
      else s.(open := s.open[n := Pending(r, Load(s.store, r, lifetime), Finds(s.store, r, lifetime))])
    case Finish(n) =>
      if n !in s.open then s
      else
        var p := s.open[n];
        State(Saved(s.store, p.existed, p.loaded, AtEnd(p.loaded, p.r), p.r.now), s.open - {n})
  }

  function Run(s: State, steps: seq<Step>, lifetime: nat): State {
    if steps == [] then s else Next(Run(s, steps[..|steps| - 1], lifetime), steps[|steps| - 1], lifetime)
  }

  /** The step answers a request that writes its session under the id. */
  predicate WritesUnder(s: State, step: Step, id: Id) {
    && step.Finish? && step.n in s.open
    && !Skips(s.open[step.n].loaded, AtEnd(s.open[step.n].loaded, s.open[step.n].r))
    && AtEnd(s.open[step.n].loaded, s.open[step.n].r).id == id
  }

  /** The step answers a request that rotates its session away from the id. */
  predicate RotatesFrom(s: State, step: Step, id: Id) {
    && step.Finish? && step.n in s.open && s.open[step.n].existed && s.open[step.n].loaded.id == id
    && AtEnd(s.open[step.n].loaded, s.open[step.n].r).id != id
  }

  lemma OneStepUnder(s: State, step: Step, lifetime: nat, id: Id)
    ensures id in Next(s, step, lifetime).store <==>
            WritesUnder(s, step, id) || (id in s.store && !RotatesFrom(s, step, id))
  {
    hide Apply, ApplyAll, Aged, Load;
  }

  /** The last answer that concerns the id is one that writes under it. */
  ghost predicate Written(s: State, steps: seq<Step>, lifetime: nat, id: Id, n: int) {
    && 0 <= n < |steps| && WritesUnder(Run(s, steps[..n], lifetime), steps[n], id)
    && forall m :: n < m < |steps| ==> !RotatesFrom(Run(s, steps[..m], lifetime), steps[m], id)
  }

  lemma WrittenGrows(s: State, steps: seq<Step>, lifetime: nat, id: Id, n: int)
    requires 0 <= n < |steps| - 1
    ensures var last := |steps| - 1;
            Written(s, steps, lifetime, id, n) <==>
            Written(s, steps[..last], lifetime, id, n) && !RotatesFrom(Run(s, steps[..last], lifetime), steps[last], id)
  {
    hide Run, WritesUnder, RotatesFrom;
    var front := steps[..|steps| - 1];
    assert forall m :: 0 <= m < |front| ==> front[..m] == steps[..m] && front[m] == steps[m];
  }

  /**
   A record that is gone is back, however requests overlap, if and only if some
   request was answered that wrote its session under the id, and none that
   rotated away from it was answered since.
   */
  lemma {:induction false} BackExactlyWhenWritten(s: State, steps: seq<Step>, lifetime: nat, id: Id)
    requires id !in s.store
    ensures id in Run(s, steps, lifetime).store <==> exists n :: Written(s, steps, lifetime, id, n)
    decreases |steps|
  {
    hide Next, WritesUnder, RotatesFrom, Written;
    if steps == [] {
      NothingWritten(s, lifetime, id);
    } else {
      var last := |steps| - 1;
      var front := steps[..last];
      BackExactlyWhenWritten(s, front, lifetime, id);
      OneStepUnder(Run(s, front, lifetime), steps[last], lifetime, id);
      LastWritten(s, steps, lifetime, id);
      forall n | 0 <= n < last
        ensures Written(s, steps, lifetime, id, n) <==>
                Written(s, front, lifetime, id, n) && !RotatesFrom(Run(s, front, lifetime), steps[last], id)
      {
        WrittenGrows(s, steps, lifetime, id, n);
      }
      WrittenWithin(s, steps, lifetime, id);
      WrittenWithin(s, front, lifetime, id);
    }
  }

  lemma NothingWritten(s: State, lifetime: nat, id: Id)
    ensures forall n :: !Written(s, [], lifetime, id, n)
  {}

  lemma WrittenWithin(s: State, steps: seq<Step>, lifetime: nat, id: Id)
    ensures forall n :: Written(s, steps, lifetime, id, n) ==> 0 <= n < |steps|
  {}

  lemma LastWritten(s: State, steps: seq<Step>, lifetime: nat, id: Id)
    requires steps != []
    ensures var last := |steps| - 1;
            Written(s, steps, lifetime, id, last) <==> WritesUnder(Run(s, steps[..last], lifetime), steps[last], id)
  {
    hide Run, WritesUnder, RotatesFrom;
  }

  /**
   The race at sign-in: a request rotates the session while another of the same
   session is under way. The old record is back exactly if the other changes
   something and does not itself end under another id.
   */
  lemma OverlapBringsBack(store: Store, r: Request, other: Request, lifetime: nat)
    requires FlashWithin(store) && Finds(store, r, lifetime) && Finds(store, other, lifetime)
             && r.presented == other.presented
    requires AtEnd(Load(store, r, lifetime), r).id != r.presented.value
    ensures var s := Run(State(store, map[]), [Begin(0, r), Begin(1, other), Finish(0), Finish(1)], lifetime);
            r.presented.value in s.store <==>
            && !ChangesNothing(store[r.presented.value], other)
            && AtEnd(Load(store, other, lifetime), other).id == r.presented.value
  {
    hide Apply, ApplyAll, Aged, ChangesNothing, AllOps;
    var id := r.presented.value;
    var steps := [Begin(0, r), Begin(1, other), Finish(0), Finish(1)];
    var s0 := State(store, map[]);
    var s1, s2 := Next(s0, steps[0], lifetime), Next(Next(s0, steps[0], lifetime), steps[1], lifetime);
    var s3 := Next(s2, steps[2], lifetime);
    FourSteps(s0, steps, lifetime);
    SkipsExactlyWhenNothingChanges(store, other, lifetime);
    OneStepUnder(s2, steps[2], lifetime, id);
    OneStepUnder(s3, steps[3], lifetime, id);
  }

  lemma FourSteps(s: State, steps: seq<Step>, lifetime: nat)
    requires |steps| == 4
    ensures Run(s, steps, lifetime)
         == Next(Next(Next(Next(s, steps[0], lifetime), steps[1], lifetime), steps[2], lifetime), steps[3], lifetime)
  {
    hide Next;
    assert steps[..3][..2] == steps[..2] && steps[..2][..1] == steps[..1] && steps[..1][..0] == [];
    assert Run(s, steps[..1], lifetime) == Next(s, steps[0], lifetime);
    assert Run(s, steps[..2], lifetime) == Next(Run(s, steps[..1], lifetime), steps[1], lifetime);
    assert Run(s, steps[..3], lifetime) == Next(Run(s, steps[..2], lifetime), steps[2], lifetime);
  }
}
