/**
 One visitor's session: a map of values, the flash lifecycle, and whether
 anything changed since it was loaded.
 */
module Session {
  import opened Basics

  type Id = string
  type Key = string
  type Value = string

  const TOKEN_KEY := "_token"
  const PREVIOUS_URL_KEY := "_previous"

  /** A session as a value. */
  datatype Sess = Sess(id: Id, data: map<Key, Value>, young: set<Key>, stale: set<Key>, dirty: bool)

  /** What a handler may do to a session; random ids and tokens come from outside. */
  datatype Op =
    | Put(k: Key, v: Value)
    | Forget(k: Key)
    | Flush
    | Flash(k: Key, v: Value)
    | Keep(k: Key)
    | Reflash
    | Regenerate(newId: Id)
    | Invalidate(newId: Id)
    | Token(minted: Value)

  // ----- What each operation does -----

  function AfterPut(s: Sess, k: Key, v: Value): Sess {
    s.(data := s.data[k := v], dirty := true)
  }

  function AfterForget(s: Sess, k: Key): Sess {
    s.(data := s.data - {k}, young := s.young - {k}, stale := s.stale - {k}, dirty := s.dirty || k in s.data)
  }

  function AfterFlush(s: Sess): Sess {
    s.(data := map[], young := {}, stale := {}, dirty := true)
  }

  function AfterRegenerate(s: Sess, id: Id): Sess {
    AfterForget(s.(id := id), TOKEN_KEY).(dirty := true)
  }

  function Apply(s: Sess, op: Op): Sess {
    match op
    case Put(k, v) => AfterPut(s, k, v)
    case Forget(k) => AfterForget(s, k)
    case Flush => AfterFlush(s)
    case Flash(k, v) => AfterPut(s.(young := s.young + {k}), k, v)
    case Keep(k) => if k in s.stale then s.(stale := s.stale - {k}, young := s.young + {k}, dirty := true) else s
    case Reflash => s.(stale := {}, young := s.young + s.stale, dirty := s.dirty || s.stale != {})
    case Regenerate(id) => AfterRegenerate(s, id)
    case Invalidate(id) => AfterRegenerate(AfterFlush(s), id)
    case Token(minted) => if TOKEN_KEY in s.data then s else AfterPut(s, TOKEN_KEY, minted)
  }

  function ApplyAll(s: Sess, ops: seq<Op>): Sess {
    if ops == [] then s else Apply(ApplyAll(s, ops[..|ops| - 1]), ops[|ops| - 1])
  }

  /** The end of a request: what was flashed in the last one goes, what was flashed in this one ages. */
  function Aged(s: Sess): Sess {
    s.(data := s.data - (s.stale - s.young), stale := s.young, young := {}, dirty := s.dirty || s.stale - s.young != {})
  }

  // ----- The session object -----

  class SessionObject {
    var id: Id
    var data: map<Key, Value>
    var young: set<Key>
    var stale: set<Key>
    var dirty: bool

    ghost function View(): Sess
      reads this
    {
      Sess(id, data, young, stale, dirty)
    }

    constructor (id: Id, data: map<Key, Value>, stale: set<Key>)
      ensures View() == Sess(id, data, {}, stale, false)
    {
      this.id, this.data, this.young, this.stale, this.dirty := id, data, {}, stale, false;
    }

    method Put(k: Key, v: Value)
      modifies this
      ensures View() == AfterPut(old(View()), k, v)
      ensures View() == old(Sess(id, data[k := v], young, stale, true))
    {
      data := data[k := v];
      dirty := true;
    }

    method Forget(k: Key) returns (removed: Option<Value>)
      modifies this
      ensures View() == AfterForget(old(View()), k)
      ensures View() == old(Sess(id, data - {k}, young - {k}, stale - {k}, dirty || k in data))
      ensures removed == if k in old(data) then Some(old(data)[k]) else None
    {
      removed := if k in data then Some(data[k]) else None;
      data := data - {k};
      young := young - {k};
      stale := stale - {k};
      if removed.Some? {
        dirty := true;
      }
    }

    method Flush()
      modifies this
      ensures View() == AfterFlush(old(View()))
      ensures View() == Sess(old(id), map[], {}, {}, true)
    {
      data := map[];
      young := {};
      stale := {};
      dirty := true;
    }

    method Flash(k: Key, v: Value)
      modifies this
      ensures View() == Apply(old(View()), Op.Flash(k, v))
      ensures View() == old(Sess(id, data[k := v], young + {k}, stale, true))
    {
      young := young + {k};
      Put(k, v);
    }

    method Keep(k: Key)
      modifies this
      ensures View() == Apply(old(View()), Op.Keep(k))
      ensures View() == old(if k in stale then Sess(id, data, young + {k}, stale - {k}, true) else View())
    {
      if k in stale {
        stale := stale - {k};
        young := young + {k};
        dirty := true;
      }
    }

    method Reflash()
      modifies this
      ensures View() == Apply(old(View()), Op.Reflash)
      ensures View() == old(Sess(id, data, young + stale, {}, dirty || stale != {}))
    {
      var carried := stale;
      stale := {};
      if carried != {} {
        dirty := true;
      }
      young := young + carried;
    }

    /** Advance the flash lifecycle by one request, one expiring key after another. */
    method AgeFlash()
      modifies this
      ensures View() == Aged(old(View()))
    {
      var expiring := stale - young;
      var todo := expiring;
      while todo != {}
        invariant todo <= expiring && young == old(young) && stale == old(stale) && id == old(id)
        invariant data == old(data) - (expiring - todo)
        invariant dirty == (old(dirty) || todo != expiring)
        decreases todo
      {
        var k :| k in todo;
        todo := todo - {k};
        data := data - {k};
        dirty := true;
      }
      stale := young;
      young := {};
    }

    method Regenerate(newId: Id)
      modifies this
      ensures View() == AfterRegenerate(old(View()), newId)
      ensures View() == Sess(newId, old(data) - {"_token"}, old(young) - {"_token"}, old(stale) - {"_token"}, true)
    {
      id := newId;
      var removed := Forget(TOKEN_KEY);
      dirty := true;
    }

    method Invalidate(newId: Id)
      modifies this
      ensures View() == Apply(old(View()), Op.Invalidate(newId))
      ensures View() == Sess(newId, map[], {}, {}, true)
    {
      Flush();
      Regenerate(newId);
    }

    method Token(minted: Value) returns (token: Value)
      modifies this
      ensures View() == Apply(old(View()), Op.Token(minted))
      ensures if "_token" in old(data) then View() == old(View()) && token == old(data)["_token"]
              else View() == old(Sess(id, data["_token" := minted], young, stale, true)) && token == minted
    {
      if TOKEN_KEY in data {
        return data[TOKEN_KEY];
      }
      Put(TOKEN_KEY, minted);
      token := minted;
    }

    /** One operation of a handler. */
    method Do(op: Op)
      modifies this
      ensures View() == Apply(old(View()), op)
    {
      match op
      case Put(k, v) => Put(k, v);
      case Forget(k) => var removed := Forget(k);
      case Flush => Flush();
      case Flash(k, v) => Flash(k, v);
      case Keep(k) => Keep(k);
      case Reflash => Reflash();
      case Regenerate(f) => Regenerate(f);
      case Invalidate(f) => Invalidate(f);
      case Token(m) => var token := Token(m);
    }
  }

  // ----- Flash stays within the data -----

  predicate Tidy(s: Sess) {
    s.young <= s.data.Keys && s.stale <= s.data.Keys
  }

  lemma OpKeepsTidy(s: Sess, op: Op)
    requires Tidy(s)
    ensures Tidy(Apply(s, op))
  {}

  lemma {:induction false} OpsKeepTidy(s: Sess, ops: seq<Op>)
    requires Tidy(s)
    ensures Tidy(ApplyAll(s, ops))
    decreases |ops|
  {
    if ops != [] {
      OpsKeepTidy(s, ops[..|ops| - 1]);
      OpKeepsTidy(ApplyAll(s, ops[..|ops| - 1]), ops[|ops| - 1]);
    }
  }

  lemma AgingKeepsTidy(s: Sess)
    requires Tidy(s)
    ensures Tidy(Aged(s)) && Aged(s).young == {}
  {}

  /** Nothing that was never flashed is lost with age. */
  lemma AgingKeepsTheRest(s: Sess, k: Key)
    requires k in s.data && k !in s.stale
    ensures k in Aged(s).data && Aged(s).data[k] == s.data[k]
  {}

  // ----- A session nobody changed -----

  /** Until the session is marked as changed, it is as it was loaded. */
  predicate Unchanged(loaded: Sess, s: Sess) {
    !s.dirty ==> s == loaded
  }

  lemma OpMarksChange(loaded: Sess, s: Sess, op: Op)
    requires loaded.young == {} && !loaded.dirty && Tidy(s) && Unchanged(loaded, s)
    ensures Unchanged(loaded, Apply(s, op))
  {
    if !Apply(s, op).dirty {
      match op
      case Forget(k) =>
        assert s.data - {k} == s.data && s.young - {k} == s.young && s.stale - {k} == s.stale;
      case Reflash =>
        assert s.young + s.stale == s.young;
      case _ =>
    }
  }

  lemma {:induction false} OpsMarkChange(loaded: Sess, ops: seq<Op>)
    requires loaded.young == {} && !loaded.dirty && Tidy(loaded)
    ensures Unchanged(loaded, ApplyAll(loaded, ops))
    decreases |ops|
  {
    if ops != [] {
      OpsMarkChange(loaded, ops[..|ops| - 1]);
      OpsKeepTidy(loaded, ops[..|ops| - 1]);
      OpMarksChange(loaded, ApplyAll(loaded, ops[..|ops| - 1]), ops[|ops| - 1]);
    }
  }

  /** And if ageing does not mark it either, there was nothing to age. */
  lemma AgingMarksChange(loaded: Sess, s: Sess)
    requires loaded.young == {} && Unchanged(loaded, s) && !Aged(s).dirty
    ensures Aged(s) == loaded
  {
    assert s.data - (s.stale - s.young) == s.data;
    assert s.stale - s.young == s.stale;
  }

  // ----- The life of a flash -----

  /** The operation may change what a key of the session holds, or flash it. */
  predicate Touches(op: Op, k: Key) {
    match op
    case Put(x, _) => x == k
    case Forget(x) => x == k
    case Flash(x, _) => x == k
    case Flush => true
    case Invalidate(_) => true
    case Regenerate(_) => k == TOKEN_KEY
    case Token(_) => false
    case Keep(_) => false
    case Reflash => false
  }

  /** The operation carries a flashed key over to the next request. */
  predicate Renews(op: Op, k: Key) {
    op == Keep(k) || op.Reflash?
  }

  predicate LeavesAlone(ops: seq<Op>, k: Key) {
    forall i :: 0 <= i < |ops| ==> !Touches(ops[i], k)
  }

  predicate NoneRenews(ops: seq<Op>, k: Key) {
    forall i :: 0 <= i < |ops| ==> !Renews(ops[i], k)
  }

  /** A key that is left alone keeps its value, and stays flashed if it was. */
  lemma {:induction false} UntouchedStays(s: Sess, ops: seq<Op>, k: Key)
    requires k in s.data && LeavesAlone(ops, k)
    ensures var t := ApplyAll(s, ops);
            && k in t.data && t.data[k] == s.data[k]
            && (k in s.young ==> k in t.young)
            && (k !in s.young + s.stale ==> k !in t.young + t.stale)
            && (NoneRenews(ops, k) ==> (k in t.young <==> k in s.young) && (k in t.stale <==> k in s.stale))
    decreases |ops|
  {
    if ops != [] {
      UntouchedStays(s, ops[..|ops| - 1], k);
      assert NoneRenews(ops, k) ==> NoneRenews(ops[..|ops| - 1], k) && !Renews(ops[|ops| - 1], k);
    }
  }

  /** A stale key that is left alone is young at the end exactly if some operation renews it, which marks a change. */
  lemma {:induction false} RenewedIsYoung(s: Sess, ops: seq<Op>, k: Key)
    requires k in s.data && k in s.stale && k !in s.young && LeavesAlone(ops, k)
    ensures var t := ApplyAll(s, ops);
            if NoneRenews(ops, k) then k in t.stale && k !in t.young else k in t.young && t.dirty
    decreases |ops|
  {
    if ops != [] {
      var n := |ops| - 1;
      RenewedIsYoung(s, ops[..n], k);
      UntouchedStays(s, ops[..n], k);
      assert NoneRenews(ops, k) <==> NoneRenews(ops[..n], k) && !Renews(ops[n], k);
      RenewalStep(ApplyAll(s, ops[..n]), ops[n], k);
      hide Apply;
    }
  }

  lemma RenewalStep(s: Sess, op: Op, k: Key)
    requires k in s.data && !Touches(op, k)
    ensures k in s.young && s.dirty ==> k in Apply(s, op).young && Apply(s, op).dirty
    ensures k in s.stale && k !in s.young ==>
              if Renews(op, k) then k in Apply(s, op).young && Apply(s, op).dirty
              else k in Apply(s, op).stale && k !in Apply(s, op).young
  {}

  /** Flashed and then left alone, a key goes into the next request with its value. */
  lemma FlashedIsCarried(s: Sess, ops: seq<Op>, k: Key, v: Value)
    requires LeavesAlone(ops, k)
    ensures var t := Aged(ApplyAll(Apply(s, Flash(k, v)), ops));
            k in t.data && t.data[k] == v && k in t.stale && t.dirty
  {
    var flashed := Apply(s, Flash(k, v));
    UntouchedStays(flashed, ops, k);
    DirtyStays(flashed, ops);
  }

  lemma {:induction false} DirtyStays(s: Sess, ops: seq<Op>)
    requires s.dirty
    ensures ApplyAll(s, ops).dirty
    decreases |ops|
  {
    if ops != [] {
      DirtyStays(s, ops[..|ops| - 1]);
    }
  }

  /** Carried over and not renewed, it is readable throughout the request and gone at its end. */
  lemma CarriedIsReadOnceMore(s: Sess, ops: seq<Op>, k: Key, i: nat)
    requires k in s.data && k in s.stale && k !in s.young && LeavesAlone(ops, k) && NoneRenews(ops, k) && i <= |ops|
    ensures k in ApplyAll(s, ops[..i]).data && ApplyAll(s, ops[..i]).data[k] == s.data[k]
    ensures var t := Aged(ApplyAll(s, ops));
            k !in t.data && k !in t.stale && k !in t.young && t.dirty
  {
    UntouchedStays(s, ops[..i], k);
    UntouchedStays(s, ops, k);
    var t := ApplyAll(s, ops);
    assert k in t.stale - t.young;
  }
}
