/**
 What callers of the file driver can count on: a call that is left alone does
 what was asked, and a key that shares its file with no other and does not
 expire is always read as it was last written.
 */
module FileAnswers {
  import opened Basics
  import opened CacheFlat
  import opened FileStore
  import opened FileRuns

  // ----- A call left alone -----

  /** A new caller has come. */
  function Began(env: Env, s: State, id: nat, op: Op): State {
    Next(env, s, Begin(id, op))
  }

  /** It has not done anything yet. */
  lemma BeganWaits(env: Env, s: State, id: nat, op: Op)
    requires id !in s.calls
    ensures Began(env, s, id, op) == s.(calls := s.calls[id := Call(op, Waiting)])
  {}

  /** The caller takes `n` steps in a row. */
  function Alone(env: Env, s: State, id: nat, n: nat): State
    decreases n
  {
    if n == 0 then s else Alone(env, Next(env, s, Go(id)), id, n - 1)
  }

  /** What the file of a key says about it now: the value and the deadline of a document of its own that is not over. */
  predicate Holds(env: Env, s: State, k: Key, e: Entry) {
    && env.PathOf(k) in s.files && s.files[env.PathOf(k)] == Document(k, e)
    && (e.deadline.None? || s.clock < e.deadline.value)
  }

  /** The caller is finished, and holds no lock that was not held before. */
  predicate Over(s: State, t: State, id: nat) {
    id in t.calls && t.calls[id].phase == Finished && t.locks == s.locks && t.clock == s.clock
  }

  lemma GoIs(env: Env, s: State, id: nat, call: Call)
    requires id in s.calls && s.calls[id] == call
    ensures Next(env, s, Go(id)) == if TakesLock(call.op) then GoLocked(env, s, id, call) else GoFree(env, s, id, call)
    ensures Alone(env, s, id, 0) == s
  {}

  /** A read answers with what the file says, and with nothing if it says nothing. */
  lemma GetAlone(env: Env, s: State, id: nat, k: Key, e: Entry)
    requires id !in s.calls
    ensures var t := Next(env, Began(env, s, id, Get(k)), Go(id));
            && |t.answers| == |s.answers| + 1 && t.answers[|s.answers|].k == k
            && t.files == s.files && t.locks == s.locks
            && (Holds(env, s, k, e) ==> t.answers[|s.answers|].value == Some(e.value))
            && ((forall d :: !Holds(env, s, k, d)) ==> t.answers[|s.answers|].value == None)
  {
    var held := Holding(s.files, env.PathOf(k), k);
    if held.Some? && !held.value.Expired(s.clock) {
      assert Holds(env, s, k, held.value);
    }
  }

  /** A write leaves the value in the key's file, for the time given; a time of nothing leaves no file. */
  lemma PutAlone(env: Env, s: State, id: nat, k: Key, v: Value, ttl: Option<nat>)
    requires id !in s.calls
    ensures var t := Alone(env, Began(env, s, id, Put(k, v, ttl)), id, 2);
            && Over(s, t, id)
            && t.files == if ttl == Some(0) then s.files - {env.PathOf(k)}
                          else s.files[env.PathOf(k) := Document(k, Entry(v,
                                 if ttl.Some? then Some(s.clock + ttl.value) else None))]
  {
    BeganWaits(env, s, id, Put(k, v, ttl));
    var s0 := Began(env, s, id, Put(k, v, ttl));
    GoIs(env, s0, id, s0.calls[id]);
    var s1 := Next(env, s0, Go(id));
    GoIs(env, s1, id, s1.calls[id]);
    hide Next;
    TwoAlone(env, s0, id, 0);
  }

  lemma TwoAlone(env: Env, s: State, id: nat, n: nat)
    ensures Alone(env, s, id, n + 2) == Alone(env, Next(env, Next(env, s, Go(id)), Go(id)), id, n)
  {
    hide Next;
    assert Alone(env, s, id, n + 2) == Alone(env, Next(env, s, Go(id)), id, n + 1);
  }

  /** The two steps that take the lock and get ready, and the two that delete and give the lock back. */
  lemma ForgetPrepares(env: Env, s: State, id: nat, k: Key)
    requires id in s.calls && s.calls[id] == Call(Forget(k), Waiting) && env.LockOf(k) !in s.locks
    ensures Next(env, Next(env, s, Go(id)), Go(id))
         == s.(calls := s.calls[id := Call(Forget(k), Removing)], locks := s.locks[env.LockOf(k) := id])
  {
    GoIs(env, s, id, s.calls[id]);
    var s1 := Next(env, s, Go(id));
    GoIs(env, s1, id, s1.calls[id]);
    hide Next;
  }

  lemma ForgetDeletes(env: Env, s: State, id: nat, k: Key)
    requires id in s.calls && s.calls[id] == Call(Forget(k), Removing)
    ensures Next(env, Next(env, s, Go(id)), Go(id))
         == s.(calls := s.calls[id := Call(Forget(k), Finished)], locks := s.locks - {env.LockOf(k)},
               files := s.files - {env.PathOf(k)}, last := s.last - {k})
  {
    GoIs(env, s, id, s.calls[id]);
    var s1 := Next(env, s, Go(id));
    GoIs(env, s1, id, s1.calls[id]);
    hide Next;
  }

  /** In four steps a removal deletes the key's file and gives the lock back. */
  lemma ForgetAlone(env: Env, s: State, id: nat, k: Key, n: nat)
    requires id !in s.calls && env.LockOf(k) !in s.locks && n == 4
    ensures var t := Alone(env, Began(env, s, id, Forget(k)), id, n);
            Over(s, t, id) && t.files == s.files - {env.PathOf(k)} && t.last == s.last - {k}
  {
    hide Next, Began;
    BeganWaits(env, s, id, Forget(k));
    var s0 := Began(env, s, id, Forget(k));
    ForgetPrepares(env, s0, id, k);
    var s2 := Next(env, Next(env, s0, Go(id)), Go(id));
    ForgetDeletes(env, s2, id, k);
    TwoAlone(env, s0, id, n - 2);
    TwoAlone(env, s2, id, n - 4);
    assert s.locks[env.LockOf(k) := id] - {env.LockOf(k)} == s.locks;
  }

  /** If the file of the key is its own, it is not over. */
  ghost predicate OwnFileLives(env: Env, s: State, k: Key) {
    forall e :: env.PathOf(k) in s.files && s.files[env.PathOf(k)] == Document(k, e) ==> Holds(env, s, k, e)
  }

  /** An increment left alone, up to the point where it knows the current value. */
  lemma IncrementReads(env: Env, s: State, id: nat, k: Key, delta: int, ttl: Option<nat>)
    requires id in s.calls && s.calls[id] == Call(Increment(k, delta, ttl), Waiting) && env.LockOf(k) !in s.locks
    requires OwnFileLives(env, s, k)
    ensures var held := Holding(s.files, env.PathOf(k), k);
            var t := Next(env, Next(env, s, Go(id)), Go(id));
            && t == s.(locks := s.locks[env.LockOf(k) := id], calls := t.calls) && id in t.calls
            && t.calls[id] == Call(Increment(k, delta, ttl),
               HasRead(if held.Some? then Some(held.value.value) else None))
            && t.locks - {env.LockOf(k)} == s.locks
  {
    GoIs(env, s, id, s.calls[id]);
    var s1 := Next(env, s, Go(id));
    GoIs(env, s1, id, s1.calls[id]);
    var s2 := Next(env, s1, Go(id));
    var held := Holding(s.files, env.PathOf(k), k);
    if held.Some? {
      assert Holds(env, s, k, held.value);
    }
    hide Next;
    assert s2.locks - {env.LockOf(k)} == s.locks;
  }

  /**
   The counter an increment leaves: the value held and the deadline it has; or the increment
   and a time of its own.
   */
  function Incremented(env: Env, s: State, k: Key, delta: int, ttl: Option<nat>): Entry {
    var p := env.PathOf(k);
    if p in s.files && s.files[p].Document? && s.files[p].key == k then
      var e := s.files[p].entry;
      Entry(Number(delta + match e.value case Number(n) => n case Text(t) => env.parse(t) case Other(_) => 0),
          e.deadline)
    else Entry(Number(delta), if ttl.Some? then Some(s.clock + ttl.value) else None)
  }

  /** Finished, written and counted; whether the lock is given back is another matter. */
  predicate CountedIn(env: Env, s: State, t: State, id: nat, k: Key, delta: int, e: Entry) {
    && id in t.calls && t.calls[id].phase == Finished && t.clock == s.clock
    && t.files == s.files[env.PathOf(k) := Document(k, e)]
    && e.value.Number? && t.counted == s.counted + [Counted(k, delta, e.value.n)]
  }

  lemma IncrementFindsDeadline(env: Env, s: State, id: nat, k: Key, delta: int, ttl: Option<nat>)
    requires id in s.calls && OwnFileLives(env, s, k)
    requires var held := Holding(s.files, env.PathOf(k), k);
             s.calls[id] == Call(Increment(k, delta, ttl), HasRead(if held.Some? then Some(held.value.value) else None))
    ensures var t := Next(env, s, Go(id));
            && t == s.(calls := t.calls) && id in t.calls && t.calls[id].op == s.calls[id].op
            && t.calls[id].phase.HasDeadline?
            && Entry(Number(Current(env.parse, t.calls[id].phase.current) + delta), t.calls[id].phase.deadline)
               == Incremented(env, s, k, delta, ttl)
  {
    var held := Holding(s.files, env.PathOf(k), k);
    if held.Some? {
      assert Holds(env, s, k, held.value);
    }
    GoIs(env, s, id, s.calls[id]);
    hide Next;
  }

  lemma IncrementWrites(env: Env, s: State, id: nat, k: Key, delta: int, e: Entry)
    requires id in s.calls && s.calls[id].op.Increment? && s.calls[id].op.k == k && s.calls[id].op.delta == delta
    requires s.calls[id].phase.HasDeadline?
    requires e == Entry(Number(Current(env.parse, s.calls[id].phase.current) + delta), s.calls[id].phase.deadline)
    ensures var t := Next(env, Next(env, s, Go(id)), Go(id));
            CountedIn(env, s, t, id, k, delta, e) && t.locks == s.locks - {env.LockOf(k)}
  {
    hide Current, Holding;
    GoIs(env, s, id, s.calls[id]);
    var s1 := Next(env, s, Go(id));
    GoIs(env, s1, id, s1.calls[id]);
    hide Next;
  }

  lemma WaitingIncrement(env: Env, s: State, id: nat, k: Key, delta: int, ttl: Option<nat>, n: nat)
    requires id in s.calls && s.calls[id] == Call(Increment(k, delta, ttl), Waiting) && env.LockOf(k) !in s.locks
    requires OwnFileLives(env, s, k) && n == 5
    ensures var t := Alone(env, s, id, n);
            CountedIn(env, s, t, id, k, delta, Incremented(env, s, k, delta, ttl)) && t.locks == s.locks
  {
    hide Next, CountedIn, Incremented, OwnFileLives, Alone, Holding, Current;
    IncrementReads(env, s, id, k, delta, ttl);
    var t := Next(env, Next(env, s, Go(id)), Go(id));
    SameFiles(env, s, t, id, k, delta, ttl);
    IncrementFindsDeadline(env, t, id, k, delta, ttl);
    var u := Next(env, t, Go(id));
    IncrementWrites(env, u, id, k, delta, Incremented(env, s, k, delta, ttl));
    TwoAlone(env, s, id, n - 2);
    TwoAlone(env, t, id, n - 4);
    OneAlone(env, Next(env, u, Go(id)), id, n - 4);
    SameCount(env, s, u, Next(env, Next(env, u, Go(id)), Go(id)), id, k, delta, ttl);
  }

  /** In five steps, an increment of a key whose file is its own and not over adds to it; of one without, starts it. */
  lemma IncrementAlone(env: Env, s: State, id: nat, k: Key, delta: int, ttl: Option<nat>, n: nat)
    requires id !in s.calls && env.LockOf(k) !in s.locks && OwnFileLives(env, s, k) && n == 5
    ensures var t := Alone(env, Began(env, s, id, Increment(k, delta, ttl)), id, n);
            CountedIn(env, s, t, id, k, delta, Incremented(env, s, k, delta, ttl)) && t.locks == s.locks
  {
    hide Next, Began, CountedIn, Incremented, OwnFileLives, Alone;
    var b := Began(env, s, id, Increment(k, delta, ttl));
    BeganWaits(env, s, id, Increment(k, delta, ttl));
    SameFiles(env, s, b, id, k, delta, ttl);
    WaitingIncrement(env, b, id, k, delta, ttl, n);
    SameCount(env, s, b, Alone(env, b, id, n), id, k, delta, ttl);
  }

  lemma OneAlone(env: Env, s: State, id: nat, n: nat)
    requires n == 1
    ensures Alone(env, s, id, n) == Next(env, s, Go(id))
  {
    hide Next;
    assert Alone(env, Next(env, s, Go(id)), id, n - 1) == Next(env, s, Go(id));
  }

  lemma SameFiles(env: Env, s: State, t: State, id: nat, k: Key, delta: int, ttl: Option<nat>)
    requires OwnFileLives(env, s, k) && t.files == s.files && t.clock == s.clock
    ensures OwnFileLives(env, t, k) && Holding(t.files, env.PathOf(k), k) == Holding(s.files, env.PathOf(k), k)
    ensures Incremented(env, t, k, delta, ttl) == Incremented(env, s, k, delta, ttl)
  {
    assert forall e :: Holds(env, s, k, e) ==> Holds(env, t, k, e);
  }

  lemma SameCount(env: Env, s: State, t: State, u: State, id: nat, k: Key, delta: int, ttl: Option<nat>)
    requires t.files == s.files && t.clock == s.clock && t.counted == s.counted
    requires CountedIn(env, t, u, id, k, delta, Incremented(env, s, k, delta, ttl))
    ensures CountedIn(env, s, u, id, k, delta, Incremented(env, s, k, delta, ttl))
  {}

  // ----- Reads find what was written -----

  /** No other key shares the file of `k`, and what was last written under `k` is not over. */
  ghost predicate Private(env: Env, s: State, k: Key) {
    && (forall id :: id in s.calls && s.calls[id].op.k != k ==> env.PathOf(s.calls[id].op.k) != env.PathOf(k))
    && (k in s.last && s.last[k].deadline.Some? ==> s.clock < s.last[k].deadline.value)
  }

  ghost predicate PrivateRun(env: Env, s: State, steps: seq<Step>, k: Key)
    decreases |steps|
  {
    Private(env, s, k) && (steps == [] || PrivateRun(env, Next(env, s, steps[0]), steps[1..], k))
  }

  /** The file of the key says what was last written under it. */
  ghost predicate InPlace(env: Env, s: State, k: Key) {
    && View(env, s, k) == (if k in s.last then Some(s.last[k]) else None)
    && (forall id :: id in s.calls && s.calls[id].op.k == k ==> !s.calls[id].phase.FoundExpired?)
  }

  /** Every read of the key answered with what had last been written, or with nothing if nothing had. */
  ghost predicate ReadsFind(s: State, k: Key) {
    forall j :: 0 <= j < |s.answers| && s.answers[j].k == k ==>
      s.answers[j].value == if k in s.answers[j].last then Some(s.answers[j].last[k].value) else None
  }

  lemma OwnGetFinds(env: Env, s: State, id: nat, k: Key)
    requires InPlace(env, s, k) && Private(env, s, k) && ReadsFind(s, k) && id in s.calls && s.calls[id].op == Get(k)
    ensures var t := GoFree(env, s, id, s.calls[id]);
            InPlace(env, t, k) && ReadsFind(t, k)
  {}

  lemma OwnPutFinds(env: Env, s: State, id: nat, k: Key)
    requires InPlace(env, s, k) && ReadsFind(s, k) && id in s.calls && s.calls[id].op.Put? && s.calls[id].op.k == k
    ensures var t := GoFree(env, s, id, s.calls[id]);
            InPlace(env, t, k) && ReadsFind(t, k)
  {
    hide ReadFile;
  }

  lemma OwnFreeStepFinds(env: Env, s: State, id: nat, k: Key)
    requires InPlace(env, s, k) && Private(env, s, k) && ReadsFind(s, k)
    requires id in s.calls && s.calls[id].op.k == k && !TakesLock(s.calls[id].op)
    ensures var t := GoFree(env, s, id, s.calls[id]);
            InPlace(env, t, k) && ReadsFind(t, k)
  {
    hide GoFree, InPlace, ReadsFind, Private;
    if s.calls[id].op.Get? {
      OwnGetFinds(env, s, id, k);
    } else {
      OwnPutFinds(env, s, id, k);
    }
  }

  lemma OwnLockedStepFinds(env: Env, s: State, id: nat, k: Key)
    requires InPlace(env, s, k) && Private(env, s, k) && ReadsFind(s, k)
    requires id in s.calls && s.calls[id].op.k == k && TakesLock(s.calls[id].op)
    ensures var t := GoLocked(env, s, id, s.calls[id]);
            InPlace(env, t, k) && ReadsFind(t, k)
  {
    var call := s.calls[id];
    if HoldsLock(call) && !call.phase.Written? && call.op.Increment? {
      OwnIncrementFinds(env, s, id, k, call);
    }
    hide GoIncrement, Current;
  }

  lemma OwnIncrementFinds(env: Env, s: State, id: nat, k: Key, call: Call)
    requires InPlace(env, s, k) && Private(env, s, k) && ReadsFind(s, k)
    requires id in s.calls && s.calls[id] == call && call.op.k == k && HoldsLock(call) && call.op.Increment?
    ensures var t := GoIncrement(env, s, id, call);
            InPlace(env, t, k) && ReadsFind(t, k)
  {
    hide Current;
  }

  lemma OtherStepFinds(env: Env, s: State, id: nat, k: Key)
    requires InPlace(env, s, k) && Private(env, s, k) && ReadsFind(s, k) && id in s.calls && s.calls[id].op.k != k
    ensures var t := Next(env, s, Go(id));
            InPlace(env, t, k) && ReadsFind(t, k)
  {
    hide Next, View;
    OtherKeyLeavesView(env, s, id, k);
    OtherKeyLeavesLast(env, s, id, k);
  }

  /** A caller on another key writes nothing under `k` and reads nothing of it. */
  lemma OtherKeyLeavesLast(env: Env, s: State, id: nat, k: Key)
    requires id in s.calls && s.calls[id].op.k != k
    ensures var t := Next(env, s, Go(id));
            && (k in t.last <==> k in s.last) && (k in s.last ==> t.last[k] == s.last[k])
            && (t.answers == s.answers || (|t.answers| == |s.answers| + 1 && t.answers[..|s.answers|] == s.answers
                && t.answers[|s.answers|].k != k))
  {
    hide Holding, ReadFile, Current, GoForget, GoIncrement;
    var call := s.calls[id];
    if TakesLock(call.op) && HoldsLock(call) && !call.phase.Written? {
      OtherLockedLeavesLast(env, s, id, call, k);
    }
  }

  lemma OtherLockedLeavesLast(env: Env, s: State, id: nat, call: Call, k: Key)
    requires id in s.calls && s.calls[id] == call && HoldsLock(call) && call.op.k != k
    ensures var t := if call.op.Forget? then GoForget(env, s, id, call) else GoIncrement(env, s, id, call);
            (k in t.last <==> k in s.last) && (k in s.last ==> t.last[k] == s.last[k]) && t.answers == s.answers
  {
    hide Holding, Current;
  }

  lemma StepFinds(env: Env, s: State, step: Step, k: Key)
    requires InPlace(env, s, k) && Private(env, s, k) && ReadsFind(s, k)
    ensures InPlace(env, Next(env, s, step), k) && ReadsFind(Next(env, s, step), k)
  {
    hide GoFree, GoLocked, Holding;
    if step.Go? && step.id in s.calls {
      if s.calls[step.id].op.k != k {
        OtherStepFinds(env, s, step.id, k);
      } else if TakesLock(s.calls[step.id].op) {
        OwnLockedStepFinds(env, s, step.id, k);
      } else {
        OwnFreeStepFinds(env, s, step.id, k);
      }
    }
  }

  lemma {:induction false} RunFinds(env: Env, s: State, steps: seq<Step>, k: Key)
    requires InPlace(env, s, k) && ReadsFind(s, k) && PrivateRun(env, s, steps, k)
    ensures ReadsFind(Run(env, s, steps), k)
    decreases |steps|
  {
    hide InPlace, ReadsFind, Next, Private;
    if steps != [] {
      StepFinds(env, s, steps[0], k);
      RunFinds(env, Next(env, s, steps[0]), steps[1..], k);
    }
  }

  /**
   However the callers interleave: while no other key shares the file of `k`,
   and nothing written under `k` is over, every read of `k` answers exactly
   what was last written, and nothing if it was never written or was removed.
   */
  lemma EveryReadFinds(env: Env, clock: int, steps: seq<Step>, k: Key)
    requires PrivateRun(env, Start(clock), steps, k)
    ensures ReadsFind(Run(env, Start(clock), steps), k)
  {
    RunFinds(env, Start(clock), steps, k);
  }
}
