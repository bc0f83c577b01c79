/**
 Any number of callers on the file driver at once. Reading a file, renaming one
 into place and deleting one are single steps; increments and removals hold the
 lock of their key throughout, reads and plain writes hold none.
 */
module FileRuns {
  import opened Basics
  import opened CacheFlat
  import opened FileStore

  /** What a caller wants; an increment with a time to live of its own gives it. */
  datatype Op = Get(k: Key) | Put(k: Key, v: Value, ttl: Option<nat>) | Forget(k: Key)
      | Increment(k: Key, delta: int, ttl: Option<nat>)

  /** How far a caller has got. */
  datatype Phase =
    | Waiting
    | Locked
    | FoundExpired                        // a read that is about to delete the file
    | HasRead(current: Option<Value>)     // an increment that knows the current value
    | HasDeadline(current: Option<Value>, deadline: Option<int>)  // a writer that has read the clock
    | Removing                            // a removal that is about to delete the file
    | Written                             // nothing left but to give the lock back
    | Finished

  datatype Call = Call(op: Op, phase: Phase)

  /** An answer a read gave. */
  datatype Answer = Answer(k: Key, value: Option<Value>, clock: int, last: map<Key, Entry>)

  /** An increment that has been written. */
  datatype Counted = Counted(k: Key, delta: int, result: int)

  /**
   The files, the locks, the clock and the callers; and, for the record, what was
   last written under each key, what reads answered, and what was counted.
   */
  datatype State = State(
    files: Files, locks: map<nat, nat>, clock: int, calls: map<nat, Call>,
    last: map<Key, Entry>, answers: seq<Answer>, counted: seq<Counted>)

  datatype Step = Advance(passed: nat) | Begin(id: nat, op: Op) | Go(id: nat)

  datatype Env = Env(hashes: Hashes, parse: Parse) {
    function PathOf(k: Key): Path { hashes.Fingerprint(k) }
    function LockOf(k: Key): nat { hashes.LockOf(k) }
  }

  function At(s: State, id: nat, phase: Phase): State
    requires id in s.calls
  {
    s.(calls := s.calls[id := s.calls[id].(phase := phase)])
  }

  /** Only the files and what was last written differ. */
  predicate SameTasks(s: State, t: State) {
    t == s.(files := t.files, last := t.last)
  }

  function Write(env: Env, s: State, k: Key, e: Entry): (t: State)
    ensures SameTasks(s, t)
  {
    s.(files := s.files[env.PathOf(k) := Document(k, e)], last := s.last[k := e])
  }

  function Delete(env: Env, s: State, k: Key): (t: State)
    ensures SameTasks(s, t)
  {
    s.(files := s.files - {env.PathOf(k)})
  }

  /** Delete because the key is no longer wanted, not because it expired. */
  function Erase(env: Env, s: State, k: Key): (t: State)
    ensures SameTasks(s, t)
  {
    Delete(env, s, k).(last := s.last - {k})
  }

  /** What a read makes of the file of a key. */
  function ReadFile(env: Env, s: State, k: Key): Option<Value> {
    var held := Holding(s.files, env.PathOf(k), k);
    if held.Some? && !held.value.Expired(s.clock) then Some(held.value.value) else None
  }

  predicate TakesLock(op: Op) { op.Forget? || op.Increment? }

  function Current(parse: Parse, v: Option<Value>): int {
    if v.Some? then Counter(parse, v.value) else 0
  }

  /** The next step of a caller that needs no lock. */
  function GoFree(env: Env, s: State, id: nat, call: Call): State
    requires id in s.calls
  {
    var k := call.op.k;
    match (call.op, call.phase)
    case (Get(_), Waiting) =>
      var held := Holding(s.files, env.PathOf(k), k);
      var answered := s.(answers := s.answers + [Answer(k, ReadFile(env, s, k), s.clock, s.last)]);
      At(answered, id, if held.Some? && held.value.Expired(s.clock) then FoundExpired else Finished)
    case (Get(_), FoundExpired) => At(Delete(env, s, k), id, Finished)
    case (Put(_, v, ttl), Waiting) =>
      if ttl == Some(0) then At(Erase(env, s, k), id, Finished)
      else At(s, id, HasDeadline(None, if ttl.Some? then Some(s.clock + ttl.value) else None))
    case (Put(_, v, _), HasDeadline(_, deadline)) => At(Write(env, s, k, Entry(v, deadline)), id, Finished)
    case _ => s
  }

  predicate HoldsLock(call: Call) {
    TakesLock(call.op) && !call.phase.Waiting? && !call.phase.Finished?
  }

  /** A step of a caller that keeps its lock. */
  ghost predicate Working(s: State, t: State, id: nat) {
    && t.locks == s.locks && t.clock == s.clock && t.answers == s.answers
    && id in s.calls && t.calls.Keys == s.calls.Keys
    && (forall i :: i in s.calls && i != id ==> t.calls[i] == s.calls[i])
    && t.calls[id].op == s.calls[id].op && HoldsLock(t.calls[id])
  }

  function GoForget(env: Env, s: State, id: nat, call: Call): (t: State)
    requires id in s.calls && s.calls[id] == call && HoldsLock(call) && call.op.Forget?
    ensures Working(s, t, id)
  {
    match call.phase
    case Locked => At(s, id, Removing)
    case Removing => At(Erase(env, s, call.op.k), id, Written)
    case _ => s
  }

  function GoIncrement(env: Env, s: State, id: nat, call: Call): (t: State)
    requires id in s.calls && s.calls[id] == call && HoldsLock(call) && call.op.Increment?
    ensures Working(s, t, id)
  {
    var k := call.op.k;
    var held := Holding(s.files, env.PathOf(k), k);
    match call.phase
    case Locked =>
      if held.None? then At(s, id, HasRead(None))
      else if held.value.Expired(s.clock) then At(s, id, FoundExpired)
      else At(s, id, HasRead(Some(held.value.value)))
    case FoundExpired => At(Delete(env, s, k), id, HasRead(None))
    case HasRead(current) =>
      At(s, id, HasDeadline(current,
        if current.None? && call.op.ttl.Some? then Some(s.clock + call.op.ttl.value)
        else if held.Some? && !held.value.Expired(s.clock) then held.value.deadline else None))
    case HasDeadline(current, deadline) =>
      var next := Current(env.parse, current) + call.op.delta;
      At(Write(env, s, k, Entry(Number(next), deadline)), id,
          Written).(counted := s.counted + [Counted(k, call.op.delta, next)])
    case _ => s
  }

  /** The next step of a caller that holds the lock of its key, or wants it. */
  function GoLocked(env: Env, s: State, id: nat, call: Call): State
    requires id in s.calls && s.calls[id] == call && TakesLock(call.op)
  {
    var lock := env.LockOf(call.op.k);
    match call.phase
    case Waiting => if lock in s.locks then s else At(s, id, Locked).(locks := s.locks[lock := id])
    case Finished => s
    case Written => At(s, id, Finished).(locks := s.locks - {lock})
    case _ => if call.op.Forget? then GoForget(env, s, id, call) else GoIncrement(env, s, id, call)
  }

  function Next(env: Env, s: State, step: Step): State {
    match step
    case Advance(n) => s.(clock := s.clock + n)
    case Begin(id, op) => if id in s.calls then s else s.(calls := s.calls[id := Call(op, Waiting)])
    case Go(id) =>
      if id !in s.calls then s
      else if TakesLock(s.calls[id].op) then GoLocked(env, s, id, s.calls[id]) else GoFree(env, s, id, s.calls[id])
  }

  function Run(env: Env, s: State, steps: seq<Step>): State
    decreases |steps|
  {
    if steps == [] then s else Run(env, Next(env, s, steps[0]), steps[1..])
  }

  function Start(clock: int): State {
    State(map[], map[], clock, map[], map[], [], [])
  }

  // ----- Reads are sound -----

  /** Every file is its key's, and says what was last written under that key. */
  predicate FilesAreLast(env: Env, files: Files, last: map<Key, Entry>) {
    forall p :: p in files ==>
      && files[p].Document? && env.PathOf(files[p].key) == p
      && files[p].key in last && last[files[p].key] == files[p].entry
  }

  /** A read found nothing, or exactly the live value last written under its own key. */
  predicate AnswerFits(a: Answer) {
    a.value.Some? ==> a.k in a.last && a.value == Some(a.last[a.k].value) && !a.last[a.k].Expired(a.clock)
  }

  predicate Sound(env: Env, s: State) {
    FilesAreLast(env, s.files, s.last) && forall j :: 0 <= j < |s.answers| ==> AnswerFits(s.answers[j])
  }

  lemma WriteStays(env: Env, s: State, k: Key, e: Entry)
    requires FilesAreLast(env, s.files, s.last)
    ensures FilesAreLast(env, Write(env, s, k, e).files, Write(env, s, k, e).last)
  {}

  lemma DeleteStays(env: Env, s: State, k: Key)
    requires FilesAreLast(env, s.files, s.last)
    ensures FilesAreLast(env, Delete(env, s, k).files, Delete(env, s, k).last)
    ensures FilesAreLast(env, Erase(env, s, k).files, Erase(env, s, k).last)
  {}

  lemma ReadIsSound(env: Env, s: State, k: Key)
    requires FilesAreLast(env, s.files, s.last)
    ensures AnswerFits(Answer(k, ReadFile(env, s, k), s.clock, s.last))
  {}

  lemma FreeKeepsSound(env: Env, s: State, id: nat)
    requires Sound(env, s) && id in s.calls
    ensures Sound(env, GoFree(env, s, id, s.calls[id]))
  {
    hide AnswerFits, FilesAreLast, ReadFile;
    var op, phase := s.calls[id].op, s.calls[id].phase;
    ReadIsSound(env, s, op.k);
    DeleteStays(env, s, op.k);
    match (op, phase)
    case (Put(_, v, _), HasDeadline(_, deadline)) => WriteStays(env, s, op.k, Entry(v, deadline));
    case _ =>
  }

  lemma LockedKeepsSound(env: Env, s: State, id: nat)
    requires Sound(env, s) && id in s.calls && TakesLock(s.calls[id].op)
    ensures Sound(env, GoLocked(env, s, id, s.calls[id]))
  {
    hide AnswerFits, FilesAreLast, GoIncrement;
    var call := s.calls[id];
    DeleteStays(env, s, call.op.k);
    if call.op.Increment? && HoldsLock(call) {
      IncrementKeepsSound(env, s, id, call);
    }
  }

  lemma IncrementKeepsSound(env: Env, s: State, id: nat, call: Call)
    requires Sound(env, s) && id in s.calls && s.calls[id] == call && HoldsLock(call) && call.op.Increment?
    ensures Sound(env, GoIncrement(env, s, id, call))
  {
    hide AnswerFits, FilesAreLast, Holding, Write, Delete, Current;
    DeleteStays(env, s, call.op.k);
    match call.phase
    case HasDeadline(current, deadline) =>
      WriteStays(env, s, call.op.k, Entry(Number(Current(env.parse, current) + call.op.delta), deadline));
    case _ =>
  }

  lemma StepKeepsSound(env: Env, s: State, step: Step)
    requires Sound(env, s)
    ensures Sound(env, Next(env, s, step))
  {
    hide AnswerFits, FilesAreLast, GoFree, GoLocked;
    match step
    case Go(id) =>
      if id in s.calls {
        if TakesLock(s.calls[id].op) {
          LockedKeepsSound(env, s, id);
        } else {
          FreeKeepsSound(env, s, id);
        }
      }
    case _ =>
  }

  lemma {:induction false} RunKeepsSound(env: Env, s: State, steps: seq<Step>)
    requires Sound(env, s)
    ensures Sound(env, Run(env, s, steps))
    decreases |steps|
  {
    hide Sound, Next;
    if steps != [] {
      StepKeepsSound(env, s, steps[0]);
      RunKeepsSound(env, Next(env, s, steps[0]), steps[1..]);
    }
  }

  /** Whatever the fingerprints and the interleaving, no read answers with another key's value or an old one. */
  lemma EveryReadIsSound(env: Env, clock: int, steps: seq<Step>)
    ensures var s := Run(env, Start(clock), steps);
            forall j :: 0 <= j < |s.answers| ==> AnswerFits(s.answers[j])
  {
    RunKeepsSound(env, Start(clock), steps);
  }

  // ----- Locks -----

  /** A caller between taking its lock and giving it back is the one on record for it. */
  predicate LocksFit(env: Env, s: State) {
    forall id :: id in s.calls && HoldsLock(s.calls[id]) ==>
      env.LockOf(s.calls[id].op.k) in s.locks && s.locks[env.LockOf(s.calls[id].op.k)] == id
  }

  lemma StepKeepsLocks(env: Env, s: State, step: Step)
    requires LocksFit(env, s)
    ensures LocksFit(env, Next(env, s, step))
  {
    hide GoLocked, GoFree;
    if step.Go? && step.id in s.calls {
      if TakesLock(s.calls[step.id].op) {
        LockedKeepsLocks(env, s, step.id);
      } else {
        FreeKeepsLocks(env, s, step.id);
      }
    }
  }

  lemma FreeKeepsLocks(env: Env, s: State, id: nat)
    requires LocksFit(env, s) && id in s.calls && !TakesLock(s.calls[id].op)
    ensures LocksFit(env, GoFree(env, s, id, s.calls[id]))
  {
    hide Holding, ReadFile, Write, Delete, Erase;
  }

  lemma LockedKeepsLocks(env: Env, s: State, id: nat)
    requires LocksFit(env, s) && id in s.calls && TakesLock(s.calls[id].op)
    ensures LocksFit(env, GoLocked(env, s, id, s.calls[id]))
  {
    hide GoForget, GoIncrement;
  }

  lemma {:induction false} RunKeepsLocks(env: Env, s: State, steps: seq<Step>)
    requires LocksFit(env, s)
    ensures LocksFit(env, Run(env, s, steps))
    decreases |steps|
  {
    hide LocksFit, Next;
    if steps != [] {
      StepKeepsLocks(env, s, steps[0]);
      RunKeepsLocks(env, Next(env, s, steps[0]), steps[1..]);
    }
  }

  /**
   In every run, of all callers on keys that share a file, at most one is between taking its
   lock and giving it back.
   */
  lemma OneHolderPerFile(env: Env, clock: int, steps: seq<Step>, i: nat, j: nat)
    requires env.hashes.Fits()
    requires var s := Run(env, Start(clock), steps);
             && i in s.calls && j in s.calls && HoldsLock(s.calls[i]) && HoldsLock(s.calls[j])
             && env.PathOf(s.calls[i].op.k) == env.PathOf(s.calls[j].op.k)
    ensures i == j
  {
    var s := Run(env, Start(clock), steps);
    RunKeepsLocks(env, Start(clock), steps);
    SameFileSameLock(env.hashes, s.calls[i].op.k, s.calls[j].op.k);
  }

  // ----- Increments add up -----

  function Total(counted: seq<Counted>, k: Key): int {
    if counted == [] then 0
    else Total(counted[..|counted| - 1], k) + if counted[|counted| - 1].k == k then counted[|counted| - 1].delta else 0
  }

  function View(env: Env, s: State, k: Key): Option<Entry> {
    Holding(s.files, env.PathOf(k), k)
  }

  /** Nobody but readers and increments touches the key, no other key shares its file, and it has not expired. */
  predicate Undisturbed(env: Env, s: State, k: Key) {
    && (forall id :: id in s.calls ==> if s.calls[id].op.k == k then s.calls[id].op.Get? || s.calls[id].op.Increment?
                                       else env.PathOf(s.calls[id].op.k) != env.PathOf(k))
    && (View(env, s, k).Some? ==> !View(env, s, k).value.Expired(s.clock))
  }

  ghost predicate UndisturbedRun(env: Env, s: State, steps: seq<Step>, k: Key)
    decreases |steps|
  {
    Undisturbed(env, s, k) && (steps == [] || UndisturbedRun(env, Next(env, s, steps[0]), steps[1..], k))
  }

  function ValueOf(e: Option<Entry>): Option<Value> {
    if e.Some? then Some(e.value.value) else None
  }

  /** What an increment under way knows about the key is still so. */
  predicate KnowsCurrent(env: Env, s: State, k: Key, call: Call) {
    call.op.k == k ==>
      && !call.phase.FoundExpired?
      && (call.phase.HasRead? || call.phase.HasDeadline? ==> call.op.Increment?)
      && (call.phase.HasRead? ==> call.phase.current == ValueOf(View(env, s, k)))
      && (call.phase.HasDeadline? ==>
            && call.phase.current == ValueOf(View(env, s, k))
            && (View(env, s, k).Some? ==> call.phase.deadline == View(env, s, k).value.deadline))
  }

  /** The counter is the sum of what was counted, and each increment answered the sum so far. */
  predicate SumFits(env: Env, s: State, k: Key) {
    && Current(env.parse, ValueOf(View(env, s, k))) == Total(s.counted, k)
    && forall j :: 0 <= j < |s.counted| && s.counted[j].k == k ==> s.counted[j].result == Total(s.counted[..j + 1], k)
  }

  predicate AddsUp(env: Env, s: State, k: Key) {
    && LocksFit(env, s) && SumFits(env, s, k)
    && forall id :: id in s.calls ==> KnowsCurrent(env, s, k, s.calls[id])
  }

  lemma CountOne(env: Env, s: State, t: State, k: Key, c: Counted)
    requires SumFits(env, s, k) && t.counted == s.counted + [c]
    requires if c.k == k then c.result == Total(s.counted, k) + c.delta
             && Current(env.parse, ValueOf(View(env, t, k))) == c.result
             else View(env, t, k) == View(env, s, k)
    ensures SumFits(env, t, k)
  {
    hide View, Current;
    assert t.counted[..|s.counted|] == s.counted;
    forall j | 0 <= j < |t.counted| && t.counted[j].k == k
      ensures t.counted[j].result == Total(t.counted[..j + 1], k)
    {
      if j < |s.counted| {
        assert t.counted[..j + 1] == s.counted[..j + 1];
      } else {
        assert t.counted[..j + 1] == t.counted;
      }
    }
  }

  /** A step of a caller on another key. */
  lemma OtherKeyAddsUp(env: Env, s: State, id: nat, k: Key)
    requires AddsUp(env, s, k) && Undisturbed(env, s, k) && id in s.calls && s.calls[id].op.k != k
    ensures var t := Next(env, s, Go(id));
            SumFits(env, t, k) && (forall i :: i in t.calls ==> KnowsCurrent(env, t, k, t.calls[i]))
                && View(env, t, k) == View(env, s, k)
  {
    var t := Next(env, s, Go(id));
    OtherKeyLeavesView(env, s, id, k);
    hide View, LocksFit, GoFree;
    if t.counted != s.counted {
      CountOne(env, s, t, k, t.counted[|s.counted|]);
    }
  }

  lemma OtherFileLeavesView(env: Env, s: State, x: Key, k: Key, e: Entry)
    requires env.PathOf(x) != env.PathOf(k)
    ensures View(env, Write(env, s, x, e), k) == View(env, Delete(env, s, x), k) == View(env, Erase(env, s, x), k)
            == View(env, s, k)
  {}

  /** What a step of a caller on another key leaves alone. */
  predicate ApartFrom(env: Env, s: State, t: State, id: nat, k: Key)
    requires id in s.calls
  {
    && View(env, t, k) == View(env, s, k) && t.calls.Keys == s.calls.Keys
    && (forall i :: i in s.calls ==> t.calls[i].op == s.calls[i].op && (i != id ==> t.calls[i] == s.calls[i]))
    && (t.counted == s.counted || (|t.counted| == |s.counted| + 1 && t.counted == s.counted + [t.counted[|s.counted|]]
       && t.counted[|s.counted|].k != k))
  }

  lemma OtherKeyLeavesView(env: Env, s: State, id: nat, k: Key)
    requires id in s.calls && s.calls[id].op.k != k && env.PathOf(s.calls[id].op.k) != env.PathOf(k)
    ensures ApartFrom(env, s, Next(env, s, Go(id)), id, k)
  {
    hide GoLocked, GoFree, ApartFrom;
    if TakesLock(s.calls[id].op) {
      LockedApart(env, s, id, k);
    } else {
      FreeApart(env, s, id, k);
    }
  }

  lemma FreeApart(env: Env, s: State, id: nat, k: Key)
    requires id in s.calls && s.calls[id].op.k != k && env.PathOf(s.calls[id].op.k) != env.PathOf(k)
    ensures ApartFrom(env, s, GoFree(env, s, id, s.calls[id]), id, k)
  {
    hide ReadFile, Write, Delete, Erase, Holding;
    var x := s.calls[id].op.k;
    forall e: Entry
      ensures View(env, Write(env, s, x, e), k) == View(env, Delete(env, s, x), k) == View(env, Erase(env, s, x), k)
              == View(env, s, k)
    {
      OtherFileLeavesView(env, s, x, k, e);
    }
    OtherFileLeavesView(env, s, x, k, Entry(Number(0), None));
  }

  lemma LockedApart(env: Env, s: State, id: nat, k: Key)
    requires id in s.calls && TakesLock(s.calls[id].op) && s.calls[id].op.k != k
             && env.PathOf(s.calls[id].op.k) != env.PathOf(k)
    ensures ApartFrom(env, s, GoLocked(env, s, id, s.calls[id]), id, k)
  {
    hide GoForget, GoIncrement, ApartFrom;
    var call := s.calls[id];
    if HoldsLock(call) && !call.phase.Written? {
      if call.op.Increment? {
        IncrementApart(env, s, id, k, call);
      } else {
        ForgetApart(env, s, id, k, call);
      }
    } else {
      LockApart(env, s, id, k, call);
    }
  }

  lemma LockApart(env: Env, s: State, id: nat, k: Key, call: Call)
    requires id in s.calls && s.calls[id] == call && TakesLock(call.op) && (!HoldsLock(call) || call.phase.Written?)
    ensures ApartFrom(env, s, GoLocked(env, s, id, call), id, k)
  {
    hide GoForget, GoIncrement, Holding;
  }

  lemma ForgetApart(env: Env, s: State, id: nat, k: Key, call: Call)
    requires id in s.calls && s.calls[id] == call && HoldsLock(call) && call.op.Forget?
    requires call.op.k != k && env.PathOf(call.op.k) != env.PathOf(k)
    ensures ApartFrom(env, s, GoForget(env, s, id, call), id, k)
  {
    hide Erase, Holding;
    OtherFileLeavesView(env, s, call.op.k, k, Entry(Number(0), None));
  }

  lemma IncrementApart(env: Env, s: State, id: nat, k: Key, call: Call)
    requires id in s.calls && s.calls[id] == call && HoldsLock(call) && call.op.Increment?
    requires call.op.k != k && env.PathOf(call.op.k) != env.PathOf(k)
    ensures ApartFrom(env, s, GoIncrement(env, s, id, call), id, k)
  {
    hide Write, Delete, Holding, Current;
    var x := call.op.k;
    OtherFileLeavesView(env, s, x, k, Entry(Number(0), None));
    match call.phase
    case HasDeadline(current, deadline) =>
      OtherFileLeavesView(env, s, x, k, Entry(Number(Current(env.parse, current) + call.op.delta), deadline));
      var t := GoIncrement(env, s, id, call);
      assert t.files == Write(env, s, x, Entry(Number(Current(env.parse, current) + call.op.delta), deadline)).files;
    case _ =>
  }

  /** A step of a caller on the key keeps the sum, what the others know, and the deadline. */
  predicate StepAddsUp(env: Env, s: State, t: State, k: Key) {
    && SumFits(env, t, k) && (forall i :: i in t.calls ==> KnowsCurrent(env, t, k, t.calls[i]))
    && (View(env, s, k).Some? ==>
       View(env, t, k).Some? && View(env, t, k).value.deadline == View(env, s, k).value.deadline)
  }

  /** A step that leaves the file and the counts alone. */
  lemma QuietStepAddsUp(env: Env, s: State, t: State, id: nat, k: Key)
    requires AddsUp(env, s, k) && id in s.calls && t.files == s.files && t.counted == s.counted
    requires t.calls.Keys == s.calls.Keys && (forall i :: i in s.calls && i != id ==> t.calls[i] == s.calls[i])
    requires KnowsCurrent(env, t, k, t.calls[id])
    ensures StepAddsUp(env, s, t, k)
  {
    hide LocksFit, Holding, Current;
  }

  lemma OwnGetAddsUp(env: Env, s: State, id: nat, k: Key)
    requires AddsUp(env, s, k) && Undisturbed(env, s, k) && id in s.calls && s.calls[id].op == Get(k)
    ensures StepAddsUp(env, s, Next(env, s, Go(id)), k)
  {
    hide LocksFit, SumFits, StepAddsUp, ReadFile;
    assert KnowsCurrent(env, s, k, s.calls[id]);
    QuietStepAddsUp(env, s, Next(env, s, Go(id)), id, k);
  }

  lemma OwnLockAddsUp(env: Env, s: State, id: nat, k: Key, call: Call)
    requires AddsUp(env, s, k) && id in s.calls && s.calls[id] == call && TakesLock(call.op)
             && (!HoldsLock(call) || call.phase.Written?)
    ensures StepAddsUp(env, s, GoLocked(env, s, id, call), k)
  {
    hide LocksFit, SumFits, StepAddsUp, GoIncrement, GoForget;
    var t := GoLocked(env, s, id, call);
    assert KnowsCurrent(env, s, k, call);
    assert KnowsCurrent(env, t, k, t.calls[id]);
    QuietStepAddsUp(env, s, t, id, k);
  }

  lemma OwnReadAddsUp(env: Env, s: State, id: nat, k: Key, call: Call)
    requires AddsUp(env, s, k) && Undisturbed(env, s, k) && id in s.calls && s.calls[id] == call
    requires call.op.Increment? && call.op.k == k && HoldsLock(call) && !call.phase.HasDeadline?
    ensures StepAddsUp(env, s, GoIncrement(env, s, id, call), k)
  {
    hide LocksFit, SumFits, StepAddsUp, Current, Delete;
    var t := GoIncrement(env, s, id, call);
    assert KnowsCurrent(env, s, k, call);
    assert KnowsCurrent(env, t, k, t.calls[id]);
    QuietStepAddsUp(env, s, t, id, k);
  }

  lemma OwnWriteAddsUp(env: Env, s: State, id: nat, k: Key, call: Call)
    requires AddsUp(env, s, k) && id in s.calls && s.calls[id] == call
    requires call.op.Increment? && call.op.k == k && call.phase.HasDeadline?
    ensures StepAddsUp(env, s, GoIncrement(env, s, id, call), k)
  {
    var t := GoIncrement(env, s, id, call);
    assert KnowsCurrent(env, s, k, call);
    var next := Current(env.parse, call.phase.current) + call.op.delta;
    assert View(env, t, k) == Some(Entry(Number(next), call.phase.deadline));
    CountOne(env, s, t, k, Counted(k, call.op.delta, next));
    hide SumFits, View, GoIncrement;
    forall i | i in t.calls
      ensures KnowsCurrent(env, t, k, t.calls[i])
    {
      if i != id && t.calls[i].op.k == k {
        assert t.calls[i] == s.calls[i];
        assert HoldsLock(s.calls[i]) ==> i == id;
        assert KnowsCurrent(env, s, k, s.calls[i]);
      }
    }
  }

  lemma GoAddsUp(env: Env, s: State, id: nat, k: Key)
    requires AddsUp(env, s, k) && Undisturbed(env, s, k) && id in s.calls
    ensures StepAddsUp(env, s, Next(env, s, Go(id)), k)
  {
    hide AddsUp, StepAddsUp, GoForget, GoIncrement, View;
    var call := s.calls[id];
    if call.op.k != k {
      OtherIsQuiet(env, s, id, k);
    } else if call.op.Get? {
      OwnGetAddsUp(env, s, id, k);
    } else if !HoldsLock(call) || call.phase.Written? {
      OwnLockAddsUp(env, s, id, k, call);
    } else if call.phase.HasDeadline? {
      OwnWriteAddsUp(env, s, id, k, call);
    } else {
      OwnReadAddsUp(env, s, id, k, call);
    }
  }

  lemma OtherIsQuiet(env: Env, s: State, id: nat, k: Key)
    requires AddsUp(env, s, k) && Undisturbed(env, s, k) && id in s.calls && s.calls[id].op.k != k
    ensures StepAddsUp(env, s, Next(env, s, Go(id)), k)
  {
    hide Next, SumFits, View, KnowsCurrent, LocksFit, Undisturbed;
    OtherKeyAddsUp(env, s, id, k);
  }

  lemma StepKeepsSum(env: Env, s: State, step: Step, k: Key)
    requires AddsUp(env, s, k) && Undisturbed(env, s, k)
    ensures AddsUp(env, Next(env, s, step), k)
    ensures View(env, s, k).Some? ==>
              View(env, Next(env, s, step), k).Some?
                  && View(env, Next(env, s, step), k).value.deadline == View(env, s, k).value.deadline
  {
    hide LocksFit, GoLocked, GoFree, Holding;
    StepKeepsLocks(env, s, step);
    if step.Go? && step.id in s.calls {
      GoAddsUp(env, s, step.id, k);
    }
  }

  lemma {:induction false} RunKeepsSum(env: Env, s: State, steps: seq<Step>, k: Key)
    requires AddsUp(env, s, k) && UndisturbedRun(env, s, steps, k)
    ensures AddsUp(env, Run(env, s, steps), k)
    ensures View(env, s, k).Some? ==>
              View(env, Run(env, s, steps), k).Some?
                  && View(env, Run(env, s, steps), k).value.deadline == View(env, s, k).value.deadline
    decreases |steps|
  {
    hide AddsUp, Next, View, Undisturbed;
    if steps != [] {
      StepKeepsSum(env, s, steps[0], k);
      RunKeepsSum(env, Next(env, s, steps[0]), steps[1..], k);
    }
  }

  /**
   However the increments of a key interleave, with one another and with
   everything else, the key holds the sum of all that were written, and each
   answered the sum so far: none is lost.
   */
  lemma IncrementsSumExactly(env: Env, clock: int, steps: seq<Step>, k: Key)
    requires UndisturbedRun(env, Start(clock), steps, k)
    ensures var s := Run(env, Start(clock), steps);
            && Current(env.parse, ValueOf(View(env, s, k))) == Total(s.counted, k)
            && forall j :: 0 <= j < |s.counted| && s.counted[j].k == k ==>
               s.counted[j].result == Total(s.counted[..j + 1], k)
  {
    RunKeepsSum(env, Start(clock), steps, k);
  }

  lemma StartAddsUp(env: Env, clock: int, k: Key)
    ensures AddsUp(env, Start(clock), k)
  {}

  /** From the moment the key exists, its deadline never moves. */
  lemma DeadlineNeverMoves(env: Env, clock: int, steps: seq<Step>, more: seq<Step>, k: Key)
    requires UndisturbedRun(env, Start(clock), steps, k) && UndisturbedRun(env, Run(env, Start(clock), steps), more, k)
    requires View(env, Run(env, Start(clock), steps), k).Some?
    ensures var s := Run(env, Start(clock), steps);
            var t := Run(env, s, more);
            View(env, t, k).Some? && View(env, t, k).value.deadline == View(env, s, k).value.deadline
  {
    hide View, UndisturbedRun, AddsUp;
    StartAddsUp(env, clock, k);
    RunKeepsSum(env, Start(clock), steps, k);
    RunKeepsSum(env, Run(env, Start(clock), steps), more, k);
  }
}
