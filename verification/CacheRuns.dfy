/**
 Any number of callers on the in-memory driver at once. Each lock section is one
 step; a caller's clock reading is older than the section that uses it, an
 expired entry may be evicted by a reader or a sweep at any time. Every run is
 explained by a run of one flat map, one operation after another, in which
 nothing is ever evicted and each operation acts at a moment between its clock
 reading and its lock section.
 */
module CacheRuns {
  import opened Basics
  import opened CacheFlat

  datatype Op =
    | Get(k: Key)
    | Write(k: Key, v: Value, ttl: Option<nat>)
    | Remove(k: Key)
    | Bump(k: Key, delta: int, ttl: Option<nat>)
    | Ttl(k: Key)
    | Clear(part: set<Key>)

  datatype Answer = Found(value: Option<Value>) | Done | Removed(did: bool) | Count(n: int) | Left(left: Option<int>)

  /** One operation on the flat map, at clock `c`; deadlines are set from the reading `now`. */
  function FlatStep(parse: Parse, m: Flat, op: Op, c: int, now: int): (Flat, Answer) {
    match op
    case Get(k) => (m, Found(Lookup(m, k, c)))
    case Write(k, v, ttl) => (m[k := Entry(v, if ttl.Some? then Some(now + ttl.value) else None)], Done)
    case Remove(k) => (m - {k}, Removed(Live(m, k, c)))
    case Bump(k, delta, ttl) =>
      var e := Bumped(parse, m, k, delta, ttl, c, now);
      (m[k := e], Count(Counter(parse, e.value)))
    case Ttl(k) => (m, Left(TimeLeft(m, k, c)))
    case Clear(part) => (m - part, Done)
  }

  // ----- The driver -----

  /** A caller between its clock reading and its last lock section. */
  datatype Call =
    | Waiting(op: Op, now: int)
    | Retrying(k: Key, now: int)
    | Sweeping(now: int)

  /** What an operation did to the flat map, and when. */
  datatype Event = Event(op: Op, now: int, time: int, before: Flat, after: Flat, answer: Answer)

  /** The store, the clock, the callers; and, for the record, the flat map and its history. */
  datatype State = State(store: Flat, clock: int, calls: map<nat, Call>, flat: Flat, history: seq<Event>)

  datatype Step =
    | Advance(passed: nat)
    | Begin(id: nat, op: Op)
    | BeginSweep(id: nat)
    | Section(id: nat)
    | SweepShard(id: nat, part: set<Key>)
    | EndSweep(id: nat)

  /** What a lock section does: the store afterwards, and the answer unless the call has to try again. */
  function RunSection(parse: Parse, store: Flat, op: Op, now: int): (Flat, Option<Answer>) {
    match op
    case Get(k) =>
      if k !in store then (store, Some(Found(None)))
      else if !store[k].Expired(now) then (store, Some(Found(Some(store[k].value))))
      else (store, None)
    case Write(k, v, ttl) => (store[k := Entry(v, if ttl.Some? then Some(now + ttl.value) else None)], Some(Done))
    case Remove(k) => (store - {k}, Some(Removed(k in store && !store[k].Expired(now))))
    case Bump(k, delta, ttl) =>
      if k in store && !store[k].Expired(now) then
        var next := Counter(parse, store[k].value) + delta;
        (store[k := Entry(Number(next), store[k].deadline)], Some(Count(next)))
      else (store[k := Entry(Number(delta), if ttl.Some? then Some(now + ttl.value) else None)], Some(Count(delta)))
    case Ttl(k) =>
      if k in store && !store[k].Expired(now) && store[k].deadline.Some?
          then (store, Some(Left(Some(store[k].deadline.value - now))))
      else (store, Some(Left(None)))
    case Clear(part) => (store - part, Some(Done))
  }

  /** The second section of a read: evict, unless the entry has been replaced meanwhile. */
  function RunRetry(store: Flat, k: Key, now: int): (Flat, Option<Value>) {
    if k !in store then (store, None)
    else if store[k].Expired(now) then (store - {k}, None)
    else (store, Some(store[k].value))
  }

  /** When the flat map takes the operation: at its reading, or, if the key was evicted, now. */
  function Moment(store: Flat, flat: Flat, k: Key, now: int, clock: int): int {
    if k in flat && k !in store then clock else now
  }

  function MomentOf(store: Flat, flat: Flat, op: Op, now: int, clock: int): int {
    if op.Clear? then now else Moment(store, flat, op.k, now, clock)
  }

  /** Let the flat map take the operation, and put it on record. */
  function Record(parse: Parse, s: State, store: Flat, op: Op, now: int, answer: Answer): State {
    var after := FlatStep(parse, s.flat, op, MomentOf(s.store, s.flat, op, now, s.clock), now).0;
    s.(store := store, flat := after, history := s.history + [Event(op, now, s.clock, s.flat, after, answer)])
  }

  function Next(parse: Parse, s: State, step: Step): State {
    match step
    case Advance(n) => s.(clock := s.clock + n)
    case Begin(id, op) => if id in s.calls then s else s.(calls := s.calls[id := Waiting(op, s.clock)])
    case BeginSweep(id) => if id in s.calls then s else s.(calls := s.calls[id := Sweeping(s.clock)])
    case Section(id) =>
      if id !in s.calls then s else (
        match s.calls[id]
        case Waiting(op, now) =>
          var (store, answer) := RunSection(parse, s.store, op, now);
          if answer.None? then s.(calls := s.calls[id := Retrying(op.k, now)])
          else Record(parse, s, store, op, now, answer.value).(calls := s.calls - {id})
        case Retrying(k, now) =>
          var (store, value) := RunRetry(s.store, k, now);
          Record(parse, s, store, Get(k), now, Found(value)).(calls := s.calls - {id})
        case Sweeping(_) => s
      )
    case SweepShard(id, part) =>
      if id !in s.calls || !s.calls[id].Sweeping? then s
      else s.(store := map k | k in s.store && !(k in part && s.store[k].Expired(s.calls[id].now)) :: s.store[k])
    case EndSweep(id) => if id in s.calls && s.calls[id].Sweeping? then s.(calls := s.calls - {id}) else s
  }

  function Run(parse: Parse, s: State, steps: seq<Step>): State
    decreases |steps|
  {
    if steps == [] then s else Run(parse, Next(parse, s, steps[0]), steps[1..])
  }

  function Start(clock: int): State {
    State(map[], clock, map[], map[], [])
  }

  // ----- The flat map explains the driver -----

  /** The store is the flat map less some entries that have expired. */
  predicate Evicted(store: Flat, flat: Flat, clock: int) {
    && (forall k :: k in store ==> k in flat && flat[k] == store[k])
    && (forall k :: k in flat && k !in store ==> flat[k].Expired(clock))
  }

  /** The operation acted as the flat map does at this moment within the call. */
  predicate ExplainedAt(parse: Parse, e: Event, c: int) {
    e.now <= c <= e.time && FlatStep(parse, e.before, e.op, c, e.now) == (e.after, e.answer)
  }

  /** The operation acted as the flat map does at some moment within the call. */
  ghost predicate Explained(parse: Parse, e: Event) {
    exists c :: ExplainedAt(parse, e, c)
  }

  /** The record is a run of the flat map, one operation after another, in the order of time. */
  ghost predicate Legal(parse: Parse, history: seq<Event>, flat: Flat, clock: int) {
    && (forall j :: 0 <= j < |history| ==> Explained(parse, history[j]) && history[j].time <= clock)
    && (forall j :: 0 < j < |history| ==>
       history[j].before == history[j - 1].after && history[j - 1].time <= history[j].time)
    && (history == [] ==> flat == map[])
    && (history != [] ==> history[0].before == map[] && history[|history| - 1].after == flat)
  }

  ghost predicate Inv(parse: Parse, s: State) {
    && Evicted(s.store, s.flat, s.clock)
    && (forall id :: id in s.calls ==> s.calls[id].now <= s.clock)
    && Legal(parse, s.history, s.flat, s.clock)
  }

  lemma SectionRefines(parse: Parse, store: Flat, flat: Flat, op: Op, now: int, clock: int)
    requires Evicted(store, flat, clock) && now <= clock
    ensures var (after, answer) := RunSection(parse, store, op, now);
            var c := MomentOf(store, flat, op, now, clock);
            && now <= c <= clock
            && (answer.Some? ==> answer.value == FlatStep(parse, flat, op, c, now).1
                                 && Evicted(after, FlatStep(parse, flat, op, c, now).0, clock))
  {}

  lemma RetryRefines(parse: Parse, store: Flat, flat: Flat, k: Key, now: int, clock: int)
    requires Evicted(store, flat, clock) && now <= clock
    ensures var (after, value) := RunRetry(store, k, now);
            var c := MomentOf(store, flat, Get(k), now, clock);
            && now <= c <= clock
            && Found(value) == FlatStep(parse, flat, Get(k), c, now).1 && Evicted(after, flat, clock)
  {}

  lemma RecordKeepsInv(parse: Parse, s: State, store: Flat, op: Op, now: int, answer: Answer)
    requires Inv(parse, s) && now <= s.clock
    requires var c := MomentOf(s.store, s.flat, op, now, s.clock);
             && now <= c <= s.clock && answer == FlatStep(parse, s.flat, op, c, now).1
             && Evicted(store, FlatStep(parse, s.flat, op, c, now).0, s.clock)
    ensures Inv(parse, Record(parse, s, store, op, now, answer))
  {
    hide FlatStep, MomentOf, Evicted;
    var t := Record(parse, s, store, op, now, answer);
    var e := t.history[|s.history|];
    var c := MomentOf(s.store, s.flat, op, now, s.clock);
    assert ExplainedAt(parse, e, c);
    assert Explained(parse, e);
    hide Explained;
    forall j | 0 <= j < |t.history|
      ensures Explained(parse, t.history[j]) && t.history[j].time <= t.clock
    {
      assert j < |s.history| ==> t.history[j] == s.history[j];
    }
    forall j | 0 < j < |t.history|
      ensures t.history[j].before == t.history[j - 1].after && t.history[j - 1].time <= t.history[j].time
    {
      assert t.history[j - 1] == s.history[j - 1];
      assert j < |s.history| ==> t.history[j] == s.history[j];
    }
  }

  lemma SectionKeepsInv(parse: Parse, s: State, id: nat)
    requires Inv(parse, s)
    ensures Inv(parse, Next(parse, s, Section(id)))
  {
    hide FlatStep, MomentOf, RunSection, RunRetry, Legal, Evicted;
    if id in s.calls {
      match s.calls[id]
      case Waiting(op, now) =>
        var (store, answer) := RunSection(parse, s.store, op, now);
        SectionRefines(parse, s.store, s.flat, op, now, s.clock);
        if answer.Some? {
          RecordKeepsInv(parse, s, store, op, now, answer.value);
        }
      case Retrying(k, now) =>
        var (store, value) := RunRetry(s.store, k, now);
        RetryRefines(parse, s.store, s.flat, k, now, s.clock);
        GetLeavesAlone(parse, s.flat, k, MomentOf(s.store, s.flat, Get(k), now, s.clock), now);
        RecordKeepsInv(parse, s, store, Get(k), now, Found(value));
      case Sweeping(_) =>
    }
  }

  lemma GetLeavesAlone(parse: Parse, flat: Flat, k: Key, c: int, now: int)
    ensures FlatStep(parse, flat, Get(k), c, now).0 == flat
  {}

  /** A sweep is invisible: it only removes what no later operation can see. */
  lemma SweepKeepsInv(parse: Parse, s: State, id: nat, part: set<Key>)
    requires Inv(parse, s)
    ensures Inv(parse, Next(parse, s, SweepShard(id, part)))
    ensures Next(parse, s, SweepShard(id, part)).flat == s.flat
  {
    hide Legal;
  }

  lemma LaterIsStillLegal(parse: Parse, s: State, n: nat)
    requires Inv(parse, s)
    ensures Inv(parse, Next(parse, s, Advance(n)))
  {
    hide Explained;
  }

  lemma StepKeepsInv(parse: Parse, s: State, step: Step)
    requires Inv(parse, s)
    ensures Inv(parse, Next(parse, s, step))
  {
    match step
    case Section(id) => SectionKeepsInv(parse, s, id);
    case SweepShard(id, part) => SweepKeepsInv(parse, s, id, part);
    case Advance(n) => LaterIsStillLegal(parse, s, n);
    case Begin(_, _) => hide Legal, Evicted;
    case BeginSweep(_) => hide Legal, Evicted;
    case EndSweep(_) => hide Legal, Evicted;
  }

  lemma {:induction false} RunKeepsInv(parse: Parse, s: State, steps: seq<Step>)
    requires Inv(parse, s)
    ensures Inv(parse, Run(parse, s, steps))
    decreases |steps|
  {
    hide Inv, Next;
    if steps != [] {
      StepKeepsInv(parse, s, steps[0]);
      RunKeepsInv(parse, Next(parse, s, steps[0]), steps[1..]);
    }
  }

  /**
   Every run of the driver, with any interleaving of reads, writes, increments,
   evictions and sweeps, answers as a run of the flat map does; and what it
   holds at the end is the flat map less entries that have expired.
   */
  lemma EveryRunIsFlat(parse: Parse, clock: int, steps: seq<Step>)
    ensures var s := Run(parse, Start(clock), steps);
            Legal(parse, s.history, s.flat, s.clock) && Evicted(s.store, s.flat, s.clock)
  {
    RunKeepsInv(parse, Start(clock), steps);
  }

  // ----- Counters -----

  /** What an event adds to a counter. */
  function Added(e: Event, k: Key): int {
    if e.op.Bump? && e.op.k == k then e.op.delta else 0
  }

  function Total(history: seq<Event>, k: Key): int {
    if history == [] then 0 else Total(history[..|history| - 1], k) + Added(history[|history| - 1], k)
  }

  /** Nothing but increments touches the key. */
  predicate OnlyBumps(history: seq<Event>, k: Key) {
    forall j :: 0 <= j < |history| ==>
      match history[j].op
      case Write(x, _, _) => x != k
      case Remove(x) => x != k
      case Clear(part) => k !in part
      case _ => true
  }

  /** A stretch of a flat run, from one map to another. */
  ghost predicate Stretch(parse: Parse, history: seq<Event>, start: Flat, end: Flat) {
    && (forall j :: 0 <= j < |history| ==> Explained(parse, history[j]))
    && (forall j :: 0 < j < |history| ==> history[j].before == history[j - 1].after)
    && (if history == [] then end == start else history[0].before == start && history[|history| - 1].after == end)
  }

  /**
   While a counter lives, no increment is lost and none restarts its deadline,
   whatever else goes on: it ends at what it was plus everything added to it,
   and every increment answers the total so far.
   */
  lemma {:induction false} CountsAreKept(parse: Parse, history: seq<Event>, start: Flat, end: Flat, k: Key)
    requires Stretch(parse, history, start, end) && OnlyBumps(history, k) && k in start
    requires forall j :: 0 <= j < |history| ==> !start[k].Expired(history[j].time)
    ensures k in end && end[k].deadline == start[k].deadline
    ensures Counter(parse, end[k].value) == Counter(parse, start[k].value) + Total(history, k)
    ensures forall j :: 0 <= j < |history| && history[j].op.Bump? && history[j].op.k == k ==>
              history[j].answer == Count(Counter(parse, start[k].value) + Total(history[..j + 1], k))
    decreases |history|
  {
    hide Explained, Counter;
    if history != [] {
      var n := |history| - 1;
      var rest, last := history[..n], history[n];
      var middle := last.before;
      assert rest != [] ==> rest[n - 1] == history[n - 1];
      CountsAreKept(parse, rest, start, middle, k);
      OneEvent(parse, last, k);
      forall j | 0 <= j < |history| && history[j].op.Bump? && history[j].op.k == k
        ensures history[j].answer == Count(Counter(parse, start[k].value) + Total(history[..j + 1], k))
      {
        if j < n {
          assert rest[j] == history[j] && rest[..j + 1] == history[..j + 1];
        } else {
          assert history[..j + 1] == history;
        }
      }
    }
  }

  lemma OneEvent(parse: Parse, e: Event, k: Key)
    requires Explained(parse, e) && OnlyBumps([e], k) && k in e.before && !e.before[k].Expired(e.time)
    ensures k in e.after && e.after[k].deadline == e.before[k].deadline
    ensures Counter(parse, e.after[k].value) == Counter(parse, e.before[k].value) + Added(e, k)
    ensures e.op.Bump? && e.op.k == k ==> e.answer == Count(Counter(parse, e.before[k].value) + Added(e, k))
  {
    assert [e][0] == e;
    var c :| ExplainedAt(parse, e, c);
    assert Live(e.before, k, c);
  }

  // ----- The order of moments -----

  /** A stale write over a newer one, and a stale read of what it left. */
  function StaleSteps(k: Key, u: Value, v: Value): seq<Step> {
    [Begin(0, Write(k, v, Some(1))), Begin(1, Get(k)), Advance(5), Begin(2, Write(k, u, None)),
     Section(2), Advance(5), Section(0), Section(1)]
  }

  /** What the flat map did in that run. */
  function StaleHistory(k: Key, u: Value, v: Value): seq<Event> {
    var newer, stale := map[k := Entry(u, None)], map[k := Entry(v, Some(1))];
    [Event(Write(k, u, None), 5, 5, map[], newer, Done), Event(Write(k, v, Some(1)), 0, 10, newer, stale, Done),
     Event(Get(k), 0, 10, stale, stale, Found(Some(v)))]
  }

  lemma FirstHalf(parse: Parse, k: Key, u: Value, v: Value)
    ensures var steps := StaleSteps(k, u, v);
            var calls := map[0 := Waiting(Write(k, v, Some(1)), 0), 1 := Waiting(Get(k), 0),
                2 := Waiting(Write(k, u, None), 5)];
            Next(parse, Next(parse, Next(parse, Next(parse, Start(0), steps[0]), steps[1]), steps[2]), steps[3])
            == State(map[], 5, calls, map[], [])
  {}

  lemma NewerWrite(parse: Parse, k: Key, u: Value, v: Value)
    ensures var calls := map[0 := Waiting(Write(k, v, Some(1)), 0), 1 := Waiting(Get(k), 0),
            2 := Waiting(Write(k, u, None), 5)];
            var newer := map[k := Entry(u, None)];
            Next(parse, State(map[], 5, calls, map[], []), Section(2))
            == State(newer, 5, calls - {2}, newer, StaleHistory(k, u, v)[..1])
  {}

  lemma StaleWrite(parse: Parse, k: Key, u: Value, v: Value, calls: map<nat, Call>)
    requires 0 in calls && calls[0] == Waiting(Write(k, v, Some(1)), 0)
    ensures var newer, stale := map[k := Entry(u, None)], map[k := Entry(v, Some(1))];
            Next(parse, State(newer, 10, calls, newer, StaleHistory(k, u, v)[..1]), Section(0))
            == State(stale, 10, calls - {0}, stale, StaleHistory(k, u, v)[..2])
  {
    assert map[k := Entry(u, None)][k := Entry(v, Some(1))] == map[k := Entry(v, Some(1))];
  }

  lemma StaleRead(parse: Parse, k: Key, u: Value, v: Value, calls: map<nat, Call>)
    requires 1 in calls && calls[1] == Waiting(Get(k), 0)
    ensures var stale := map[k := Entry(v, Some(1))];
            Next(parse, State(stale, 10, calls, stale, StaleHistory(k, u, v)[..2]), Section(1)).history
                == StaleHistory(k, u, v)
  {}

  lemma StaleRun(parse: Parse, k: Key, u: Value, v: Value)
    ensures Run(parse, Start(0), StaleSteps(k, u, v)).history == StaleHistory(k, u, v)
  {
    var steps := StaleSteps(k, u, v);
    var newer, stale := map[k := Entry(u, None)], map[k := Entry(v, Some(1))];
    var calls := map[0 := Waiting(Write(k, v, Some(1)), 0), 1 := Waiting(Get(k), 0),
        2 := Waiting(Write(k, u, None), 5)];
    FirstHalf(parse, k, u, v);
    NewerWrite(parse, k, u, v);
    StaleWrite(parse, k, u, v, calls - {2});
    StaleRead(parse, k, u, v, calls - {2} - {0});
    var s4 := State(map[], 5, calls, map[], []);
    var s5 := State(newer, 5, calls - {2}, newer, StaleHistory(k, u, v)[..1]);
    var s6 := s5.(clock := 10);
    var s7 := State(stale, 10, calls - {2} - {0}, stale, StaleHistory(k, u, v)[..2]);
    assert Next(parse, s5, steps[5]) == s6;
    hide Next, StaleHistory;
    var s1 := Next(parse, Start(0), steps[0]);
    var s2 := Next(parse, s1, steps[1]);
    EightSteps(parse, Start(0), steps, s1, s2, Next(parse, s2, steps[2]), s4);
    RunFrom(parse, s4, steps[4..], s5, s6, s7, Next(parse, s7, steps[7]));
  }

  /**
   The moments that explain a run cannot always be ordered as the operations
   are. A write that read its clock at 0 lands at 10 on top of one made at 5,
   and a read that took its clock at 0 finds it: the newer write acted at 5 or
   later, the read before the deadline of what it found, which is 1. No other
   order of the three ends with what the store holds.
   */
  lemma MomentsNeedNotBeOrdered(parse: Parse, k: Key, u: Value, v: Value, c: int, d: int)
    ensures var history := Run(parse, Start(0), StaleSteps(k, u, v)).history;
            && |history| == 3
            && (ExplainedAt(parse, history[0], c) && ExplainedAt(parse, history[2], d) ==> d < c)
  {
    StaleRun(parse, k, u, v);
    hide Run;
  }

  lemma RunFrom(parse: Parse, s: State, steps: seq<Step>, s1: State, s2: State, s3: State, s4: State)
    requires |steps| == 4 && s1 == Next(parse, s, steps[0]) && s2 == Next(parse, s1, steps[1])
    requires s3 == Next(parse, s2, steps[2]) && s4 == Next(parse, s3, steps[3])
    ensures Run(parse, s, steps) == s4
  {
    hide Next;
    assert steps[1..][1..] == steps[2..] && steps[2..][1..] == steps[3..] && steps[3..][1..] == [];
    assert Run(parse, s1, steps[1..]) == Run(parse, s2, steps[2..]);
    assert Run(parse, s2, steps[2..]) == Run(parse, s3, steps[3..]);
    assert Run(parse, s3, steps[3..]) == Run(parse, s4, []);
  }

  lemma EightSteps(parse: Parse, s: State, steps: seq<Step>, s1: State, s2: State, s3: State, s4: State)
    requires |steps| == 8 && s1 == Next(parse, s, steps[0]) && s2 == Next(parse, s1, steps[1])
    requires s3 == Next(parse, s2, steps[2]) && s4 == Next(parse, s3, steps[3])
    ensures Run(parse, s, steps) == Run(parse, s4, steps[4..])
  {
    hide Next;
    assert steps[1..][1..] == steps[2..] && steps[2..][1..] == steps[3..] && steps[3..][1..] == steps[4..];
    assert Run(parse, s1, steps[1..]) == Run(parse, s2, steps[2..]);
    assert Run(parse, s2, steps[2..]) == Run(parse, s3, steps[3..]);
  }
}
