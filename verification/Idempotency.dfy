/**
 The idempotency middleware: any number of requests that carry one key, each
 claiming the key through an atomic increment, running or looking up the
 answer, and storing the answer or giving the key back. One step is one store
 operation, one end of a handler, or a request being dropped.
 */
module Idempotency {
  import opened Basics
  import opened CacheFlat
  import opened Freeze

  datatype Reply =
    | Own(response: Response)
    | Replayed(response: Response)
    | Mismatch
    | Unreadable
    | Busy

  datatype Phase =
    | Arrived
    | Looking
    | Running
    | Ended(response: Response)
    | Replied(reply: Reply)
    | Dropped

  /** A request: what it is, as a fingerprint, and how far it has got. */
  datatype Request = Request(mark: string, phase: Phase)

  datatype Lock = Lock(n: nat, deadline: int)

  datatype Stored = Stored(frozen: Frozen, deadline: int)

  datatype Execution = Execution(id: nat, response: Response)

  /** The two entries of the key in the store, the requests, and which handlers have ended. */
  datatype State = State(requests: map<nat, Request>, lock: Option<Lock>, stored: Option<Stored>, clock: int,
      ran: seq<Execution>)

  datatype Step =
    | Advance(passed: nat)
    | Arrive(id: nat, mark: string)
    | Claim(id: nat)
    | Look(id: nat)
    | End(id: nat, response: Response)
    | Settle(id: nat, order: seq<string>)
    | Drop(id: nat)

  /** The time a claim and an answer are kept, and which bodies are text. */
  datatype Config = Config(ttl: nat, isText: seq<byte> -> bool)

  /** A response as handlers build them. */
  ghost predicate Sound(r: Response) {
    Tidy(r.headers) && r.status < 65536
  }

  predicate In(s: State, id: nat, phase: Phase) {
    id in s.requests && s.requests[id].phase == phase
  }

  function Move(s: State, id: nat, phase: Phase): State
    requires id in s.requests
  {
    s.(requests := s.requests[id := s.requests[id].(phase := phase)])
  }

  function MarkReplay(r: Response): Response {
    r.(headers := Set(r.headers, "idempotent-replayed", "true"))
  }

  /** A replay is the response of the execution, with one more header. */
  ghost predicate Repeats(replay: Response, response: Response) {
    && replay.status == response.status && replay.body == response.body
    && "idempotent-replayed" in replay.headers && replay.headers["idempotent-replayed"] == ["true"]
    && forall name :: name != "idempotent-replayed" ==>
         (name in replay.headers <==> name in response.headers)
         && (name in response.headers ==> replay.headers[name] == response.headers[name])
  }

  lemma ReplayHeader()
    ensures Lower(Sanitise("idempotent-replayed")) == "idempotent-replayed" && Sanitise("true") == "true"
  {
    hide Sanitise, Lower;
    SanitiseCleans("idempotent-replayed");
    LowerKeepsClean("idempotent-replayed");
    SanitiseCleans("true");
  }

  lemma ReplayRepeats(r: Response)
    ensures Repeats(MarkReplay(r), r)
  {
    hide Sanitise, Lower;
    ReplayHeader();
  }

  /** The answer to a request that found the key taken. */
  function LookUp(stored: Option<Stored>, clock: int, mark: string): Reply {
    if stored.None? || stored.value.deadline <= clock then Busy
    else if stored.value.frozen.fingerprint != mark then Mismatch
    else match Thaw(stored.value.frozen)
         case Some(r) => Replayed(MarkReplay(r))
         case None => Unreadable
  }

  ghost function Next(cfg: Config, s: State, step: Step): State {
    match step
    case Advance(n) => s.(clock := s.clock + n)
    case Arrive(id, mark) => if id in s.requests then s else s.(requests := s.requests[id := Request(mark, Arrived)])
    case Claim(id) =>
      if !In(s, id, Arrived) then s
      else if s.lock.Some? && s.clock < s.lock.value.deadline
      then Move(s, id, Looking).(lock := Some(s.lock.value.(n := s.lock.value.n + 1)))
      else Move(s, id, Running).(lock := Some(Lock(1, s.clock + cfg.ttl)))
    case Look(id) =>
      if !In(s, id, Looking) then s else Move(s, id, Replied(LookUp(s.stored, s.clock, s.requests[id].mark)))
    case End(id, r) =>
      if !In(s, id, Running) || !Sound(r) then s else Move(s, id, Ended(r)).(ran := s.ran + [Execution(id, r)])
    case Settle(id, order) =>
      if id !in s.requests || !s.requests[id].phase.Ended? then s else
        var r := s.requests[id].phase.response;
        if !Lists(order, r.headers) then s
        else if r.status >= 500 then Move(s, id, Replied(Own(r))).(lock := None)
        else Move(s, id, Replied(Own(r))).(stored :=
            Some(Stored(Frost(r, order, s.requests[id].mark, cfg.isText), s.clock + cfg.ttl)))
    case Drop(id) => if id in s.requests && !s.requests[id].phase.Replied? then Move(s, id, Dropped) else s
  }

  ghost function Run(cfg: Config, s: State, steps: seq<Step>): State
    decreases |steps|
  {
    if steps == [] then s else Run(cfg, Next(cfg, s, steps[0]), steps[1..])
  }

  function Start(clock: int): State {
    State(map[], None, None, clock, [])
  }

  /** The lock, if there is one, has not run out. */
  predicate LockAlive(s: State) {
    s.lock.Some? ==> s.clock < s.lock.value.deadline
  }

  /** Every state of the run, the last one included, is within the lifetime of its lock. */
  ghost predicate WithinLock(cfg: Config, s: State, steps: seq<Step>)
    decreases |steps|
  {
    LockAlive(s) && (steps == [] || WithinLock(cfg, Next(cfg, s, steps[0]), steps[1..]))
  }

  // ----- What every run keeps -----

  /** The request holds the key: its handler is running, or has ended and is not settled. */
  predicate Holds(s: State, id: nat) {
    id in s.requests && (s.requests[id].phase.Running? || s.requests[id].phase.Ended?)
  }

  predicate Succeeded(s: State, a: int) {
    0 <= a < |s.ran| && s.ran[a].response.status < 500
  }

  /** At most one request holds the key, and only while it is locked. */
  ghost predicate OneHolder(s: State) {
    && (forall i :: Holds(s, i) ==> s.lock.Some?)
    && (forall i, j :: Holds(s, i) && Holds(s, j) ==> i == j)
  }

  /** At most one execution succeeded; after it the key stays locked, and its request alone may still hold it. */
  ghost predicate OneSuccess(s: State) {
    && (forall a, b :: Succeeded(s, a) && Succeeded(s, b) ==> a == b)
    && (forall a :: Succeeded(s, a) ==> s.lock.Some?)
    && (forall a, i :: Succeeded(s, a) && Holds(s, i) ==>
       s.ran[a].id == i && s.requests[i].phase == Ended(s.ran[a].response))
  }

  /** What a request that ended answers is on record. */
  ghost predicate OnRecord(s: State) {
    && (forall a :: 0 <= a < |s.ran| ==> s.ran[a].id in s.requests && Sound(s.ran[a].response))
    && (forall i :: i in s.requests && s.requests[i].phase.Ended? ==>
          exists a :: 0 <= a < |s.ran| && s.ran[a] == Execution(i, s.requests[i].phase.response))
  }

  /** What is stored is the one success, under its fingerprint, and outlives the lock. */
  ghost predicate StoredIsSuccess(s: State) {
    s.stored.Some? ==>
      && s.lock.Some? && s.lock.value.deadline <= s.stored.value.deadline
      && (forall i :: !Holds(s, i))
      && exists a :: Succeeded(s, a) && Thaw(s.stored.value.frozen) == Some(s.ran[a].response)
                     && s.ran[a].id in s.requests && s.requests[s.ran[a].id].mark == s.stored.value.frozen.fingerprint
  }

  /**
   A request's own answer is what its handler returned; a replay is the answer
   of the one success, to a request with the same fingerprint; a mismatch is not.
   */
  ghost predicate ReplyFits(s: State, i: nat)
    requires i in s.requests
  {
    match s.requests[i].phase
    case Replied(Own(r)) => exists a :: 0 <= a < |s.ran| && s.ran[a] == Execution(i, r)
    case Replied(Replayed(r)) =>
      exists a :: Succeeded(s, a) && Repeats(r, s.ran[a].response)
                  && s.ran[a].id in s.requests && s.requests[s.ran[a].id].mark == s.requests[i].mark
    case Replied(Mismatch) =>
      exists a :: Succeeded(s, a) && s.ran[a].id in s.requests && s.requests[s.ran[a].id].mark != s.requests[i].mark
    case Replied(Unreadable) => false
    case _ => true
  }

  ghost predicate Inv(cfg: Config, s: State) {
    && OneHolder(s) && OneSuccess(s) && OnRecord(s) && StoredIsSuccess(s)
    && (forall i :: i in s.requests ==> ReplyFits(s, i))
    && (s.lock.Some? ==> s.lock.value.deadline <= s.clock + cfg.ttl)
  }

  /** Replies stay right as long as no execution and no fingerprint is forgotten. */
  lemma RepliesStay(s: State, t: State, i: nat)
    requires i in s.requests && i in t.requests && ReplyFits(s, i) && t.requests[i] == s.requests[i]
    requires s.ran <= t.ran
    requires forall j :: j in s.requests ==> j in t.requests && t.requests[j].mark == s.requests[j].mark
    ensures ReplyFits(t, i)
  {
    assert forall a :: Succeeded(s, a) ==> Succeeded(t, a) && t.ran[a] == s.ran[a];
    assert forall a :: 0 <= a < |s.ran| ==> t.ran[a] == s.ran[a];
  }

  /** What is stored stays right while nobody new holds the key and the lock keeps its deadline. */
  lemma StoredStays(s: State, t: State)
    requires StoredIsSuccess(s) && t.stored == s.stored && t.ran == s.ran
    requires forall j :: j in s.requests ==> j in t.requests && t.requests[j].mark == s.requests[j].mark
    requires s.stored.Some? ==> (forall i :: Holds(t, i) ==> Holds(s, i))
                                && (s.lock.Some? ==> t.lock.Some? && t.lock.value.deadline == s.lock.value.deadline)
    ensures StoredIsSuccess(t)
  {
    hide Thaw;
    assert forall a :: Succeeded(s, a) ==> Succeeded(t, a);
  }

  lemma RecordStays(s: State, t: State, id: nat)
    requires OnRecord(s) && t.ran == s.ran && (forall j :: j in s.requests ==> j in t.requests)
    requires forall i :: i in t.requests && t.requests[i].phase.Ended? ==>
             i in s.requests && t.requests[i] == s.requests[i]
    ensures OnRecord(t)
  {
    hide Sound;
  }

  /** Nobody new holds the key, and no execution has been added. */
  predicate SameRuns(s: State, t: State) {
    && t.ran == s.ran
    && forall i :: i in t.requests && Holds(t, i) ==> Holds(s, i) && t.requests[i] == s.requests[i]
  }

  lemma HoldersStay(s: State, t: State)
    requires OneHolder(s) && OneSuccess(s) && SameRuns(s, t)
    requires s.lock.Some? ==> t.lock.Some?
    ensures OneHolder(t) && OneSuccess(t)
  {
    assert forall a :: Succeeded(t, a) ==> Succeeded(s, a);
    assert forall i :: Holds(t, i) ==> Holds(s, i) && t.requests[i] == s.requests[i];
  }

  lemma ClaimKeepsInv(cfg: Config, s: State, id: nat)
    requires Inv(cfg, s) && LockAlive(s)
    ensures Inv(cfg, Next(cfg, s, Claim(id)))
  {
    var t := Next(cfg, s, Claim(id));
    hide Sound, Thaw, ReplyFits;
    AllRepliesStay(s, t, id);
    StoredStays(s, t);
    RecordStays(s, t, id);
    if In(s, id, Arrived) {
      PlainReply(t, id);
      if s.lock.Some? {
        HoldersStay(s, t);
      } else {
        assert forall i :: Holds(t, i) ==> Holds(s, i) || i == id;
        assert forall a :: Succeeded(t, a) ==> Succeeded(s, a);
      }
    }
  }

  lemma AllRepliesStay(s: State, t: State, id: nat)
    requires (forall i :: i in s.requests ==> ReplyFits(s, i)) && s.ran <= t.ran
    requires forall j :: j in s.requests ==>
             j in t.requests && t.requests[j].mark == s.requests[j].mark && (j != id ==> t.requests[j] == s.requests[j])
    ensures forall i :: i in s.requests && i != id ==> ReplyFits(t, i)
    ensures id in s.requests && t.requests[id] == s.requests[id] ==> ReplyFits(t, id)
  {
    hide ReplyFits;
    forall i | i in s.requests && t.requests[i] == s.requests[i]
      ensures ReplyFits(t, i)
    {
      RepliesStay(s, t, i);
    }
  }

  lemma PlainReply(s: State, id: nat)
    requires id in s.requests && !s.requests[id].phase.Replied?
    ensures ReplyFits(s, id)
  {}

  lemma LookKeepsInv(cfg: Config, s: State, id: nat)
    requires Inv(cfg, s) && LockAlive(s)
    ensures Inv(cfg, Next(cfg, s, Look(id)))
  {
    var t := Next(cfg, s, Look(id));
    hide Sound, Thaw, ReplyFits, MarkReplay, Repeats;
    AllRepliesStay(s, t, id);
    StoredStays(s, t);
    RecordStays(s, t, id);
    HoldersStay(s, t);
    hide OneHolder, OneSuccess, OnRecord, StoredIsSuccess;
    if In(s, id, Looking) {
      LookUpFits(s, t, id);
    }
  }

  lemma LookUpFits(s: State, t: State, id: nat)
    requires id in s.requests && StoredIsSuccess(s)
             && t == Move(s, id, Replied(LookUp(s.stored, s.clock, s.requests[id].mark)))
    ensures ReplyFits(t, id)
  {
    hide Thaw, MarkReplay, Repeats;
    if s.stored.Some? {
      var a :| Succeeded(s, a) && Thaw(s.stored.value.frozen) == Some(s.ran[a].response)
               && s.ran[a].id in s.requests && s.requests[s.ran[a].id].mark == s.stored.value.frozen.fingerprint;
      assert Succeeded(t, a);
      ReplayRepeats(s.ran[a].response);
    }
  }

  lemma EndKeepsInv(cfg: Config, s: State, id: nat, r: Response)
    requires Inv(cfg, s)
    ensures Inv(cfg, Next(cfg, s, End(id, r)))
  {
    var t := Next(cfg, s, End(id, r));
    hide Sound, Thaw, ReplyFits;
    AllRepliesStay(s, t, id);
    if In(s, id, Running) && Sound(r) {
      PlainReply(t, id);
      assert Holds(s, id);
      assert t.ran[|s.ran|] == Execution(id, r);
      forall a | Succeeded(t, a)
        ensures a == |s.ran|
      {
        assert a < |s.ran| ==> Succeeded(s, a);
      }
      assert forall i :: Holds(t, i) ==> Holds(s, i);
    }
  }

  lemma SettleKeepsInv(cfg: Config, s: State, id: nat, order: seq<string>)
    requires Inv(cfg, s)
    ensures Inv(cfg, Next(cfg, s, Settle(id, order)))
  {
    var t := Next(cfg, s, Settle(id, order));
    hide Thaw, ReplyFits, Frost, Tidy, Lists;
    AllRepliesStay(s, t, id);
    RecordStays(s, t, id);
    if id in s.requests && s.requests[id].phase.Ended? && Lists(order, s.requests[id].phase.response.headers) {
      OwnReply(s, t, id);
      assert Holds(s, id);
      if s.requests[id].phase.response.status >= 500 {
        FailureSettled(s, t, id);
      } else {
        HoldersStay(s, t);
        SuccessSettled(cfg, s, t, id, order);
      }
    }
  }

  lemma OwnReply(s: State, t: State, id: nat)
    requires OnRecord(s) && id in s.requests && s.requests[id].phase.Ended? && t.ran == s.ran
    requires In(t, id, Replied(Own(s.requests[id].phase.response)))
    ensures ReplyFits(t, id)
  {
    hide Sound;
    var a :| 0 <= a < |s.ran| && s.ran[a] == Execution(id, s.requests[id].phase.response);
    assert t.ran[a] == s.ran[a];
  }

  lemma FailureSettled(s: State, t: State, id: nat)
    requires OneHolder(s) && OneSuccess(s) && StoredIsSuccess(s)
    requires id in s.requests && s.requests[id].phase.Ended? && s.requests[id].phase.response.status >= 500
    requires t == Move(s, id, Replied(Own(s.requests[id].phase.response))).(lock := None)
    ensures OneHolder(t) && OneSuccess(t) && StoredIsSuccess(t)
  {
    hide Thaw;
    assert Holds(s, id);
    assert forall b :: Succeeded(t, b) ==> Succeeded(s, b);
    assert forall i :: Holds(t, i) ==> Holds(s, i) && i != id;
  }

  lemma SuccessSettled(cfg: Config, s: State, t: State, id: nat, order: seq<string>)
    requires Inv(cfg, s) && id in s.requests && s.requests[id].phase.Ended?
    requires s.requests[id].phase.response.status < 500 && Lists(order, s.requests[id].phase.response.headers)
    requires t == Next(cfg, s, Settle(id, order))
    ensures StoredIsSuccess(t)
  {
    hide Thaw, ReplyFits, Frost, Tidy, Lists;
    var r := s.requests[id].phase.response;
    assert Holds(s, id);
    var a :| 0 <= a < |s.ran| && s.ran[a] == Execution(id, r);
    assert forall i :: Holds(t, i) ==> Holds(s, i) && i != id;
    StoredFits(r, order, s.requests[id].mark, cfg.isText);
    assert Succeeded(t, a);
  }

  lemma StoredFits(r: Response, order: seq<string>, mark: string, isText: seq<byte> -> bool)
    requires Sound(r) && Lists(order, r.headers)
    ensures Thaw(Frost(r, order, mark, isText)) == Some(r) && Frost(r, order, mark, isText).fingerprint == mark
  {
    ThawUndoesFreeze(r, order, mark, isText);
  }

  lemma OtherStepsKeepInv(cfg: Config, s: State, step: Step)
    requires Inv(cfg, s) && (step.Advance? || step.Arrive? || step.Drop?)
    ensures Inv(cfg, Next(cfg, s, step))
  {
    var t := Next(cfg, s, step);
    hide Sound, Thaw, ReplyFits;
    StoredStays(s, t);
    HoldersStay(s, t);
    hide OneHolder, OneSuccess, OnRecord, StoredIsSuccess, Holds;
    match step
    case Advance(n) =>
      AllRepliesStay(s, t, 0);
      RecordStays(s, t, 0);
    case Arrive(id, mark) =>
      AllRepliesStay(s, t, id);
      RecordStays(s, t, id);
      if id !in s.requests {
        PlainReply(t, id);
      }
    case Drop(id) =>
      AllRepliesStay(s, t, id);
      RecordStays(s, t, id);
      if id in s.requests && !s.requests[id].phase.Replied? {
        PlainReply(t, id);
      }
  }

  lemma StepKeepsInv(cfg: Config, s: State, step: Step)
    requires Inv(cfg, s) && LockAlive(s)
    ensures Inv(cfg, Next(cfg, s, step))
  {
    hide Inv, Next;
    match step
    case Claim(id) => ClaimKeepsInv(cfg, s, id);
    case Look(id) => LookKeepsInv(cfg, s, id);
    case End(id, r) => EndKeepsInv(cfg, s, id, r);
    case Settle(id, order) => SettleKeepsInv(cfg, s, id, order);
    case _ => OtherStepsKeepInv(cfg, s, step);
  }

  lemma {:induction false} RunKeepsInv(cfg: Config, s: State, steps: seq<Step>)
    requires Inv(cfg, s) && WithinLock(cfg, s, steps)
    ensures Inv(cfg, Run(cfg, s, steps))
    decreases |steps|
  {
    hide Inv, Next;
    if steps != [] {
      StepKeepsInv(cfg, s, steps[0]);
      RunKeepsInv(cfg, Next(cfg, s, steps[0]), steps[1..]);
    }
  }

  /**
   However the requests interleave, and whichever of them are dropped: at most
   one handler is in flight, at most one execution ends below 500, and every
   replay is that execution's response to a request with the same fingerprint.
   */
  lemma EveryRun(cfg: Config, clock: int, steps: seq<Step>)
    requires WithinLock(cfg, Start(clock), steps)
    ensures var s := Run(cfg, Start(clock), steps);
            && (forall i, j :: In(s, i, Running) && In(s, j, Running) ==> i == j)
            && (forall a, b :: Succeeded(s, a) && Succeeded(s, b) ==> a == b)
            && (forall i :: i in s.requests ==> ReplyFits(s, i))
  {
    RunKeepsInv(cfg, Start(clock), steps);
    var s := Run(cfg, Start(clock), steps);
    assert OneHolder(s);
    forall i, j | In(s, i, Running) && In(s, j, Running)
      ensures i == j
    {
      assert Holds(s, i) && Holds(s, j);
    }
  }

  /**
   Once an answer is stored, a request with the same fingerprint gets exactly
   that answer for as long as the lock lives, and one with another is refused.
   */
  lemma StoredAnswerIsReplayed(cfg: Config, s: State, a: nat, id: nat)
    requires Inv(cfg, s) && LockAlive(s) && s.stored.Some? && Succeeded(s, a) && In(s, id, Arrived)
    ensures var t := Next(cfg, Next(cfg, s, Claim(id)), Look(id));
            && s.ran[a].id in s.requests && id in t.requests && t.requests[id].phase.Replied?
            && var reply := t.requests[id].phase.reply;
               if s.requests[s.ran[a].id].mark == s.requests[id].mark
               then reply.Replayed? && Repeats(reply.response, s.ran[a].response) else reply == Mismatch
  {
    hide Sound, Thaw, ReplyFits, MarkReplay, Repeats;
    ReplayRepeats(s.ran[a].response);
    var b :| Succeeded(s, b) && Thaw(s.stored.value.frozen) == Some(s.ran[b].response)
             && s.ran[b].id in s.requests && s.requests[s.ran[b].id].mark == s.stored.value.frozen.fingerprint;
    assert a == b;
  }

  /** One request, undisturbed, from its arrival to its answer. */
  function WholeRequest(id: nat, mark: string, r: Response, order: seq<string>): seq<Step> {
    [Arrive(id, mark), Claim(id), End(id, r), Settle(id, order)]
  }

  /** What the key looks like once a request has been answered with `r`. */
  ghost predicate Answered(cfg: Config, s: State, t: State, id: nat, mark: string, r: Response) {
    && t.ran == s.ran + [Execution(id, r)] && t.clock == s.clock
    && t.requests == s.requests[id := Request(mark, Replied(Own(r)))]
    && if r.status >= 500 then t.lock == None && t.stored == s.stored
       else t.lock == Some(Lock(1, s.clock + cfg.ttl)) && t.stored.Some? && t.stored.value.deadline == s.clock + cfg.ttl
            && t.stored.value.frozen.fingerprint == mark && Thaw(t.stored.value.frozen) == Some(r)
  }

  /**
   On a free key a request runs, is answered with what its handler returns, and that is
   remembered unless it failed.
   */
  lemma RequestRuns(cfg: Config, s: State, id: nat, mark: string, r: Response, order: seq<string>)
    requires id !in s.requests && (s.lock.None? || s.lock.value.deadline <= s.clock)
    requires Sound(r) && Lists(order, r.headers)
    ensures Answered(cfg, s, Run(cfg, s, WholeRequest(id, mark, r, order)), id, mark, r)
  {
    var s1 := Next(cfg, s, Arrive(id, mark));
    var s2 := Next(cfg, s1, Claim(id));
    var s3 := Next(cfg, s2, End(id, r));
    var s4 := Next(cfg, s3, Settle(id, order));
    FourSteps(cfg, s, WholeRequest(id, mark, r, order));
    StoredFits(r, order, mark, cfg.isText);
    hide Run, Sound, Lists, Frost, Thaw;
    assert s2.requests == s.requests[id := Request(mark, Running)];
    assert s3.requests == s.requests[id := Request(mark, Ended(r))];
    assert s4.requests == s.requests[id := Request(mark, Replied(Own(r)))];
  }

  lemma FourSteps(cfg: Config, s: State, steps: seq<Step>)
    requires |steps| == 4
    ensures Run(cfg, s, steps)
         == Next(cfg, Next(cfg, Next(cfg, Next(cfg, s, steps[0]), steps[1]), steps[2]), steps[3])
  {
    hide Next;
    var s1 := Next(cfg, s, steps[0]);
    var s2 := Next(cfg, s1, steps[1]);
    var s3 := Next(cfg, s2, steps[2]);
    assert steps[1..][1..] == steps[2..] && steps[2..][1..] == steps[3..] && steps[3..][1..] == [];
    assert Run(cfg, s1, steps[1..]) == Run(cfg, s2, steps[2..]);
    assert Run(cfg, s2, steps[2..]) == Run(cfg, s3, steps[3..]);
    assert Run(cfg, s3, steps[3..]) == Run(cfg, Next(cfg, s3, steps[3]), []);
  }

  /** And a second one gets the same, marked as a replay, for as long as the claim lasts. */
  lemma SecondIsReplayed(cfg: Config, s: State, t: State, id: nat, mark: string, r: Response, passed: nat, other: nat)
    requires Answered(cfg, s, t, id, mark, r) && r.status < 500 && passed < cfg.ttl && other !in t.requests
    ensures var u := Next(cfg, Next(cfg, Next(cfg, Next(cfg, t, Advance(passed)), Arrive(other, mark)), Claim(other)),
                          Look(other));
            && u.ran == t.ran && other in u.requests && u.requests[other].phase.Replied?
            && u.requests[other].phase.reply.Replayed? && Repeats(u.requests[other].phase.reply.response, r)
  {
    hide Thaw, MarkReplay, Repeats;
    ReplayRepeats(r);
  }

  /** A claim keeps the key for the time configured: a request that comes sooner waits, one that comes later runs. */
  lemma ClaimLasts(cfg: Config, s: State, id: nat, passed: nat, other: nat)
    requires In(s, id, Arrived) && In(s, other, Arrived) && id != other
    requires s.lock.None? || s.lock.value.deadline <= s.clock
    ensures var t := Next(cfg, Next(cfg, Next(cfg, s, Claim(id)), Advance(passed)), Claim(other));
            In(t, id, Running) && In(t, other, if passed < cfg.ttl then Looking else Running)
  {}

  /** A request that is dropped leaves the key claimed: nobody runs again until the claim is over. */
  lemma DroppedClaimLasts(cfg: Config, s: State, id: nat, passed: nat, other: nat)
    requires In(s, id, Arrived) && In(s, other, Arrived) && id != other
    requires s.lock.None? || s.lock.value.deadline <= s.clock
    ensures var t := Next(cfg, Next(cfg, Next(cfg, Next(cfg, s, Claim(id)), Drop(id)), Advance(passed)), Claim(other));
            In(t, id, Dropped) && In(t, other, if passed < cfg.ttl then Looking else Running)
  {}

  /** While there is no answer yet, whoever finds the key taken is told to come back, and nothing is changed by that. */
  lemma BusyMeanwhile(cfg: Config, s: State, id: nat)
    requires In(s, id, Arrived) && s.lock.Some? && s.clock < s.lock.value.deadline && s.stored.None?
    ensures var t := Next(cfg, Next(cfg, s, Claim(id)), Look(id));
            && In(t, id, Replied(Busy)) && t.ran == s.ran && t.stored.None?
            && t.lock == Some(Lock(s.lock.value.n + 1, s.lock.value.deadline))
  {
    hide Thaw, MarkReplay;
  }

  /** An answer is kept for as long, counted from when it was stored. */
  lemma AnswerLasts(cfg: Config, s: State, id: nat, order: seq<string>, passed: nat, other: nat)
    requires id in s.requests && s.requests[id].phase.Ended? && s.requests[id].phase.response.status < 500
    requires Lists(order, s.requests[id].phase.response.headers) && In(s, other, Looking)
    ensures var t := Next(cfg, Next(cfg, Next(cfg, s, Settle(id, order)), Advance(passed)), Look(other));
            In(t, other, Replied(Busy)) <==> cfg.ttl <= passed
  {
    hide Thaw, MarkReplay, Lists;
  }

  /** A second success needs a lock that ran out: at some point of the run the lock was past its deadline. */
  lemma SecondSuccessNeedsExpiry(cfg: Config, clock: int, steps: seq<Step>, a: int, b: int)
    requires var s := Run(cfg, Start(clock), steps);
             Succeeded(s, a) && Succeeded(s, b) && a != b
    ensures exists n :: 0 <= n <= |steps| && !LockAlive(Run(cfg, Start(clock), steps[..n]))
  {
    hide Run, LockAlive;
    if forall n :: 0 <= n <= |steps| ==> LockAlive(Run(cfg, Start(clock), steps[..n])) {
      AliveThroughout(cfg, Start(clock), steps);
      EveryRun(cfg, clock, steps);
    }
  }

  lemma {:induction false} AliveThroughout(cfg: Config, s: State, steps: seq<Step>)
    requires forall n :: 0 <= n <= |steps| ==> LockAlive(Run(cfg, s, steps[..n]))
    ensures WithinLock(cfg, s, steps)
    decreases |steps|
  {
    hide LockAlive, Next;
    assert Run(cfg, s, steps[..0]) == s;
    if steps != [] {
      var t := Next(cfg, s, steps[0]);
      forall n | 0 <= n <= |steps| - 1
        ensures LockAlive(Run(cfg, t, steps[1..][..n]))
      {
        assert steps[..n + 1][1..] == steps[1..][..n] && steps[..n + 1][0] == steps[0];
        assert Run(cfg, s, steps[..n + 1]) == Run(cfg, t, steps[1..][..n]);
      }
      AliveThroughout(cfg, t, steps[1..]);
    }
  }

  /** And a lock that ran out does let a success repeat: the next request with the key runs its handler again. */
  lemma ExpiryLetsSuccessRepeat(cfg: Config, s: State, id: nat, r: Response)
    requires In(s, id, Arrived) && s.lock.Some? && s.lock.value.deadline <= s.clock && Sound(r) && r.status < 500
    ensures var t := Next(cfg, Next(cfg, s, Claim(id)), End(id, r));
            Succeeded(t, |s.ran|) && forall a :: Succeeded(s, a) ==> Succeeded(t, a)
  {
    hide Sound;
  }

  /** A failed execution gives the key back: the next request runs. */
  lemma FailureLetsTheNextRun(cfg: Config, s: State, id: nat, order: seq<string>, retry: nat)
    requires Inv(cfg, s) && id in s.requests && s.requests[id].phase.Ended?
             && s.requests[id].phase.response.status >= 500
    requires Lists(order, s.requests[id].phase.response.headers) && In(s, retry, Arrived) && id != retry
    ensures In(Next(cfg, Next(cfg, s, Settle(id, order)), Claim(retry)), retry, Running)
  {
    hide Inv;
  }
}
