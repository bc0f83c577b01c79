/**
 What callers are told, in their own terms: an answer follows from the last
 operation that changed the key, the readings of the clock and the time to live.
 */
module CacheAnswers {
  import opened Basics
  import opened CacheFlat
  import opened CacheRuns

  /** The operation may change what the key holds. */
  predicate Changes(op: Op, k: Key) {
    match op
    case Write(x, _, _) => x == k
    case Remove(x) => x == k
    case Bump(x, _, _) => x == k
    case Clear(part) => k in part
    case Get(_) => false
    case Ttl(_) => false
  }

  lemma UnchangedByOne(parse: Parse, e: Event, k: Key)
    requires Explained(parse, e) && !Changes(e.op, k)
    ensures k in e.after <==> k in e.before
    ensures k in e.before ==> e.after[k] == e.before[k]
  {}

  /** What nobody changes, stays. */
  lemma {:induction false} Unchanged(parse: Parse, history: seq<Event>, i: nat, j: nat, k: Key)
    requires i < j < |history|
    requires forall n :: 0 <= n < |history| ==> Explained(parse, history[n])
    requires forall n :: 0 < n < |history| ==> history[n].before == history[n - 1].after
    requires forall n :: i < n < j ==> !Changes(history[n].op, k)
    ensures k in history[j].before <==> k in history[i].after
    ensures k in history[j].before ==> history[j].before[k] == history[i].after[k]
    decreases j - i
  {
    hide Explained, Changes;
    if i + 1 < j {
      Unchanged(parse, history, i, j - 1, k);
      UnchangedByOne(parse, history[j - 1], k);
    }
  }

  /** An answer about a key that holds nothing. */
  predicate AnswersNothing(e: Event, k: Key) {
    && (e.op == Get(k) ==> e.answer == Found(None))
    && (e.op == Ttl(k) ==> e.answer == Left(None))
    && (e.op == Remove(k) ==> e.answer == Removed(false))
    && (e.op.Bump? && e.op.k == k ==> e.answer == Count(e.op.delta))
  }

  /** An answer about a key that holds `v`, until `end` if there is an end. */
  predicate AnswersHeld(parse: Parse, e: Event, k: Key, v: Value, end: Option<int>) {
    && (e.op == Get(k) ==> e.answer == Found(Some(v)))
    && (e.op == Ttl(k) && end.None? ==> e.answer == Left(None))
    && (e.op == Ttl(k) && end.Some? ==>
          e.answer.Left? && e.answer.left.Some? && end.value - e.time <= e.answer.left.value <= end.value - e.now)
    && (e.op == Remove(k) ==> e.answer == Removed(true))
    && (e.op.Bump? && e.op.k == k ==>
          e.answer == Count(e.op.delta + match v case Number(n) => n case Text(s) => parse(s) case Other(_) => 0))
  }

  /** What was written is there before its time is up, and is not there once its time is up. */
  lemma AfterWrite(parse: Parse, w: Event, e: Event, k: Key, v: Value, ttl: Option<nat>)
    requires Explained(parse, w) && Explained(parse, e) && w.op == Write(k, v, ttl)
    requires k in w.after ==> k in e.before && e.before[k] == w.after[k]
    ensures var end := if ttl.Some? then Some(w.now + ttl.value) else None;
            && (AnswersHeld(parse, e, k, v, end) || (ttl.Some? && AnswersNothing(e, k)))
            && (end.None? || e.time < end.value ==> AnswersHeld(parse, e, k, v, end))
            && (end.Some? && end.value <= e.now ==> AnswersNothing(e, k))
  {
    var c :| ExplainedAt(parse, e, c);
  }

  lemma AfterRemove(parse: Parse, w: Event, e: Event, k: Key)
    requires Explained(parse, w) && Explained(parse, e)
    requires w.op == Remove(k) || (w.op.Clear? && k in w.op.part)
    requires k in e.before ==> k in w.after
    ensures AnswersNothing(e, k)
  {}

  /**
   In every run of the store, with any callers, evictions and sweeps: if a call
   is the last before another to change a key, the other is answered by what
   the first one wrote, until the time given to it is up, and by nothing after
   that or after a removal.
   */
  lemma EveryAnswerFollowsTheLastChange(parse: Parse, clock: int, steps: seq<Step>, i: nat, j: nat, k: Key)
    requires i < j < |Run(parse, Start(clock), steps).history|
    requires forall n :: i < n < j ==> !Changes(Run(parse, Start(clock), steps).history[n].op, k)
    ensures var history := Run(parse, Start(clock), steps).history;
            var w, e := history[i], history[j];
            && (w.op.Write? && w.op.k == k && w.op.ttl.None? ==> AnswersHeld(parse, e, k, w.op.v, None))
            && (w.op.Write? && w.op.k == k && w.op.ttl.Some? ==>
                  var end := w.now + w.op.ttl.value;
                  && (e.time < end ==> AnswersHeld(parse, e, k, w.op.v, Some(end)))
                  && (end <= e.now ==> AnswersNothing(e, k))
                  && (AnswersHeld(parse, e, k, w.op.v, Some(end)) || AnswersNothing(e, k)))
            && (w.op == Remove(k) || (w.op.Clear? && k in w.op.part) ==> AnswersNothing(e, k))
  {
    var s := Run(parse, Start(clock), steps);
    EveryRunIsFlat(parse, clock, steps);
    hide Run, Explained, AnswersHeld, AnswersNothing, Changes, Evicted;
    var w, e := s.history[i], s.history[j];
    Unchanged(parse, s.history, i, j, k);
    if w.op.Write? && w.op.k == k {
      WriteHolds(parse, w);
      AfterWrite(parse, w, e, k, w.op.v, w.op.ttl);
    }
    if w.op == Remove(k) || (w.op.Clear? && k in w.op.part) {
      AfterRemove(parse, w, e, k);
    }
  }

  lemma WriteHolds(parse: Parse, w: Event)
    requires Explained(parse, w) && w.op.Write?
    ensures w.op.k in w.after
  {}
}
