/** How many attempts the limiter admits, over every run of the store it counts in. */
module RateRuns {
  import opened Basics
  import opened BitString
  import opened CacheFlat
  import opened CacheRuns
  import opened CacheAnswers
  import opened RateLimit

  /**
   Nobody clears the counter of the slot that begins at `begins`, and the
   attempts of that slot land less than the slack after it ends.
   */
  predicate OnlyAttempts(history: seq<Event>, k: Key, begins: int, w: nat) {
    forall j :: 0 <= j < |history| && Changes(history[j].op, k) ==>
      && history[j].op == Bump(k, 1, Some(w + 1000))
      && begins <= history[j].now && history[j].time < begins + w + 1000
  }

  predicate IsAttempt(e: Event, k: Key) {
    e.op.Bump? && e.op.k == k
  }

  /** An attempt is let through when its count is within the limit. */
  predicate Admits(e: Event, k: Key, limit: nat) {
    IsAttempt(e, k) && e.answer.Count? && e.answer.n <= limit
  }

  function Attempts(history: seq<Event>, k: Key): nat {
    if history == [] then 0
    else Attempts(history[..|history| - 1], k) + if IsAttempt(history[|history| - 1], k) then 1 else 0
  }

  function Admitted(history: seq<Event>, k: Key, limit: nat): nat {
    if history == [] then 0
    else Admitted(history[..|history| - 1], k, limit) + if Admits(history[|history| - 1], k, limit) then 1 else 0
  }

  function Min(a: nat, b: nat): nat { if a < b then a else b }

  /** The counter after `n` attempts in its slot. */
  predicate CountedUp(m: Flat, k: Key, n: nat, begins: int, w: nat) {
    if n == 0 then k !in m
    else k in m && m[k].value == Number(n) && m[k].deadline.Some? && m[k].deadline.value >= begins + w + 1000
  }

  lemma NoneYet(m: Flat, k: Key, begins: int, w: nat)
    requires k !in m
    ensures CountedUp(m, k, 0, begins, w)
  {}

  lemma OneAttempt(parse: Parse, e: Event, k: Key, n: nat, begins: int, w: nat)
    requires Explained(parse, e) && CountedUp(e.before, k, n, begins, w)
    requires Changes(e.op, k) ==>
               e.op == Bump(k, 1, Some(w + 1000)) && begins <= e.now && e.time < begins + w + 1000
    ensures CountedUp(e.after, k, if IsAttempt(e, k) then n + 1 else n, begins, w)
    ensures IsAttempt(e, k) ==> e.answer == Count(n + 1)
  {
    var c :| ExplainedAt(parse, e, c);
  }

  /** The attempts of a slot are answered one, two, three and so on; the first `limit` of them are admitted. */
  lemma {:induction false} SlotCounts(parse: Parse, history: seq<Event>, start: Flat, end: Flat, k: Key, begins: int,
      w: nat, limit: nat)
    requires Stretch(parse, history, start, end) && k !in start && OnlyAttempts(history, k, begins, w)
    ensures CountedUp(end, k, Attempts(history, k), begins, w)
    ensures Admitted(history, k, limit) == Min(Attempts(history, k), limit)
    decreases |history|
  {
    hide Explained, CountedUp;
    if history == [] {
      NoneYet(start, k, begins, w);
    } else {
      var n := |history| - 1;
      var rest, last := history[..n], history[n];
      assert rest != [] ==> rest[n - 1] == history[n - 1];
      SlotCounts(parse, rest, start, last.before, k, begins, w, limit);
      OneAttempt(parse, last, k, Attempts(rest, k), begins, w);
    }
  }

  lemma LegalIsStretch(parse: Parse, history: seq<Event>, flat: Flat, clock: int)
    requires Legal(parse, history, flat, clock)
    ensures Stretch(parse, history, map[], flat)
  {
    hide Explained;
  }

  // ----- Attempts made through the limiter -----

  /** The call of the store that `RateLimiter.Attempt` makes when its clock reads `reading`. */
  predicate Attempted(e: Event, key: string, window: nat, reading: nat) {
    e.op == Bump(CounterOf(key, window, reading), 1, Some((if window == 0 then 1 else window) + 1000))
  }

  /** An attempt made between two multiples of the window, `from` and the next. */
  predicate MadeFrom(e: Event, reading: nat, key: string, window: nat, from: nat) {
    Attempted(e, key, window, reading) && from <= reading < from + if window == 0 then 1 else window
  }

  /**
   The counter that stands for the time from `from` on is changed only by
   attempts made then, on the same window, each of which the store takes less
   than a second after that time is over. The store reads its clock after the
   limiter.
   */
  predicate Undisturbed(history: seq<Event>, readings: seq<nat>, key: string, window: nat, from: nat)
    requires |readings| == |history|
  {
    forall j :: 0 <= j < |history| && Changes(history[j].op, CounterOf(key, window, from)) ==>
      && Attempted(history[j], key, window, readings[j])
      && from <= readings[j] <= history[j].now
      && history[j].time < from + (if window == 0 then 1 else window) + 1000
  }

  function Made(history: seq<Event>, readings: seq<nat>, key: string, window: nat, from: nat): nat
    requires |readings| == |history|
  {
    if history == [] then 0
    else
      var n := |history| - 1;
      Made(history[..n], readings[..n], key, window, from)
      + if MadeFrom(history[n], readings[n], key, window, from) then 1 else 0
  }

  /** Those of them that were told a count within the limit. */
  function LetThrough(history: seq<Event>, readings: seq<nat>, key: string, window: nat, from: nat, limit: nat): nat
    requires |readings| == |history|
  {
    if history == [] then 0
    else
      var n := |history| - 1;
      LetThrough(history[..n], readings[..n], key, window, from, limit)
      + if MadeFrom(history[n], readings[n], key, window, from)
           && history[n].answer.Count? && history[n].answer.n <= limit then 1 else 0
  }

  predicate IsMultiple(from: nat, window: nat) {
    window == 0 || from % window == 0
  }

  /** An attempt uses the counter of a piece of time exactly if it is made then. */
  lemma MadeThen(key: string, window: nat, from: nat, reading: nat)
    requires IsMultiple(from, window)
    ensures CounterOf(key, window, reading) == CounterOf(key, window, from) <==>
              from <= reading < from + if window == 0 then 1 else window
  {
    hide CounterOf, InSlot;
    OneCounterExactly(key, window, reading, from);
    var slot := if window == 0 then from else from / window;
    SlotOfMultiple(window, from, reading);
    SlotOfMultiple(window, from, from);
    if InSlot(window, slot, reading) {
      assert InSlot(window, slot, from);
    } else {
      forall other | InSlot(window, other, from)
        ensures other == slot
      {
        CounterIsOfSlot(key, window, from, other);
        CounterIsOfSlot(key, window, from, slot);
      }
    }
  }

  lemma SlotOfMultiple(window: nat, from: nat, t: nat)
    requires IsMultiple(from, window)
    ensures InSlot(window, if window == 0 then from else from / window, t) <==>
              from <= t < from + if window == 0 then 1 else window
  {
    if window > 0 {
      var q, r := DivMod(from, window);
      assert (q + 1) * window == q * window + window;
    }
  }

  lemma {:induction false} MadeAreAttempts(history: seq<Event>, readings: seq<nat>, key: string, window: nat, from: nat,
      limit: nat)
    requires |readings| == |history| && IsMultiple(from, window)
    requires Undisturbed(history, readings, key, window, from)
    ensures Made(history, readings, key, window, from) == Attempts(history, CounterOf(key, window, from))
    ensures LetThrough(history, readings, key, window, from, limit)
         == Admitted(history, CounterOf(key, window, from), limit)
    decreases |history|
  {
    hide CounterOf;
    if history != [] {
      var n := |history| - 1;
      var rest, before := history[..n], readings[..n];
      assert Undisturbed(rest, before, key, window, from) by {
        forall j | 0 <= j < n && Changes(rest[j].op, CounterOf(key, window, from))
          ensures Attempted(rest[j], key, window, before[j]) && from <= before[j] <= rest[j].now
                  && rest[j].time < from + (if window == 0 then 1 else window) + 1000
        {
          assert rest[j] == history[j];
        }
      }
      MadeAreAttempts(rest, before, key, window, from, limit);
      LastIsMade(history[n], readings[n], key, window, from);
    }
  }

  lemma LastIsMade(e: Event, reading: nat, key: string, window: nat, from: nat)
    requires IsMultiple(from, window)
    requires Changes(e.op, CounterOf(key, window, from)) ==> Attempted(e, key, window, reading)
    ensures MadeFrom(e, reading, key, window, from) <==> IsAttempt(e, CounterOf(key, window, from))
  {
    MadeThen(key, window, from, reading);
    hide CounterOf;
  }

  lemma UndisturbedMeansAttempts(history: seq<Event>, readings: seq<nat>, key: string, window: nat, from: nat)
    requires |readings| == |history| && IsMultiple(from, window)
    requires Undisturbed(history, readings, key, window, from)
    ensures OnlyAttempts(history, CounterOf(key, window, from), from, if window == 0 then 1 else window)
  {
    hide CounterOf;
    var k, w := CounterOf(key, window, from), if window == 0 then 1 else window;
    forall j | 0 <= j < |history| && Changes(history[j].op, k)
      ensures history[j].op == Bump(k, 1, Some(w + 1000)) && from <= history[j].now
              && history[j].time < from + w + 1000
    {
      LastIsMade(history[j], readings[j], key, window, from);
    }
  }

  /**
   In every run of the store, of the attempts made through the limiter between
   two multiples of the window exactly the first `limit` are let through, as
   long as none reaches the store a second or more after that.
   */
  lemma ExactlyLimitPerSlot(parse: Parse, clock: int, steps: seq<Step>, readings: seq<nat>, key: string, window: nat,
      from: nat, limit: nat)
    requires |readings| == |Run(parse, Start(clock), steps).history| && IsMultiple(from, window)
    requires Undisturbed(Run(parse, Start(clock), steps).history, readings, key, window, from)
    ensures var history := Run(parse, Start(clock), steps).history;
            var made := Made(history, readings, key, window, from);
            LetThrough(history, readings, key, window, from, limit) == if made < limit then made else limit
  {
    var s := Run(parse, Start(clock), steps);
    EveryRunIsFlat(parse, clock, steps);
    LegalIsStretch(parse, s.history, s.flat, s.clock);
    hide CounterOf, Run, Undisturbed, OnlyAttempts, Stretch, IsMultiple;
    UndisturbedMeansAttempts(s.history, readings, key, window, from);
    SlotCounts(parse, s.history, map[], s.flat, CounterOf(key, window, from), from, if window == 0 then 1 else window,
      limit);
    MadeAreAttempts(s.history, readings, key, window, from, limit);
  }

  // ----- Over one window of time -----

  /** The attempts let through whose readings lie from `start` to a window later. */
  function LetThroughWithin(history: seq<Event>, readings: seq<nat>, key: string, window: nat, start: nat, limit: nat)
    : nat
    requires |readings| == |history|
  {
    if history == [] then 0
    else
      var n := |history| - 1;
      LetThroughWithin(history[..n], readings[..n], key, window, start, limit)
      + if Attempted(history[n], key, window, readings[n]) && start <= readings[n] <= start + window
           && history[n].answer.Count? && history[n].answer.n <= limit then 1 else 0
  }

  /** A window of time touches two slots. */
  lemma {:induction false} WindowIsTwoSlots(history: seq<Event>, readings: seq<nat>, key: string, window: nat,
      start: nat, from: nat, limit: nat)
    requires |readings| == |history| && window > 0 && from <= start < from + window
    ensures LetThroughWithin(history, readings, key, window, start, limit)
         <= LetThrough(history, readings, key, window, from, limit)
            + LetThrough(history, readings, key, window, from + window, limit)
    decreases |history|
  {
    hide Attempted;
    if history != [] {
      var n := |history| - 1;
      WindowIsTwoSlots(history[..n], readings[..n], key, window, start, from, limit);
    }
  }

  /** Of the attempts whose readings span at most one window, at most twice the limit are let through. */
  lemma AtMostTwiceTheLimit(parse: Parse, clock: int, steps: seq<Step>, readings: seq<nat>, key: string, window: nat,
      start: nat, limit: nat)
    requires window > 0 && |readings| == |Run(parse, Start(clock), steps).history|
    requires forall from: nat :: IsMultiple(from, window) ==>
               Undisturbed(Run(parse, Start(clock), steps).history, readings, key, window, from)
    ensures LetThroughWithin(Run(parse, Start(clock), steps).history, readings, key, window, start, limit) <= 2 * limit
  {
    var from := start - start % window;
    MultiplesAround(start, window);
    hide Run, Undisturbed, IsMultiple;
    ExactlyLimitPerSlot(parse, clock, steps, readings, key, window, from, limit);
    ExactlyLimitPerSlot(parse, clock, steps, readings, key, window, from + window, limit);
    WindowIsTwoSlots(Run(parse, Start(clock), steps).history, readings, key, window, start, from, limit);
  }

  lemma MultiplesAround(start: nat, window: nat)
    requires window > 0
    ensures var from := start - start % window;
            0 <= from <= start < from + window && from % window == 0 && (from + window) % window == 0
  {
    var q, r := DivMod(start, window);
    QuotientIs(q * window, window, q, 0);
    QuotientIs(q * window + window, window, q + 1, 0);
  }

  // ----- Past the slack -----

  /** A counter goes on counting exactly until a window and the slack after the clock reading that created it. */
  lemma CounterLivesUntil(parse: Parse, m: Flat, k: Key, n: nat, created: int, w: nat, c: int, now: int)
    requires n >= 1 && k in m && m[k] == Entry(Number(n), Some(created + w + 1000))
    ensures FlatStep(parse, m, Bump(k, 1, Some(w + 1000)), c, now).1 == Count(n + 1) <==> c < created + w + 1000
    ensures c >= created + w + 1000 ==> FlatStep(parse, m, Bump(k, 1, Some(w + 1000)), c, now).1 == Count(1)
  {}

  /** So an attempt of a slot that lands too late is admitted on top of the limit. */
  lemma TooLateIsAdmittedAgain(parse: Parse)
    ensures var k := CounterKey("login", 0);
            var attempt := Bump(k, 1, Some(2000));
            var steps := [Begin(0, attempt), Section(0), Advance(2000), Begin(1, attempt), Section(1)];
            var history := Run(parse, Start(0), steps).history;
            Attempts(history, k) == 2 && Admitted(history, k, 1) == 2
  {
    hide CounterKey;
    var k := CounterKey("login", 0);
    var attempt := Bump(k, 1, Some(2000));
    var s1 := Next(parse, Start(0), Begin(0, attempt));
    var s2 := Next(parse, s1, Section(0));
    var s3 := Next(parse, s2, Advance(2000));
    var s4 := Next(parse, s3, Begin(1, attempt));
    var s5 := Next(parse, s4, Section(1));
    var steps := [Begin(0, attempt), Section(0), Advance(2000), Begin(1, attempt), Section(1)];
    FiveSteps(parse, Start(0), steps);
    assert |s2.history| == 1 && s2.history[0].answer == Count(1);
    assert s2.store == map[k := Entry(Number(1), Some(2000))];
    assert |s5.history| == 2 && s5.history[0] == s2.history[0] && s5.history[1].answer == Count(1);
    TwoAdmitted(s5.history, k);
  }

  lemma FiveSteps(parse: Parse, s: State, steps: seq<Step>)
    requires |steps| == 5
    ensures Run(parse, s, steps)
         == Next(parse, Next(parse, Next(parse, Next(parse, Next(parse, s, steps[0]), steps[1]), steps[2]), steps[3]),
             steps[4])
  {
    hide Next;
    var s1 := Next(parse, s, steps[0]);
    var s2 := Next(parse, s1, steps[1]);
    var s3 := Next(parse, s2, steps[2]);
    var s4 := Next(parse, s3, steps[3]);
    assert steps[1..][1..] == steps[2..] && steps[2..][1..] == steps[3..] && steps[3..][1..] == steps[4..]
           && steps[4..][1..] == [];
    assert Run(parse, s1, steps[1..]) == Run(parse, s2, steps[2..]);
    assert Run(parse, s2, steps[2..]) == Run(parse, s3, steps[3..]);
    assert Run(parse, s3, steps[3..]) == Run(parse, s4, steps[4..]);
    assert Run(parse, s4, steps[4..]) == Run(parse, Next(parse, s4, steps[4]), []);
  }

  lemma TwoAdmitted(history: seq<Event>, k: Key)
    requires |history| == 2 && Admits(history[0], k, 1) && Admits(history[1], k, 1)
    ensures Attempts(history, k) == 2 && Admitted(history, k, 1) == 2
  {
    assert history[..1] == [history[0]] && history[..1][..0] == [];
    assert Attempts(history[..1], k) == 1 && Admitted(history[..1], k, 1) == 1;
  }
}
