/**
 What payments buy over whole serial runs: periods that join unless the
 subscription was suspended, each on the plan that was last asked for.
 */
module BillingPayments {
  import opened Basics
  import opened BillingTypes
  import opened BillingState
  import opened BillingKeeps
  import opened BillingTick
  import opened BillingEffects
  import opened BillingCalls

  /** The call pays an open invoice of the subscription. */
  predicate PaysFor(a: Db, call: Call, id: Id) {
    call.OnPaid? && call.inv in a.invs && a.invs[call.inv].status == Open && a.invs[call.inv].sub == id
  }

  predicate Pays(calls: seq<Call>, run: seq<Db>, k: int, id: Id) {
    0 <= k < |calls| && |run| == |calls| + 1 && PaysFor(run[k], calls[k], id)
  }

  ghost predicate NonePaysBetween(calls: seq<Call>, run: seq<Db>, from: int, to: int, id: Id) {
    forall m :: from <= m < to ==> !Pays(calls, run, m, id)
  }

  // ----- Periods -----

  lemma PeriodUnderPayment(cfg: Config, a: Db, b: Db, i: Id, now: nat, r: Payment, id: Id)
    requires Settles(cfg, a, b, i, now, r) && id in a.subs && !PaysFor(a, OnPaid(now, i), id)
    ensures id in b.subs && b.subs[id] == a.subs[id]
  {}

  lemma PeriodUnderTick(cfg: Config, a: Db, b: Db, gateway: Gateway, retry: Gateway, now: nat, tick: Tick, id: Id)
    requires TickDone(cfg, a, b, gateway, retry, now, tick) && id in a.subs
    ensures id in b.subs && b.subs[id] == a.subs[id].(status := b.subs[id].status)
  {
    hide Billed, ClaimsOn, ExpireOf, Settled, Claimed, Payable, GraceOf, Ending, DueClaims;
  }

  /** Nothing but a payment moves a period. */
  lemma PeriodStays(cfg: Config, a: Db, call: Call, b: Db, id: Id)
    requires Effect(cfg, a, call, b) && id in a.subs && !PaysFor(a, call, id)
    ensures id in b.subs && b.subs[id].periodStart == a.subs[id].periodStart
            && b.subs[id].periodEnd == a.subs[id].periodEnd
  {
    hide Settles, OnlySub, Voided, TickDone, CustomerIsFree;
    match call
    case OnPaid(now, i) =>
      var r :| Settles(cfg, a, b, i, now, r);
      PeriodUnderPayment(cfg, a, b, i, now, r, id);
    case TickAt(now, gateway, retry) =>
      var tick :| TickDone(cfg, a, b, gateway, retry, now, tick);
      PeriodUnderTick(cfg, a, b, gateway, retry, now, tick, id);
    case _ =>
  }

  lemma {:induction false} PeriodStaysUntilPaid(cfg: Config, calls: seq<Call>, run: seq<Db>, j: nat, k: nat, id: Id)
    requires Follows(cfg, calls, run) && j <= k <= |calls| && id in run[j].subs
    requires NonePaysBetween(calls, run, j, k, id)
    ensures id in run[k].subs && run[k].subs[id].periodEnd == run[j].subs[id].periodEnd
    decreases k
  {
    hide Effect, PaysFor;
    if j < k {
      PeriodStaysUntilPaid(cfg, calls, run, j, k - 1, id);
      assert !Pays(calls, run, k - 1, id);
      PeriodStays(cfg, run[k - 1], calls[k - 1], run[k], id);
    }
  }

  /** What a payment buys: one cycle of the invoice's plan, from the end of the period if served, else from now. */
  ghost predicate Buys(plans: Plans, a: Db, b: Db, i: Id, id: Id, now: nat) {
    && id in a.subs && id in b.subs && i in b.invs && b.invs[i].status == Paid && b.invs[i].plan in plans
    && b.invs[i].periodStart == (if a.subs[id].status in {Active, Grace} then a.subs[id].periodEnd else now)
    && b.invs[i].periodEnd == b.invs[i].periodStart + plans[b.invs[i].plan].cycle
    && b.subs[id].status == Active && b.subs[id].plan == b.invs[i].plan && b.subs[id].nextPlan == None
    && b.subs[id].periodStart == b.invs[i].periodStart && b.subs[id].periodEnd == b.invs[i].periodEnd
  }

  lemma PaymentBuys(cfg: Config, a: Db, call: Call, b: Db, id: Id)
    requires Effect(cfg, a, call, b) && PaysFor(a, call, id)
    ensures Buys(cfg.plans, a, b, call.inv, id, call.now)
  {
    var r :| Settles(cfg, a, b, call.inv, call.now, r);
  }

  /**
   Every payment buys a cycle; and of two payments of a subscription with none
   in between the second buys from where the first left off, unless the
   subscription had been suspended meanwhile.
   */
  ghost predicate PeriodsJoin(plans: Plans, calls: seq<Call>, run: seq<Db>) {
    && (forall q, id :: Pays(calls, run, q, id) ==> Buys(plans, run[q], run[q + 1], calls[q].inv, id, calls[q].now))
    && forall p, q, id :: Pays(calls, run, p, id) && Pays(calls, run, q, id) && p < q
                          && NonePaysBetween(calls, run, p + 1, q, id) ==>
         Joins(run[p + 1], calls[p].inv, run[q], run[q + 1], calls[q].inv, id)
  }

  predicate Joins(paid: Db, i: Id, a: Db, b: Db, j: Id, id: Id) {
    && i in paid.invs && id in a.subs && j in b.invs
    && (a.subs[id].status in {Active, Grace} ==> b.invs[j].periodStart == paid.invs[i].periodEnd)
    && paid.invs[i].periodEnd == a.subs[id].periodEnd
  }

  lemma RunJoins(cfg: Config, calls: seq<Call>, run: seq<Db>)
    requires Follows(cfg, calls, run)
    ensures PeriodsJoin(cfg.plans, calls, run)
  {
    hide Effect;
    forall q, id | Pays(calls, run, q, id)
      ensures Buys(cfg.plans, run[q], run[q + 1], calls[q].inv, id, calls[q].now)
    {
      PaymentBuys(cfg, run[q], calls[q], run[q + 1], id);
    }
    forall p, q, id | Pays(calls, run, p, id) && Pays(calls, run, q, id) && p < q
                      && NonePaysBetween(calls, run, p + 1, q, id)
      ensures Joins(run[p + 1], calls[p].inv, run[q], run[q + 1], calls[q].inv, id)
    {
      PeriodStaysUntilPaid(cfg, calls, run, p + 1, q, id);
    }
  }

  // ----- Plans -----

  /** The call says on which plan the subscription goes on. */
  predicate SetsPlanFor(cfg: Config, a: Db, call: Call, b: Db, id: Id, plan: Id) {
    match call
    case Subscribe(_, _, p, _) => p == plan && id !in a.subs && id in b.subs
    case ChangePlan(_, x, p, _) => x == id && p == plan && p in cfg.plans && id in a.subs
        && a.subs[id].status != Cancelled
    case OnPaid(_, i) => PaysFor(a, call, id) && a.invs[i].plan == plan
    case _ => false
  }

  predicate SetsPlan(cfg: Config, calls: seq<Call>, run: seq<Db>, k: int, id: Id, plan: Id) {
    0 <= k < |calls| && |run| == |calls| + 1 && SetsPlanFor(cfg, run[k], calls[k], run[k + 1], id, plan)
  }

  ghost predicate NothingSetBetween(cfg: Config, calls: seq<Call>, run: seq<Db>, from: int, to: int, id: Id) {
    forall m, plan :: from <= m < to ==> !SetsPlan(cfg, calls, run, m, id, plan)
  }

  /** What is open is for the plan, and what would be raised is too. */
  ghost predicate Booked(db: Db, id: Id, plan: Id) {
    && id in db.subs
    && (forall i :: IsOpen(db, i, id) ==> db.invs[i].plan == plan)
    && (db.subs[id].status in {Active, Grace, Suspended} ==> IsNextPlan(db.subs[id], plan))
  }

  /** Nothing about the subscription changed but perhaps its status, its asking to end, and charges; some closed. */
  ghost predicate NoNewOpen(a: Db, b: Db, id: Id) {
    && id in a.subs && id in b.subs
    && b.subs[id] == a.subs[id].(status := b.subs[id].status, cancelAtEnd := b.subs[id].cancelAtEnd)
    && (b.subs[id].status in {Active, Grace, Suspended} ==> a.subs[id].status in {Active, Grace, Suspended})
    && forall i :: IsOpen(b, i, id) ==> IsOpen(a, i, id) && b.invs[i].plan == a.invs[i].plan
  }

  lemma NoNewOpenKeeps(a: Db, b: Db, id: Id, plan: Id)
    requires Booked(a, id, plan) && NoNewOpen(a, b, id)
    ensures Booked(b, id, plan)
  {}

  lemma OthersOpenNothing(a: Db, b: Db, other: Id, id: Id)
    requires OnlySub(a, b, other) && id != other && id in a.subs
    ensures NoNewOpen(a, b, id)
  {}

  lemma BookingSets(cfg: Config, a: Db, call: Call, b: Db, id: Id, plan: Id)
    requires Effect(cfg, a, call, b) && SetsPlanFor(cfg, a, call, b, id, plan) && NoTwoAlike(a)
    requires forall i :: i in a.invs ==> a.invs[i].sub in a.subs
    ensures Booked(b, id, plan)
  {
    match call
    case Subscribe(now, customer, p, _) =>
      var r, x, i :| Subscribed(cfg, a, b, customer, p, now, r, x, i);
      SubscribingBooks(cfg, a, b, customer, p, now, r, x, i, id);
    case ChangePlan(now, x, p, _) =>
      var r :| PlanChanged(cfg, a, b, x, p, now, r);
      ChangingBooks(cfg, a, b, id, plan, now, r);
    case OnPaid(now, i) =>
      var r :| Settles(cfg, a, b, i, now, r);
      PayingBooks(cfg, a, b, i, now, r, id);
  }

  lemma SubscribingBooks(cfg: Config, a: Db, b: Db, customer: Id, plan: Id, now: nat, r: Result, x: Id, i: Id, id: Id)
    requires Subscribed(cfg, a, b, customer, plan, now, r, x, i) && id !in a.subs && id in b.subs
    requires forall i :: i in a.invs ==> a.invs[i].sub in a.subs
    ensures Booked(b, id, plan)
  {
    hide CustomerIsFree;
    assert forall j :: j in a.invs ==> a.invs[j].sub != id;
  }

  lemma ChangingBooks(cfg: Config, a: Db, b: Db, id: Id, plan: Id, now: nat, r: Result)
    requires PlanChanged(cfg, a, b, id, plan, now, r) && plan in cfg.plans && id in a.subs
             && a.subs[id].status != Cancelled
    ensures Booked(b, id, plan)
  {
    hide OnlySub, Voided;
  }

  lemma PayingBooks(cfg: Config, a: Db, b: Db, i: Id, now: nat, r: Payment, id: Id)
    requires Settles(cfg, a, b, i, now, r) && PaysFor(a, OnPaid(now, i), id) && NoTwoAlike(a)
    ensures Booked(b, id, a.invs[i].plan)
  {
    forall j | IsOpen(b, j, id)
      ensures false
    {
      assert j != i && Mine(a, j, id) && Mine(a, i, id);
    }
  }

  lemma BookingStays(cfg: Config, a: Db, call: Call, b: Db, id: Id, plan: Id)
    requires Effect(cfg, a, call, b) && Booked(a, id, plan) && forall p :: !SetsPlanFor(cfg, a, call, b, id, p)
    ensures Booked(b, id, plan)
  {
    match call
    case Subscribe(now, customer, p, _) =>
      var r, x, i :| Subscribed(cfg, a, b, customer, p, now, r, x, i);
      SubscribeElsewhere(cfg, a, b, customer, p, now, r, x, i, id, plan);
    case ChangePlan(now, x, p, _) =>
      assert !SetsPlanFor(cfg, a, call, b, id, p);
      var r :| PlanChanged(cfg, a, b, x, p, now, r);
      ChangeElsewhere(cfg, a, b, x, p, now, r, id, plan);
    case Cancel(now, x) =>
      var r :| EndAsked(a, b, x, now, r);
      EndingBooksNothing(a, b, x, now, r, id, plan);
    case CancelNow(now, x) =>
      var r :| EndedNow(a, b, x, now, r);
      EndingNowBooksNothing(a, b, x, now, r, id, plan);
    case Renew(now, x, _) =>
      var r :| Renewed(cfg, a, b, x, now, r);
      RenewingBooks(cfg, a, b, x, now, r, id, plan);
    case Reissue(now, i, charge) =>
      NoNewOpenKeeps(a, b, id, plan);
    case OnPaid(now, i) =>
      var r :| Settles(cfg, a, b, i, now, r);
      assert i in a.invs ==> !SetsPlanFor(cfg, a, call, b, id, a.invs[i].plan);
      PayElsewhere(cfg, a, b, i, now, r, id, plan);
    case OnChargeLost(now, i) =>
      NoNewOpenKeeps(a, b, id, plan);
    case TickAt(now, gateway, retry) =>
      var tick :| TickDone(cfg, a, b, gateway, retry, now, tick);
      TickBooks(cfg, a, b, gateway, retry, now, tick, id, plan);
  }

  lemma SubscribeElsewhere(cfg: Config, a: Db, b: Db, customer: Id, p: Id, now: nat, r: Result, x: Id, i: Id, id: Id,
                           plan: Id)
    requires Subscribed(cfg, a, b, customer, p, now, r, x, i) && Booked(a, id, plan)
    ensures Booked(b, id, plan)
  {
    assert id in a.subs;
    hide CustomerIsFree, Booked;
    if r.Ok? {
      OthersOpenNothing(a, b, x, id);
      NoNewOpenKeeps(a, b, id, plan);
    }
  }

  lemma ChangeElsewhere(cfg: Config, a: Db, b: Db, x: Id, p: Id, now: nat, r: Result, id: Id, plan: Id)
    requires PlanChanged(cfg, a, b, x, p, now, r) && Booked(a, id, plan)
    requires !(x == id && p in cfg.plans && id in a.subs && a.subs[id].status != Cancelled)
    ensures Booked(b, id, plan)
  {
    if r.Ok? {
      OthersOpenNothing(a, b, x, id);
      NoNewOpenKeeps(a, b, id, plan);
    }
  }

  lemma EndingBooksNothing(a: Db, b: Db, x: Id, now: nat, r: Result, id: Id, plan: Id)
    requires EndAsked(a, b, x, now, r) && Booked(a, id, plan)
    ensures Booked(b, id, plan)
  {
    if r.Ok? && x != id {
      OthersOpenNothing(a, b, x, id);
    }
    NoNewOpenKeeps(a, b, id, plan);
  }

  lemma EndingNowBooksNothing(a: Db, b: Db, x: Id, now: nat, r: Result, id: Id, plan: Id)
    requires EndedNow(a, b, x, now, r) && Booked(a, id, plan)
    ensures Booked(b, id, plan)
  {
    if r.Ok? && x != id {
      OthersOpenNothing(a, b, x, id);
    }
    NoNewOpenKeeps(a, b, id, plan);
  }

  lemma RenewingBooks(cfg: Config, a: Db, b: Db, x: Id, now: nat, r: Result, id: Id, plan: Id)
    requires Renewed(cfg, a, b, x, now, r) && Booked(a, id, plan)
    ensures Booked(b, id, plan)
  {
    if r.Ok? && x != id {
      OthersOpenNothing(a, b, x, id);
      NoNewOpenKeeps(a, b, id, plan);
    }
  }

  lemma PayElsewhere(cfg: Config, a: Db, b: Db, i: Id, now: nat, r: Payment, id: Id, plan: Id)
    requires Settles(cfg, a, b, i, now, r) && Booked(a, id, plan) && !PaysFor(a, OnPaid(now, i), id)
    ensures Booked(b, id, plan)
  {
    if r.Extended? {
      NoNewOpenKeeps(a, b, id, plan);
    }
  }

  lemma TickBooks(cfg: Config, a: Db, b: Db, gateway: Gateway, retry: Gateway, now: nat, tick: Tick, id: Id, plan: Id)
    requires TickDone(cfg, a, b, gateway, retry, now, tick) && Booked(a, id, plan)
    ensures Booked(b, id, plan)
  {
    hide Claimed, Settled, NewlyCharged, Lapsing, Count, Booked;
    var billed :| Billed(cfg, a, billed, now, gateway, retry) && TickedFrom(cfg, a, billed, b, now);
    BilledBooks(cfg, a, billed, now, gateway, retry, id, plan);
    TickedBooks(cfg, a, billed, b, now, id, plan);
  }

  lemma BilledBooks(cfg: Config, a: Db, billed: map<Id, Invoice>, now: nat, gateway: Gateway, retry: Gateway, id: Id,
                    plan: Id)
    requires Billed(cfg, a, billed, now, gateway, retry) && Booked(a, id, plan)
    ensures forall i :: i in billed && billed[i].sub == id && billed[i].status == Open ==> billed[i].plan == plan
  {
    forall i | i in billed && billed[i].sub == id && billed[i].status == Open
      ensures billed[i].plan == plan
    {
      if i in a.invs {
        assert IsOpen(a, i, id);
      } else {
        assert IsBilled(cfg, a, billed[i], now, gateway, retry(i));
      }
    }
  }

  lemma TickedBooks(cfg: Config, a: Db, billed: map<Id, Invoice>, b: Db, now: nat, id: Id, plan: Id)
    requires TickedFrom(cfg, a, billed, b, now) && Booked(a, id, plan)
    requires forall i :: i in billed && billed[i].sub == id && billed[i].status == Open ==> billed[i].plan == plan
    ensures Booked(b, id, plan)
  {
    hide ClaimsOn, DueClaims, Payable, GraceOf, Ending;
  }

  lemma {:induction false} BookedUntilSet(cfg: Config, calls: seq<Call>, run: seq<Db>, j: nat, k: nat, id: Id, plan: Id)
    requires Follows(cfg, calls, run) && j <= k <= |calls| && Booked(run[j], id, plan)
    requires NothingSetBetween(cfg, calls, run, j, k, id)
    ensures Booked(run[k], id, plan)
    decreases k
  {
    hide Effect, Booked, SetsPlanFor;
    if j < k {
      BookedUntilSet(cfg, calls, run, j, k - 1, id, plan);
      var a, call, b := run[k - 1], calls[k - 1], run[k];
      forall p
        ensures !SetsPlanFor(cfg, a, call, b, id, p)
      {
        assert !SetsPlan(cfg, calls, run, k - 1, id, p);
      }
      BookingStays(cfg, a, call, b, id, plan);
    }
  }

  /**
   Every payment buys on the plan the customer asked for last: when
   subscribing, by a change of plan that was accepted, or else the one paid for
   before.
   */
  ghost predicate BoughtAsAsked(cfg: Config, calls: seq<Call>, run: seq<Db>) {
    forall j, q, id, plan :: SetsPlan(cfg, calls, run, j, id, plan) && Pays(calls, run, q, id) && j < q
                             && NothingSetBetween(cfg, calls, run, j + 1, q, id) ==>
      id in run[q + 1].subs && run[q + 1].subs[id].plan == plan && run[q + 1].subs[id].nextPlan == None
  }

  /** What the tables keep that the laws of payment need. */
  ghost predicate Sane(run: seq<Db>) {
    forall k :: 0 <= k < |run| ==> NoTwoAlike(run[k]) && forall i :: i in run[k].invs ==>
        run[k].invs[i].sub in run[k].subs
  }

  lemma RunBuysAsAsked(cfg: Config, calls: seq<Call>, run: seq<Db>)
    requires Follows(cfg, calls, run) && Sane(run)
    ensures BoughtAsAsked(cfg, calls, run)
  {
    hide Effect, Booked, SetsPlanFor, NoTwoAlike, PaysFor;
    forall j, q, id, plan | SetsPlan(cfg, calls, run, j, id, plan) && Pays(calls, run, q, id) && j < q
                            && NothingSetBetween(cfg, calls, run, j + 1, q, id)
      ensures id in run[q + 1].subs && run[q + 1].subs[id].plan == plan && run[q + 1].subs[id].nextPlan == None
    {
      BookingSets(cfg, run[j], calls[j], run[j + 1], id, plan);
      BookedUntilSet(cfg, calls, run, j + 1, q, id, plan);
      PaidAsBooked(cfg, run[q], calls[q], run[q + 1], id, plan);
    }
  }

  lemma PaidAsBooked(cfg: Config, a: Db, call: Call, b: Db, id: Id, plan: Id)
    requires Effect(cfg, a, call, b) && Booked(a, id, plan) && PaysFor(a, call, id)
    ensures id in b.subs && b.subs[id].plan == plan && b.subs[id].nextPlan == None
  {
    assert IsOpen(a, call.inv, id);
    var r :| Settles(cfg, a, b, call.inv, call.now, r);
  }
}
