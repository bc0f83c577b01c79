/**
 Whole serial runs of the billing loop: any public methods, called one after
 another in any order, from empty tables on. `Serve` makes the calls; what it
 ensures about the tables after each of them are the laws of every serial run.
 */
module BillingRuns {
  import opened Basics
  import opened BillingTypes
  import opened BillingState
  import opened BillingKeeps
  import opened BillingTick
  import opened BillingEffects
  import opened BillingCalls
  import opened BillingPayments
  import opened BillingLevels
  import Billing

  // ----- The laws -----

  /** What the tables say between any two calls about one subscription's invoices. */
  ghost predicate InvoicesInOrder(db: Db) {
    forall id, i :: id in db.subs && Mine(db, i, id) ==>
      && (db.invs[i].status == Open ==>
            && !db.subs[id].cancelAtEnd && db.subs[id].status != Cancelled
            && (db.invs[i].periodStart != 0 ==> db.invs[i].periodStart == db.subs[id].periodEnd))
      && (db.invs[i].status == Paid ==> db.invs[i].periodStart < db.invs[i].periodEnd <= db.subs[id].periodEnd)
  }

  /** Credits are in exactly for the paid invoices whose plan has any. */
  ghost predicate CreditedIffPaid(plans: Plans, db: Db) {
    forall i :: HasCredit(db.ledger, i) <==>
        i in db.invs && db.invs[i].status == Paid && PaysCredits(plans, db.invs[i].plan)
  }

  ghost predicate InOrder(plans: Plans, db: Db) {
    InvoicesInOrder(db) && NoTwoAlike(db) && OneLivePerCustomer(db) && CreditedIffPaid(plans, db)
  }

  /** No later call revives a cancelled subscription, moves its period or bills it; no period end moves back. */
  ghost predicate SubsMoveForward(a: Db, b: Db) {
    forall id :: id in a.subs ==>
      && id in b.subs && a.subs[id].periodEnd <= b.subs[id].periodEnd
      && (a.subs[id].status == Cancelled ==>
            && b.subs[id].status == Cancelled && b.subs[id].periodEnd == a.subs[id].periodEnd
            && forall i :: !IsOpen(b, i, id))
  }

  /** A closed invoice stays as it was but for its charge; and what it paid for is never sold again. */
  ghost predicate InvoicesStayClosed(a: Db, b: Db) {
    forall i :: i in a.invs && a.invs[i].status != Open ==>
      && i in b.invs && b.invs[i] == a.invs[i].(charge := b.invs[i].charge)
      && (a.invs[i].status == Paid ==>
            forall j :: Mine(b, j, a.invs[i].sub) && b.invs[j].status == Paid && i != j ==>
                Disjoint(a.invs[i], b.invs[j]))
  }

  /** The laws of a serial run. */
  ghost predicate Lawful(plans: Plans, run: seq<Db>) {
    && (forall k :: 0 <= k < |run| ==> InOrder(plans, run[k]))
    && (forall j, k :: 0 <= j <= k < |run| ==> SubsMoveForward(run[j], run[k]) && InvoicesStayClosed(run[j], run[k]))
  }

  // ----- Why they hold -----

  /** What the methods promise one by one. */
  ghost predicate Run(plans: Plans, run: seq<Db>) {
    && (forall k :: 0 <= k < |run| ==> Inv(plans, run[k]))
    && (forall k :: 0 < k < |run| ==> Kept(run[k - 1], run[k]))
  }

  /** What two calls keep is kept over any stretch of a run. */
  lemma {:induction false} RunKeeps(plans: Plans, run: seq<Db>, j: nat, k: nat)
    requires Run(plans, run) && j <= k < |run|
    ensures Kept(run[j], run[k])
    decreases k
  {
    hide Inv;
    if j < k {
      RunKeeps(plans, run, j, k - 1);
      KeptIsTransitive(run[j], run[k - 1], run[k]);
    } else {
      StayPut(run[j]);
    }
  }

  lemma InvIsInOrder(plans: Plans, db: Db)
    requires Inv(plans, db)
    ensures InOrder(plans, db)
  {
    RowsAreInOrder(plans, db);
    BooksAreInOrder(plans, db);
  }

  lemma BooksAreInOrder(plans: Plans, db: Db)
    requires Inv(plans, db)
    ensures CreditedIffPaid(plans, db)
  {
    hide RowsOk;
    forall i | HasCredit(db.ledger, i)
      ensures i in db.invs && db.invs[i].status == Paid && PaysCredits(plans, db.invs[i].plan)
    {
      var k :| 0 <= k < |db.ledger| && db.ledger[k].reference == i;
      assert CreditFits(plans, db.subs, db.invs, db.ledger[k]);
    }
  }

  lemma RowsAreInOrder(plans: Plans, db: Db)
    requires Inv(plans, db)
    ensures InvoicesInOrder(db) && NoTwoAlike(db) && OneLivePerCustomer(db)
  {
    hide SubInv, BooksOk;
    forall id | id in db.subs
      ensures SubInv(plans, db, id)
    {
      InvSub(plans, db, id);
    }
    EachIsInOrder(plans, db);
    NoTwoAreAlike(plans, db);
    hide InvoicesInOrder, NoTwoAlike;
  }

  lemma EachIsInOrder(plans: Plans, db: Db)
    requires forall id :: id in db.subs ==> SubInv(plans, db, id)
    ensures InvoicesInOrder(db)
  {
    hide KeyOf, PairOk;
    forall id, i | id in db.subs && Mine(db, i, id)
      ensures InvoiceOk(plans, i, db.invs[i], db.subs[id])
    {
      assert SubInv(plans, db, id);
    }
  }

  lemma NoTwoAreAlike(plans: Plans, db: Db)
    requires forall id :: id in db.subs ==> SubInv(plans, db, id)
    ensures NoTwoAlike(db)
  {
    hide InvoiceOk, StatusOk;
    forall id, i, j | id in db.subs && Mine(db, i, id) && Mine(db, j, id) && i != j
      ensures PairOk(db.invs[i], db.invs[j])
    {
      assert SubInv(plans, db, id);
    }
  }

  lemma KeptMovesForward(plans: Plans, a: Db, b: Db)
    requires Kept(a, b) && InOrder(plans, b) && (forall i :: i in a.invs ==> a.invs[i].sub in a.subs)
    ensures SubsMoveForward(a, b) && InvoicesStayClosed(a, b)
  {
    hide CreditedIffPaid, OneLivePerCustomer;
    forall id | id in a.subs
      ensures SubKept(a.subs[id], b.subs[id])
    {}
    forall i | i in a.invs && a.invs[i].status != Open
      ensures InvoiceKept(a.invs[i], b.invs[i]) && Mine(b, i, a.invs[i].sub)
    {}
  }

  lemma RunIsLawful(plans: Plans, run: seq<Db>)
    requires Run(plans, run)
    ensures Lawful(plans, run)
  {
    hide InOrder, SubsMoveForward, InvoicesStayClosed, Kept, SubInv, BooksOk;
    forall k | 0 <= k < |run|
      ensures InOrder(plans, run[k])
    {
      InvIsInOrder(plans, run[k]);
    }
    forall j, k | 0 <= j <= k < |run|
      ensures SubsMoveForward(run[j], run[k]) && InvoicesStayClosed(run[j], run[k])
    {
      RunKeeps(plans, run, j, k);
      assert Inv(plans, run[j]);
      KeptMovesForward(plans, run[j], run[k]);
    }
  }

  // ----- A subscription that was asked to end -----

  /** The calls that end a subscription which was asked to end with its period. */
  predicate Ends(cfg: Config, call: Call, s: Subscription, id: Id) {
    match call
    case CancelNow(_, x) => x == id
    case TickAt(now, _, _) => now >= if s.status == Active then s.periodEnd else s.periodEnd + GraceOf(cfg, s)
    case _ => false
  }

  /** The row of such a subscription once some calls have been made. */
  ghost predicate StillAsked(cfg: Config, s: Subscription, t: Subscription, ended: bool) {
    t == s.(cancelAtEnd := true, nextPlan := t.nextPlan, status := if ended then Cancelled else s.status)
  }

  /** Asked to end, and not ended. */
  predicate Asked(s: Subscription) {
    s.cancelAtEnd && s.status.IsServed()
  }

  lemma AskedUnderPayment(cfg: Config, a: Db, b: Db, i: Id, now: nat, r: Payment, id: Id)
    requires InvoicesInOrder(a) && id in a.subs && a.subs[id].cancelAtEnd && Settles(cfg, a, b, i, now, r)
    ensures id in b.subs && b.subs[id] == a.subs[id]
  {
    hide PeriodStart, Topped, ExtendedSub, PaidInvoice;
    if r.Extended? {
      assert a.invs[i].sub == id ==> Mine(a, i, id);
    }
  }

  /** One call: the row stays, but for the next plan, unless the call ends the subscription. */
  lemma AskedUnderCall(cfg: Config, a: Db, call: Call, b: Db, id: Id)
    requires InOrder(cfg.plans, a) && Effect(cfg, a, call, b) && id in a.subs && Asked(a.subs[id])
    ensures id in b.subs && StillAsked(cfg, a.subs[id], b.subs[id], Ends(cfg, call, a.subs[id], id))
  {
    hide InvoicesInOrder, NoTwoAlike, OneLivePerCustomer, CreditedIffPaid, Settles, OnlySub, Voided, TickDone;
    match call
    case Subscribe(_, _, _, _) =>
    case OnPaid(now, i) =>
      var r :| Settles(cfg, a, b, i, now, r);
      AskedUnderPayment(cfg, a, b, i, now, r, id);
    case TickAt(now, gateway, retry) =>
      var tick :| TickDone(cfg, a, b, gateway, retry, now, tick);
      AskedUnderTick(cfg, a, b, gateway, retry, now, tick, id);
    case _ =>
  }

  lemma AskedUnderTick(cfg: Config, a: Db, b: Db, gateway: Gateway, retry: Gateway, now: nat, tick: Tick, id: Id)
    requires TickDone(cfg, a, b, gateway, retry, now, tick) && id in a.subs && Asked(a.subs[id])
    ensures id in b.subs && StillAsked(cfg, a.subs[id], b.subs[id],
            Ends(cfg, TickAt(now, gateway, retry), a.subs[id], id))
  {
    hide TickDone, Payable;
    TickedRow(cfg, a, b, gateway, retry, now, tick, id);
  }

  /** Once ended it stays as it is, whatever is called. */
  lemma EndedUnderCall(cfg: Config, a: Db, call: Call, b: Db, id: Id)
    requires InOrder(cfg.plans, a) && Effect(cfg, a, call, b) && id in a.subs
    requires a.subs[id].cancelAtEnd && a.subs[id].status == Cancelled
    ensures id in b.subs && b.subs[id] == a.subs[id]
  {
    hide InvoicesInOrder, NoTwoAlike, OneLivePerCustomer, CreditedIffPaid, Settles, OnlySub, Voided, TickDone;
    match call
    case OnPaid(now, i) =>
      var r :| Settles(cfg, a, b, i, now, r);
      AskedUnderPayment(cfg, a, b, i, now, r, id);
    case TickAt(now, gateway, retry) =>
      var tick :| TickDone(cfg, a, b, gateway, retry, now, tick);
      EndedUnderTick(cfg, a, b, gateway, retry, now, tick, id);
    case _ =>
  }

  lemma EndedUnderTick(cfg: Config, a: Db, b: Db, gateway: Gateway, retry: Gateway, now: nat, tick: Tick, id: Id)
    requires TickDone(cfg, a, b, gateway, retry, now, tick) && id in a.subs && a.subs[id].status == Cancelled
    ensures id in b.subs && b.subs[id] == a.subs[id]
  {
    hide TickDone, Payable;
    TickedRow(cfg, a, b, gateway, retry, now, tick, id);
  }

  /** The call at `j` asks a served subscription to end. */
  predicate AsksToEnd(calls: seq<Call>, run: seq<Db>, j: int, id: Id) {
    && 0 <= j < |calls| && j < |run| && calls[j].Cancel? && calls[j].id == id
    && id in run[j].subs && run[j].subs[id].status.IsServed()
  }

  /** Between the calls `j` and `k` there was one that ends it. */
  predicate EndedBetween(cfg: Config, calls: seq<Call>, s: Subscription, id: Id, j: int, k: int)
    requires 0 <= j < k <= |calls|
  {
    exists m :: j < m < k && Ends(cfg, calls[m], s, id)
  }

  lemma AskingMarks(cfg: Config, calls: seq<Call>, run: seq<Db>, j: nat, id: Id)
    requires Follows(cfg, calls, run) && AsksToEnd(calls, run, j, id)
    ensures id in run[j + 1].subs && run[j + 1].subs[id] == run[j].subs[id].(cancelAtEnd := true)
  {
    hide OnlySub, Voided;
    assert Effect(cfg, run[j], calls[j], run[j + 1]);
  }

  /** What becomes of a subscription asked to end, however many calls later. */
  lemma {:induction false} AskedStaysAsked(cfg: Config, calls: seq<Call>, run: seq<Db>, j: nat, k: nat, id: Id)
    requires Follows(cfg, calls, run) && (forall n :: 0 <= n < |run| ==> InOrder(cfg.plans, run[n]))
    requires AsksToEnd(calls, run, j, id) && j < k <= |calls|
    ensures id in run[k].subs
    ensures StillAsked(cfg, run[j].subs[id], run[k].subs[id], EndedBetween(cfg, calls, run[j].subs[id], id, j, k))
    decreases k
  {
    hide InOrder, Effect, Ends;
    var s := run[j].subs[id];
    if k == j + 1 {
      AskingMarks(cfg, calls, run, j, id);
    } else {
      AskedStaysAsked(cfg, calls, run, j, k - 1, id);
      var t := run[k - 1].subs[id];
      assert Effect(cfg, run[k - 1], calls[k - 1], run[k]);
      if EndedBetween(cfg, calls, s, id, j, k - 1) {
        EndedUnderCall(cfg, run[k - 1], calls[k - 1], run[k], id);
      } else {
        AskedUnderCall(cfg, run[k - 1], calls[k - 1], run[k], id);
        EndsAlike(cfg, calls[k - 1], s, t, id);
      }
    }
  }

  lemma EndsAlike(cfg: Config, call: Call, s: Subscription, t: Subscription, id: Id)
    requires t.status == s.status && t.periodEnd == s.periodEnd && t.plan == s.plan
    ensures Ends(cfg, call, s, id) == Ends(cfg, call, t, id)
  {}

  /**
   Who is served after asking to end: until a call ends the subscription, or
   the grace of its plan is over. Asked while active, the first tick after the
   period ends it; asked while in grace, only a tick after the grace.
   */
  ghost predicate ServedUntilEnded(cfg: Config, calls: seq<Call>, run: seq<Db>) {
    forall j, k, id :: AsksToEnd(calls, run, j, id) && j < k <= |calls| && k < |run| ==>
      ServedUntil(cfg, run[j], run[k], id, EndedBetween(cfg, calls, run[j].subs[id], id, j, k))
  }

  ghost predicate ServedUntil(cfg: Config, a: Db, b: Db, id: Id, ended: bool) {
    && id in a.subs && id in b.subs
    && forall now: nat :: b.subs[id].IsServedAt(now, GraceOf(cfg, b.subs[id])) <==>
         !ended && now < a.subs[id].periodEnd + GraceOf(cfg, a.subs[id])
  }

  lemma RunServesUntilEnded(cfg: Config, calls: seq<Call>, run: seq<Db>)
    requires Follows(cfg, calls, run) && forall n :: 0 <= n < |run| ==> InOrder(cfg.plans, run[n])
    ensures ServedUntilEnded(cfg, calls, run)
  {
    hide InOrder, Effect, EndedBetween;
    forall j, k, id | AsksToEnd(calls, run, j, id) && j < k <= |calls| && k < |run|
      ensures ServedUntil(cfg, run[j], run[k], id, EndedBetween(cfg, calls, run[j].subs[id], id, j, k))
    {
      AskedStaysAsked(cfg, calls, run, j, k, id);
    }
  }

  // ----- Serving calls -----

  /** One call of a public method. */
  method Dispatch(b: Billing.Billing, call: Call)
    requires b.Valid() && b.db.clock <= call.now
    modifies b
    ensures b.Valid() && b.db.clock <= call.now && Kept(old(b.db), b.db)
    ensures Effect(b.cfg, old(b.db), call, b.db)
  {
    hide Logged, Inv, Kept, Subscribed, PlanChanged, EndAsked, EndedNow, Renewed, Reissued, Settles, ChargeLost,
        TickDone;
    match call
    case Subscribe(now, customer, plan, charge) => var r, id, i := b.Subscribe(customer, plan, now, charge);
    case ChangePlan(now, id, plan, charge) => var r := b.ChangePlan(id, plan, now, charge);
    case Cancel(now, id) => var r := b.Cancel(id, now);
    case CancelNow(now, id) => var r := b.CancelNow(id, now);
    case Renew(now, id, charge) => var r := b.Renew(id, now, charge);
    case Reissue(now, i, charge) => var r := b.Reissue(i, now, charge);
    case OnPaid(now, i) => var r := b.OnPaid(i, now);
    case OnChargeLost(now, i) => b.OnChargeLost(i, now);
    case TickAt(now, gateway, retry) => var tick := b.TickAt(gateway, retry, now);
  }

  /** Make any calls in the order of time; the tables after each of them obey every law of a serial run. */
  method Serve(cfg: Config, calls: seq<Call>) returns (run: seq<Db>)
    requires ValidPlans(cfg.plans) && InTime(calls)
    ensures Follows(cfg, calls, run) && Lawful(cfg.plans, run) && ServedUntilEnded(cfg, calls, run)
    ensures PeriodsJoin(cfg.plans, calls, run) && BoughtAsAsked(cfg, calls, run)
    ensures forall k :: 0 <= k < |run| ==> Reached(cfg.plans, run[k])
  {
    hide Inv, Kept, Effect, ServedUntilEnded, PeriodsJoin, BoughtAsAsked, Sane, Logged,
        Reached;
    var b := new Billing.Billing(cfg);
    run := [b.db];
    LoggedIsReached(cfg.plans, b.db, b.log);
    for k := 0 to |calls|
      invariant b.Valid() && b.cfg == cfg && |run| == k + 1 && run[0] == EMPTY && run[k] == b.db
      invariant b.db.clock <= if k == 0 then 0 else calls[k - 1].now
      invariant Run(cfg.plans, run) && forall n :: 0 <= n <= k ==> Reached(cfg.plans, run[n])
      invariant forall n :: 0 <= n < k ==> Effect(cfg, run[n], calls[n], run[n + 1])
    {
      Dispatch(b, calls[k]);
      LoggedIsReached(cfg.plans, b.db, b.log);
      run := run + [b.db];
    }
    RunIsLawful(cfg.plans, run);
    hide InOrder;
    RunServesUntilEnded(cfg, calls, run);
    RunJoins(cfg, calls, run);
    RunIsSane(cfg.plans, run);
    RunBuysAsAsked(cfg, calls, run);
  }

  lemma RunIsSane(plans: Plans, run: seq<Db>)
    requires Run(plans, run)
    ensures Sane(run)
  {
    hide SubInv, BooksOk, NoTwoAlike;
    forall k | 0 <= k < |run|
      ensures NoTwoAlike(run[k]) && forall i :: i in run[k].invs ==> run[k].invs[i].sub in run[k].subs
    {
      assert Inv(plans, run[k]);
      RowsAreInOrder(plans, run[k]);
    }
  }

  /**
   A subscription that asked to end is served past the end of its period, tick
   or no tick: paid at 0 for 100 seconds with 50 of grace, in grace at 100,
   asked to end at 110, ticked at 120, and served at 120.
   */
  method ServedPastTheEnd() returns (db: Db, id: Id)
    ensures id in db.subs && db.subs[id].cancelAtEnd && db.subs[id].periodEnd == 100 && db.clock == 120
    ensures db.subs[id].IsServedAt(120, 50)
  {
    hide Logged, Inv, Kept, OnlySub, Voided, TickDone, Topped;
    var cfg := Config(map["pro" := Plan(0, 100, 50)], 10, 60, []);
    var none: Gateway := _ => None;
    var b := new Billing.Billing(cfg);
    var r, sub, i := b.Subscribe("ada", "pro", 0, None);
    var paid := b.OnPaid(i, 0);
    assert b.db.subs[sub] == Subscription("ada", "pro", None, Active, 0, 100, false);
    ghost var before := b.db;
    var tick := b.TickAt(none, none, 100);
    TickedRow(cfg, before, b.db, none, none, 100, tick, sub);
    assert b.db.subs[sub] == Subscription("ada", "pro", None, Grace, 0, 100, false);
    r := b.Cancel(sub, 110);
    before := b.db;
    tick := b.TickAt(none, none, 120);
    TickedRow(cfg, before, b.db, none, none, 120, tick, sub);
    return b.db, sub;
  }

  lemma TickedRow(cfg: Config, a: Db, b: Db, gateway: Gateway, retry: Gateway, now: nat, tick: Tick, id: Id)
    requires TickDone(cfg, a, b, gateway, retry, now, tick) && id in a.subs
    ensures id in b.subs && b.subs[id] == Ticked(a.subs[id], GraceOf(cfg, a.subs[id]), Payable(a, id, now), now)
  {
    hide Billed, ClaimsOn, ExpireOf, Settled, Claimed, Payable, GraceOf, Ticked;
  }
}
