/**
 The two levels of the billing model meet: every update the public methods make
 is a statement of the statement model, and a payment is one `on_paid` call that
 nobody disturbs. So the tables the methods leave are tables of a run of
 statements, and whatever holds of every such run holds of them.
 */
module BillingLevels {
  import opened Basics
  import opened Decimals
  import opened BillingTypes
  import opened BillingState
  import opened BillingKeeps
  import opened BillingEffects
  import S = BillingSteps

  /** The tables are the same. */
  predicate SameTables(db: Db, s: S.State) {
    s.subs == db.subs && s.invs == db.invs && s.ledger == db.ledger && s.reminders == db.reminders
  }

  lemma OpenIsNotCredited(plans: Plans, db: Db, i: Id)
    requires Inv(plans, db) && i in db.invs && db.invs[i].status == Open
    ensures !HasCredit(db.ledger, i)
  {
    hide RowsOk;
  }

  /** Where the statement level starts the period is where the serial level does. */
  lemma OneStart(plans: Plans, db: Db, i: Id)
    requires Inv(plans, db) && i in db.invs && db.invs[i].status == Open && db.invs[i].sub in db.subs
    ensures var inv, s := db.invs[i], db.subs[db.invs[i].sub];
            && (s.status in {Active, Grace} ==> inv.number != 1 && inv.periodStart == s.periodEnd != 0)
            && s.status != Cancelled
  {
    hide BooksOk, KeyOf, PairOk;
    assert SubInv(plans, db, db.invs[i].sub) && Mine(db, i, db.invs[i].sub);
  }

  /** From the same tables, paying at once and paying statement by statement lead to the same tables. */
  lemma PaymentIsACall(plans: Plans, a: Db, b: Db, i: Id, now: nat, s: S.State, call: nat)
    requires Inv(plans, a) && i in a.invs && a.invs[i].status == Open && PaidStep(plans, a, b, i, now)
    requires SameTables(a, s) && call !in s.calls
    ensures var t := S.Run(plans, s, S.WholeCall(call, i, now));
            SameTables(b, t) && t.calls.Keys == s.calls.Keys + {call}
  {
    hide Inv, S.Run;
    OpenIsNotCredited(plans, a, i);
    OneStart(plans, a, i);
    S.RetryCompletes(plans, s, call, i, now);
  }

  // ----- The statements behind the tables -----

  ghost function StateAfter(plans: Plans, log: seq<S.Step>): S.State {
    S.Run(plans, S.EMPTY, log)
  }

  /**
   The statements, one after another from empty tables, lead to these tables; calls are
   numbered by where they begin.
   */
  ghost predicate Logged(plans: Plans, db: Db, log: seq<S.Step>) {
    SameTables(db, StateAfter(plans, log)) && forall c :: c in StateAfter(plans, log).calls ==> c < |log|
  }

  /** The tables are those of some run of statements. */
  ghost predicate Reached(plans: Plans, db: Db) {
    exists steps :: SameTables(db, S.Run(plans, S.EMPTY, steps))
  }

  lemma LoggedIsReached(plans: Plans, db: Db, log: seq<S.Step>)
    requires Logged(plans, db, log)
    ensures Reached(plans, db)
  {
    hide S.Run, SameTables;
    assert SameTables(db, S.Run(plans, S.EMPTY, log));
  }

  /** So they obey what every interleaving of statements keeps. */
  lemma ReachedKeepsInvariant(plans: Plans, db: Db)
    requires Reached(plans, db)
    ensures exists s :: SameTables(db, s) && S.Inv(plans, s) && S.PaidForACycle(plans, s)
  {
    hide S.Run, S.Inv, S.PaidForACycle, S.Next;
    var steps :| SameTables(db, S.Run(plans, S.EMPTY, steps));
    S.EveryRun(plans, steps);
    S.PaidForTheRightPeriod(plans, steps, 0);
  }

  lemma {:induction false} RunAppends(plans: Plans, s: S.State, a: seq<S.Step>, b: seq<S.Step>)
    ensures S.Run(plans, s, a + b) == S.Run(plans, S.Run(plans, s, a), b)
    decreases |a|
  {
    hide S.Next;
    if a == [] {
      assert a + b == b;
    } else {
      assert (a + b)[1..] == a[1..] + b;
      RunAppends(plans, S.Next(plans, s, a[0]), a[1..], b);
    }
  }

  lemma OneMore(plans: Plans, log: seq<S.Step>, step: S.Step)
    ensures StateAfter(plans, log + [step]) == S.Next(plans, StateAfter(plans, log), step)
  {
    hide S.Next;
    RunAppends(plans, S.EMPTY, log, [step]);
    var s := S.Run(plans, S.EMPTY, log);
    assert [step][1..] == [];
    assert S.Run(plans, s, [step]) == S.Run(plans, S.Next(plans, s, step), []);
  }

  lemma NothingLogged(plans: Plans)
    ensures Logged(plans, EMPTY, [])
  {}

  lemma LogClock(plans: Plans, db: Db, log: seq<S.Step>, now: nat)
    requires Logged(plans, db, log)
    ensures Logged(plans, db.(clock := now), log)
  {}

  /** One more statement that does to the tables what the method did, outside any call. */
  lemma LogOne(plans: Plans, a: Db, log: seq<S.Step>, step: S.Step, b: Db)
    requires Logged(plans, a, log)
    requires var t := S.Next(plans, StateAfter(plans, log), step);
             SameTables(b, t) && t.calls == StateAfter(plans, log).calls
    ensures Logged(plans, b, log + [step])
  {
    hide S.Next, StateAfter;
    OneMore(plans, log, step);
  }

  lemma LogCharge(plans: Plans, db: Db, log: seq<S.Step>, i: Id, charge: Id)
    requires Logged(plans, db, log) && i in db.invs && db.invs[i].status == Open && db.invs[i].charge == None
    ensures Logged(plans, PutInvoice(db, i, db.invs[i].(charge := Some(charge))), log + [S.StoreCharge(i, charge)])
  {
    hide StateAfter;
    LogOne(plans, db, log, S.StoreCharge(i, charge), PutInvoice(db, i, db.invs[i].(charge := Some(charge))));
  }

  lemma LogNoCharge(plans: Plans, db: Db, log: seq<S.Step>, i: Id)
    requires Logged(plans, db, log) && i in db.invs && db.invs[i].status == Open
    ensures Logged(plans, PutInvoice(db, i, db.invs[i].(charge := None)), log + [S.LoseCharge(i)])
  {
    hide StateAfter;
    LogOne(plans, db, log, S.LoseCharge(i), PutInvoice(db, i, db.invs[i].(charge := None)));
  }

  function InsertOf(i: Id, inv: Invoice): S.Step {
    S.InsertInvoice(i, inv.sub, inv.plan, inv.number, inv.periodStart, inv.periodEnd, inv.dueAt)
  }

  lemma LogInsert(plans: Plans, db: Db, log: seq<S.Step>, i: Id, inv: Invoice)
    requires Logged(plans, db, log) && !Refused(db.invs, i, inv.sub, inv.number, Decimal(inv.periodStart))
    requires inv.key == Decimal(inv.periodStart) && inv.status == Open && inv.charge == None
    ensures Logged(plans, PutInvoice(db, i, inv), log + [InsertOf(i, inv)])
  {
    hide StateAfter, Decimal;
    LogOne(plans, db, log, InsertOf(i, inv), PutInvoice(db, i, inv));
  }

  lemma LogClose(plans: Plans, db: Db, log: seq<S.Step>, i: Id, to: InvStatus)
    requires Logged(plans, db, log) && i in db.invs && db.invs[i].status == Open && to in {Void, Expired}
    ensures Logged(plans, PutInvoice(db, i, Closed(db.invs[i], i, to)), log + [S.CloseInvoice(i, to)])
  {
    hide StateAfter, ClosedKey;
    LogOne(plans, db, log, S.CloseInvoice(i, to), PutInvoice(db, i, Closed(db.invs[i], i, to)));
  }

  lemma LogExpire(plans: Plans, db: Db, log: seq<S.Step>, i: Id)
    requires Logged(plans, db, log) && i in db.invs && db.invs[i].status == Open
    ensures Logged(plans, Expire(db, i), log + [S.CloseInvoice(i, Expired)])
  {
    hide Logged, ClosedKey;
    LogClose(plans, db, log, i, Expired);
  }

  lemma LogEnrol(plans: Plans, db: Db, log: seq<S.Step>, id: Id, s: Subscription)
    requires Logged(plans, db, log) && id !in db.subs
    requires s == Subscription(s.customer, s.plan, None, Pending, 0, 0, false)
    ensures Logged(plans, PutSub(db, id, s), log + [S.InsertSubscription(id, s.customer, s.plan)])
  {
    hide StateAfter;
    LogOne(plans, db, log, S.InsertSubscription(id, s.customer, s.plan), PutSub(db, id, s));
  }

  /** The statement that makes one row of another, where there is one. */
  predicate IsUpdate(s: Subscription, t: Subscription, id: Id, step: S.Step) {
    match step
    case SetPlan(x, plan) => x == id && t == s.(plan := plan)
    case SetNextPlan(x, next) => x == id && t == s.(nextPlan := next)
    case CancelAtEnd(x) => x == id && t == s.(cancelAtEnd := true)
    case CancelNow(x) => x == id && t == s.(status := Cancelled, cancelAtEnd := true)
    case MoveStatus(x, from, into) =>
      && x == id && from == s.status && t == s.(status := into)
      && (from, into) in {(Active, Grace), (Active, Cancelled), (Grace, Suspended), (Grace, Cancelled),
                          (Pending, Cancelled)}
    case _ => false
  }

  lemma LogUpdate(plans: Plans, db: Db, log: seq<S.Step>, id: Id, t: Subscription, step: S.Step)
    requires Logged(plans, db, log) && id in db.subs && IsUpdate(db.subs[id], t, id, step)
    ensures Logged(plans, PutSub(db, id, t), log + [step])
  {
    hide StateAfter;
    LogOne(plans, db, log, step, PutSub(db, id, t));
  }

  lemma LogRemind(plans: Plans, db: Db, log: seq<S.Step>, i: Id, kind: string)
    requires Logged(plans, db, log) && (i, kind) !in db.reminders
    ensures Logged(plans, db.(reminders := db.reminders + {(i, kind)}), log + [S.Remind(i, kind, false)])
  {
    hide StateAfter;
    LogOne(plans, db, log, S.Remind(i, kind, false), db.(reminders := db.reminders + {(i, kind)}));
  }

  lemma LogPay(plans: Plans, a: Db, b: Db, log: seq<S.Step>, i: Id, now: nat)
    requires Logged(plans, a, log) && Inv(plans, a) && i in a.invs && a.invs[i].status == Open
    requires PaidStep(plans, a, b, i, now)
    ensures Logged(plans, b, log + S.WholeCall(|log|, i, now))
  {
    hide Inv, PaidStep, S.Run;
    var s := S.Run(plans, S.EMPTY, log);
    PaymentIsACall(plans, a, b, i, now, s, |log|);
    RunAppends(plans, S.EMPTY, log, S.WholeCall(|log|, i, now));
    assert |S.WholeCall(|log|, i, now)| == 6;
  }
}
