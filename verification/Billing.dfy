/**
 The public methods of the billing loop, run one after another: subscribe,
 change, cancel, renew, get paid, and the scheduled tick.
 */
module Billing {
  import opened Basics
  import opened Decimals
  import opened BillingTypes
  import opened BillingState
  import opened BillingKeeps
  import opened BillingTick
  import opened BillingEffects
  import opened BillingLevels
  import S = BillingSteps

  /** A brand-new id: longer than every id in use. */
  method FreshId(used: set<Id>) returns (id: Id)
    ensures id !in used
  {
    var longest: nat := 0;
    var todo := used;
    while todo != {}
      invariant todo <= used
      invariant forall x :: x in used && x !in todo ==> |x| <= longest
      decreases todo
    {
      var x :| x in todo;
      todo := todo - {x};
      if |x| > longest {
        longest := |x|;
      }
    }
    id := seq(longest + 1, _ => 'x');
  }

  class Billing {
    const cfg: Config
    var db: Db

    /** The statements that lead to the tables. */
    ghost var log: seq<S.Step>

    ghost predicate Valid()
      reads this
    {
      Inv(cfg.plans, db) && Logged(cfg.plans, db, log)
    }

    constructor (cfg: Config)
      requires ValidPlans(cfg.plans)
      ensures this.cfg == cfg && Valid() && db == EMPTY
    {
      this.cfg := cfg;
      db := EMPTY;
      log := [];
      NothingLogged(cfg.plans);
    }

    // ----- Internals -----

    /** One more than the highest number a subscription has used. */
    method NextNumber(id: Id) returns (n: nat)
      ensures n >= 1 && NumbersBelow(db, id, n)
      ensures n == 1 || exists i :: Mine(db, i, id) && db.invs[i].number == n - 1
    {
      n := 1;
      var todo := db.invs.Keys;
      while todo != {}
        invariant todo <= db.invs.Keys && n >= 1
        invariant forall i :: Mine(db, i, id) && i !in todo ==> db.invs[i].number < n
        invariant n == 1 || exists i :: Mine(db, i, id) && db.invs[i].number == n - 1
        decreases todo
      {
        var i :| i in todo;
        todo := todo - {i};
        if db.invs[i].sub == id && db.invs[i].number >= n {
          n := db.invs[i].number + 1;
          assert Mine(db, i, id);
        }
      }
    }

    /** Create the charge at the gateway, which may fail, and store it if nobody else has. */
    method AttachCharge(i: Id, charge: Option<Id>) returns (stored: bool)
      requires Valid()
      modifies this
      ensures Valid() && SameButCharges(old(db), db)
      ensures stored <==>
                && charge.Some? && i in old(db).invs && old(db).invs[i].status == Open && old(db).invs[i].charge == None
      ensures db == if stored then PutInvoice(old(db), i, old(db).invs[i].(charge := charge)) else old(db)
    {
      hide Logged, Inv;
      stored := false;
      if charge.Some? && i in db.invs && db.invs[i].status == Open && db.invs[i].charge == None {
        LogCharge(cfg.plans, db, log, i, charge.value);
        db := PutInvoice(db, i, db.invs[i].(charge := charge));
        log := log + [S.StoreCharge(i, charge.value)];
        stored := true;
      }
      ChargesKeepInv(cfg.plans, old(db), db);
    }

    /** Insert an open invoice for a subscription that has none; the unique indexes cannot refuse it. */
    method Insert(id: Id, plan: Id, start: nat, end: nat, due: nat) returns (i: Id)
      requires Valid() && id in db.subs && plan in cfg.plans && MayRaise(db.subs[id], start)
      requires forall j :: !IsOpen(db, j, id)
      modifies this
      ensures Valid() && Raised(old(db), db, id, i)
      ensures Terms(db.invs[i], plan, start, end, due) && db.invs[i].charge == None
    {
      hide Logged, Inv, SubInv;
      i := FreshId(db.invs.Keys);
      var number := NextNumber(id);
      ghost var a := db;
      InvSub(cfg.plans, db, id);
      NumberAfterFirst(cfg.plans, db, id, number);
      NotRefused(cfg.plans, db, id, i, number, start);
      var inv := Invoice(id, plan, number, start, end, Decimal(start), Open, None, due);
      LogInsert(cfg.plans, db, log, i, inv);
      db := PutInvoice(db, i, inv);
      log := log + [InsertOf(i, inv)];
      hide Refused, Decimal;
      RaiseKeeps(cfg.plans, a, db, id, i, inv);
      InvFromOne(cfg.plans, a, db, id);
    }

    /** Raise an open invoice and ask the gateway for its charge. */
    method Raise(id: Id, plan: Id, start: nat, end: nat, due: nat, charge: Option<Id>) returns (i: Id)
      requires Valid() && id in db.subs && plan in cfg.plans && MayRaise(db.subs[id], start)
      requires forall j :: !IsOpen(db, j, id)
      modifies this
      ensures Valid() && Raised(old(db), db, id, i)
      ensures Terms(db.invs[i], plan, start, end, due) && db.invs[i].charge == charge
    {
      hide Logged, Inv;
      i := Insert(id, plan, start, end, due);
      var stored := AttachCharge(i, charge);
    }

    /** Raise the renewal for the period after the current one, unless it is already there. */
    method RaiseRenewal(id: Id, charge: Option<Id>) returns (o: Option<Id>)
      requires Valid() && id in db.subs && db.subs[id].status in {Active, Grace, Suspended} && !db.subs[id].cancelAtEnd
      requires db.subs[id].status == Suspended ==> forall j :: !IsOpen(db, j, id)
      modifies this
      ensures Valid() && Step(old(db), db, id) && HasRenewal(db, id)
      ensures o.Some? <==> forall j :: !IsOpen(old(db), j, id)
      ensures o.None? ==> db == old(db)
      ensures o.Some? ==>
                && Raised(old(db), db, id, o.value) && db.invs[o.value].charge == charge
                && RenewalTerms(cfg, db.invs[o.value], db.subs[id], NextPlanOf(db.subs[id]))
    {
      hide Logged, Inv, SubInv;
      var s := db.subs[id];
      var plan := NextPlanOf(s);
      InvSub(cfg.plans, db, id);
      RenewalIsTheOpenOne(cfg.plans, db, id);
      var already := exists i :: i in db.invs && db.invs[i].sub == id && db.invs[i].periodStart == s.periodEnd
                                 && (db.invs[i].status == Open || db.invs[i].status == Paid);
      if already {
        return None;
      }
      var start := s.periodEnd;
      var i := Raise(id, plan, start, start + cfg.plans[plan].cycle, start, charge);
      RaisedKeeps(old(db), db, id, i);
      return Some(i);
    }

    /** Void every open invoice of a subscription; returns how many. */
    method VoidOpenInvoices(id: Id) returns (voided: nat)
      requires Valid() && id in db.subs
      modifies this
      ensures Valid() && db == VoidOpen(old(db), id) && Step(old(db), db, id) && Voided(old(db), db, id)
      ensures forall j :: !IsOpen(db, j, id)
      ensures voided > 0 <==> exists j :: IsOpen(old(db), j, id)
    {
      hide Logged, Inv, ClosedKey;
      var todo := set i | i in db.invs && IsOpen(db, i, id);
      ghost var all := todo;
      voided := 0;
      while todo != {}
        invariant todo <= all && (voided > 0 <==> todo != all) && db == old(db).(invs := db.invs)
        invariant Logged(cfg.plans, db, log)
        invariant db.invs.Keys == old(db).invs.Keys
        invariant forall i :: i in db.invs ==>
                    db.invs[i] == if i in all && i !in todo then Closed(old(db).invs[i], i, Void) else old(db).invs[i]
        decreases todo
      {
        var i :| i in todo;
        todo := todo - {i};
        if db.invs[i].status == Open {
          LogClose(cfg.plans, db, log, i, Void);
          db := PutInvoice(db, i, Closed(db.invs[i], i, Void));
          log := log + [S.CloseInvoice(i, Void)];
          voided := voided + 1;
        }
      }
      assert db.invs == VoidOpen(old(db), id).invs;
      VoidOpenVoids(old(db), id);
      VoidKeeps(cfg.plans, old(db), id);
    }

    /** Subscribe: one live subscription per customer, and nothing is served until the first invoice is paid. */
    method Subscribe(customer: Id, plan: Id, now: nat, charge: Option<Id>) returns (r: Result, id: Id, i: Id)
      requires Valid() && db.clock <= now
      modifies this
      ensures Valid() && Kept(old(db), db) && db.clock <= now
      ensures Subscribed(cfg, old(db), db, customer, plan, now, r, id, i)
    {
      hide Logged, Inv, Kept, OnlySub;
      StayPut(db);
      id, i := "", "";
      if plan !in cfg.plans
         || exists x :: x in db.subs && db.subs[x].customer == customer && db.subs[x].status != Cancelled {
        return Refusal, id, i;
      }
      id := FreshId(db.subs.Keys);
      ClockMoves(cfg.plans, db, now);
      ClockStep(db, now, id);
      LogClock(cfg.plans, db, log, now);
      db := db.(clock := now);
      ghost var a := db;
      i := Enrol(id, Subscription(customer, plan, None, Pending, 0, 0, false), now + cfg.firstTtl);
      StepsCompose(old(db), a, db, id);
      ghost var b := db;
      var stored := AttachCharge(i, charge);
      ChargeStep(b, db, id, i);
      StepsCompose(old(db), b, db, id);
      r := Ok;
    }

    /** Insert a new subscription and its first invoice. */
    method Enrol(id: Id, s: Subscription, due: nat) returns (i: Id)
      requires Valid() && id !in db.subs && s.plan in cfg.plans && CustomerIsFree(db, s.customer)
      requires s == Subscription(s.customer, s.plan, None, Pending, 0, 0, false)
      modifies this
      ensures Valid() && Step(old(db), db, id) && db.subs == old(db).subs[id := s] && IsOpen(db, i, id)
      ensures i !in old(db).invs && db.invs.Keys == old(db).invs.Keys + {i}
      ensures db.invs[i].number == 1 && Terms(db.invs[i], s.plan, 0, 0, due)
      ensures db.reminders == old(db).reminders && db.clock == old(db).clock
    {
      hide Logged, Inv, Kept, OnlySub, CustomerIsFree;
      i := FreshId(db.invs.Keys);
      var inv := Invoice(id, s.plan, 1, 0, 0, Decimal(0), Open, None, due);
      LogEnrol(cfg.plans, db, log, id, s);
      FirstNotRefused(cfg.plans, db, id, i);
      LogInsert(cfg.plans, PutSub(db, id, s), log + [S.InsertSubscription(id, s.customer, s.plan)], i, inv);
      db := PutInvoice(PutSub(db, id, s), i, inv);
      log := log + [S.InsertSubscription(id, s.customer, s.plan)] + [InsertOf(i, inv)];
      hide Decimal, Refused;
      FirstInvoice(cfg.plans, old(db), db, id, i);
    }

    /** Take effect at the next cycle; before the first payment, at once. */
    method ChangePlan(id: Id, plan: Id, now: nat, charge: Option<Id>) returns (r: Result)
      requires Valid() && db.clock <= now
      modifies this
      ensures Valid() && Kept(old(db), db) && db.clock <= now
      ensures PlanChanged(cfg, old(db), db, id, plan, now, r)
    {
      hide Logged, Inv, SubInv, ClosedKey, Kept, OnlySub, StatusOk;
      StayPut(db);
      if plan !in cfg.plans || id !in db.subs || db.subs[id].status == Cancelled {
        return Refusal;
      }
      ClockMoves(cfg.plans, db, now);
      ClockStep(db, now, id);
      LogClock(cfg.plans, db, log, now);
      db := db.(clock := now);
      ghost var a := db;
      SameOpen(old(db), a, id);
      if db.subs[id].status == Pending {
        ChangePending(id, plan, now, charge);
      } else {
        ChangePaid(id, plan, charge);
      }
      StepsCompose(old(db), a, db, id);
      r := Ok;
    }

    /** Nothing has been paid: the plan itself changes, and the first invoice is raised again. */
    method ChangePending(id: Id, plan: Id, now: nat, charge: Option<Id>)
      requires Valid() && id in db.subs && plan in cfg.plans && db.subs[id].status == Pending
      modifies this
      ensures Valid() && Step(old(db), db, id) && db.clock == old(db).clock && db.reminders == old(db).reminders
      ensures db.subs == old(db).subs[id := old(db).subs[id].(plan := plan)] && Voided(old(db), db, id)
      ensures exists i :: IsOpen(db, i, id)
      ensures forall i :: IsOpen(db, i, id) ==> i !in old(db).invs && Terms(db.invs[i], plan, 0, 0, now + cfg.firstTtl)
    {
      hide Logged, Inv, SubInv, ClosedKey, Kept, OnlySub;
      InvSub(cfg.plans, db, id);
      StatusOf(cfg.plans, db, id);
      var voided := VoidOpenInvoices(id);
      ghost var a := db;
      var s := db.subs[id].(plan := plan);
      SubUpdate(cfg.plans, db, id, s);
      LogUpdate(cfg.plans, db, log, id, s, S.SetPlan(id, plan));
      db := PutSub(db, id, s);
      log := log + [S.SetPlan(id, plan)];
      StepsCompose(old(db), a, db, id);
      ghost var b := db;
      SameOpen(a, b, id);
      var i := Raise(id, plan, 0, 0, now + cfg.firstTtl, charge);
      RaisedKeeps(b, db, id, i);
      RaisedIsTheOpenOne(b, db, id, i);
      StepsCompose(old(db), b, db, id);
    }

    /**
     Something has been paid: the plan changes with the next period, whose invoice is raised
     again if it was there.
     */
    method ChangePaid(id: Id, plan: Id, charge: Option<Id>)
      requires Valid() && id in db.subs && plan in cfg.plans && db.subs[id].status in {Active, Grace, Suspended}
      modifies this
      ensures Valid() && Step(old(db), db, id) && db.clock == old(db).clock && db.reminders == old(db).reminders
      ensures db.subs == old(db).subs[id :=
              old(db).subs[id].(nextPlan := if plan == old(db).subs[id].plan then None else Some(plan))]
              && Voided(old(db), db, id)
      ensures (exists i :: IsOpen(old(db), i, id)) <==> (exists i :: IsOpen(db, i, id))
      ensures forall i :: IsOpen(db, i, id) ==>
              i !in old(db).invs && RenewalTerms(cfg, db.invs[i], old(db).subs[id], plan)
    {
      hide Logged, Inv, SubInv, ClosedKey, Kept, OnlySub;
      InvSub(cfg.plans, db, id);
      OpenMeansNoEnd(cfg.plans, db, id);
      var s := db.subs[id].(nextPlan := if plan == db.subs[id].plan then None else Some(plan));
      OpenOkIgnoresPlan(cfg.plans, db, id, s);
      SubUpdate(cfg.plans, db, id, s);
      LogUpdate(cfg.plans, db, log, id, s, S.SetNextPlan(id, s.nextPlan));
      db := PutSub(db, id, s);
      log := log + [S.SetNextPlan(id, s.nextPlan)];
      ghost var a := db;
      SameOpen(old(db), a, id);
      var voided := VoidOpenInvoices(id);
      StepsCompose(old(db), a, db, id);
      ghost var b := db;
      assert Voided(old(db), b, id);
      if voided > 0 {
        var o := RaiseRenewal(id, charge);
        RaisedIsTheOpenOne(b, db, id, o.value);
        StepsCompose(old(db), b, db, id);
      }
    }

    /** Stop at the end of the paid period; with nothing paid, at once. */
    method Cancel(id: Id, now: nat) returns (r: Result)
      requires Valid() && db.clock <= now
      modifies this
      ensures Valid() && Kept(old(db), db) && db.clock <= now
      ensures EndAsked(old(db), db, id, now, r)
    {
      hide Logged, Inv, SubInv, ClosedKey, Kept, OnlySub;
      StayPut(db);
      if id !in db.subs {
        return Refusal;
      }
      var s := db.subs[id];
      var t := if s.status == Active || s.status == Grace then s.(cancelAtEnd := true)
               else s.(status := Cancelled, cancelAtEnd := true);
      InvSub(cfg.plans, db, id);
      StatusOf(cfg.plans, db, id);
      Stop(id, t, now);
      r := Ok;
    }

    /** Stop now. */
    method CancelNow(id: Id, now: nat) returns (r: Result)
      requires Valid() && db.clock <= now
      modifies this
      ensures Valid() && Kept(old(db), db) && db.clock <= now
      ensures EndedNow(old(db), db, id, now, r)
    {
      hide Logged, Inv, SubInv, ClosedKey, Kept, OnlySub;
      StayPut(db);
      if id !in db.subs {
        return Refusal;
      }
      InvSub(cfg.plans, db, id);
      StatusOf(cfg.plans, db, id);
      Stop(id, db.subs[id].(status := Cancelled, cancelAtEnd := true), now);
      r := Ok;
    }

    /** Void what is open, then mark the row. */
    method Stop(id: Id, t: Subscription, now: nat)
      requires Valid() && db.clock <= now && id in db.subs && StatusOk(cfg.plans, t, db.clock)
      requires t == db.subs[id].(status := t.status, cancelAtEnd := true)
      requires t.status == Cancelled || (t.status == db.subs[id].status && t.status.IsServed())
      modifies this
      ensures Valid() && Step(old(db), db, id) && db.clock == now && db.reminders == old(db).reminders
      ensures db.subs == old(db).subs[id := t] && Voided(old(db), db, id) && forall j :: !IsOpen(db, j, id)
    {
      hide Logged, Inv, ClosedKey, Kept, OnlySub;
      ClockMoves(cfg.plans, db, now);
      ClockStep(db, now, id);
      LogClock(cfg.plans, db, log, now);
      db := db.(clock := now);
      ghost var a := db;
      SameOpen(old(db), a, id);
      var voided := VoidOpenInvoices(id);
      StepsCompose(old(db), a, db, id);
      ghost var b := db;
      SubUpdate(cfg.plans, db, id, t);
      ghost var step := if t.status == Cancelled then S.CancelNow(id) else S.CancelAtEnd(id);
      LogUpdate(cfg.plans, db, log, id, t, step);
      db := PutSub(db, id, t);
      log := log + [step];
      StepsCompose(old(db), b, db, id);
      SameOpen(b, db, id);
    }

    /** Bring a suspended subscription back: the invoice whose payment reactivates it. */
    method Renew(id: Id, now: nat, charge: Option<Id>) returns (r: Result)
      requires Valid() && db.clock <= now
      modifies this
      ensures Valid() && Kept(old(db), db) && db.clock <= now
      ensures Renewed(cfg, old(db), db, id, now, r)
    {
      hide Logged, Inv, SubInv, Kept, OnlySub;
      StayPut(db);
      if id !in db.subs || db.subs[id].status != Suspended {
        return Refusal;
      }
      ClockMoves(cfg.plans, db, now);
      ClockStep(db, now, id);
      LogClock(cfg.plans, db, log, now);
      db := db.(clock := now);
      ghost var a := db;
      SameOpen(old(db), a, id);
      var open := OpenInvoice(id);
      if open.Some? {
        assert IsOpen(a, open.value, id) && IsOpen(old(db), open.value, id);
        return Ok;
      }
      InvSub(cfg.plans, db, id);
      StatusOf(cfg.plans, db, id);
      var i := Raise(id, NextPlanOf(db.subs[id]), 0, 0, now + cfg.firstTtl, charge);
      RaisedKeeps(a, db, id, i);
      RaisedIsTheOpenOne(a, db, id, i);
      StepsCompose(old(db), a, db, id);
      r := Ok;
    }

    /** Offer the same invoice through another channel: the old charge gives way to a new one. */
    method Reissue(i: Id, now: nat, charge: Option<Id>) returns (r: Result)
      requires Valid() && db.clock <= now
      modifies this
      ensures Valid() && Kept(old(db), db) && db.clock <= now
      ensures Reissued(old(db), db, i, now, charge, r)
    {
      hide Logged, Inv, Kept;
      StayPut(db);
      if i !in db.invs || db.invs[i].status != Open {
        return Refusal;
      }
      ClockMoves(cfg.plans, db, now);
      LogClock(cfg.plans, db, log, now);
      db := db.(clock := now);
      ghost var a := db;
      LogNoCharge(cfg.plans, db, log, i);
      db := PutInvoice(db, i, db.invs[i].(charge := None));
      log := log + [S.LoseCharge(i)];
      ChargesKeepInv(cfg.plans, a, db);
      var stored := AttachCharge(i, charge);
      ChargesKeepInv(cfg.plans, a, db);
      KeptIsTransitive(old(db), a, db);
      r := Ok;
    }

    /** An invoice was paid: credit the plan's allowance and extend the subscription by one cycle. */
    method OnPaid(i: Id, now: nat) returns (r: Payment)
      requires Valid() && db.clock <= now
      modifies this
      ensures Valid() && Kept(old(db), db) && db.clock <= now
      ensures Settles(cfg, old(db), db, i, now, r)
    {
      hide Logged, Inv, SubInv, ClosedKey, Kept;
      StayPut(db);
      if i !in db.invs {
        return NoInvoice;
      }
      var inv := db.invs[i];
      match inv.status
      case Paid => r := Already;
      case Void => r := Unexpected;
      case Expired => r := Unexpected;
      case Open =>
        InvoiceHasSub(cfg.plans, db, i);
        ClockMoves(cfg.plans, db, now);
        var s := db.subs[inv.sub];
        ghost var a := db.(clock := now);
        InvSub(cfg.plans, a, inv.sub);
        PaidPeriodIsLater(cfg.plans, a, i, now);
        var start := PeriodStart(inv, s, now);
        var end := start + cfg.plans[inv.plan].cycle;
        var credited := db.(clock := now, ledger := Topped(cfg.plans, db, i));
        db := PutSub(PutInvoice(credited, i, PaidInvoice(inv, i, start, end)), inv.sub,
            ExtendedSub(s, inv, start, end));
        ToppedIsNew(cfg.plans, old(db), i);
        assert Topped(cfg.plans, a, i) == Topped(cfg.plans, old(db), i);
        ClosedKeys(i);
        hide PeriodStart, Topped;
        PayKeepsInv(cfg.plans, a, db, i, start, end);
        KeptIsTransitive(old(db), a, db);
        LogPay(cfg.plans, old(db), db, log, i, now);
        log := log + S.WholeCall(|log|, i, now);
        r := Extended;
    }

    /** The gateway lost the charge: a first invoice closes the subscription, another keeps waiting. */
    method OnChargeLost(i: Id, now: nat)
      requires Valid() && db.clock <= now
      modifies this
      ensures Valid() && Kept(old(db), db) && db.clock <= now
      ensures ChargeLost(old(db), db, i, now)
    {
      hide Logged, Inv, SubInv, ClosedKey, Kept, OnlySub;
      ClosedKeys(i);
      StayPut(db);
      if i !in db.invs || db.invs[i].status != Open {
        return;
      }
      InvoiceHasSub(cfg.plans, db, i);
      ClockMoves(cfg.plans, db, now);
      LogClock(cfg.plans, db, log, now);
      db := db.(clock := now);
      ghost var a := db;
      var id := db.invs[i].sub;
      if db.subs[id].status == Pending {
        ExpireKeeps(cfg.plans, db, i);
        LogExpire(cfg.plans, db, log, i);
        db := Expire(db, i);
        log := log + [S.CloseInvoice(i, Expired)];
        InvSub(cfg.plans, db, id);
        StatusOf(cfg.plans, db, id);
        var t := db.subs[id].(status := Cancelled);
        SubUpdate(cfg.plans, db, id, t);
        ghost var b := db;
        LogUpdate(cfg.plans, db, log, id, t, S.MoveStatus(id, Pending, Cancelled));
        db := PutSub(db, id, t);
        log := log + [S.MoveStatus(id, Pending, Cancelled)];
        StepsCompose(a, b, db, id);
      } else {
        LogNoCharge(cfg.plans, db, log, i);
        db := PutInvoice(db, i, db.invs[i].(charge := None));
        log := log + [S.LoseCharge(i)];
        ChargesKeepInv(cfg.plans, a, db);
      }
      KeptIsTransitive(old(db), a, db);
    }

    // ----- The schedule -----

    /** The open invoice of a subscription, if it has one. */
    method OpenInvoice(id: Id) returns (o: Option<Id>)
      requires Valid() && id in db.subs
      ensures forall j :: IsOpen(db, j, id) <==> o == Some(j)
    {
      hide Logged, Inv, SubInv;
      if exists i :: i in db.invs && IsOpen(db, i, id) {
        var i :| i in db.invs && IsOpen(db, i, id);
        InvSub(cfg.plans, db, id);
        OnlyOneOpen(cfg.plans, db, i);
        return Some(i);
      }
      o := None;
    }

    /** Emit a reminder if nobody has; the row in the reminders table is the claim. */
    method Remind(i: Id, kind: string, out: seq<Reminder>, ghost start: set<(Id, string)>) returns (r: seq<Reminder>)
      requires Valid() && Claimed(start, db.reminders, out)
      modifies this
      ensures Valid() && db == old(db).(reminders := old(db).reminders + {(i, kind)})
      ensures Claimed(start, db.reminders, r) && ((i, kind) in old(db).reminders ==> r == out)
    {
      hide Logged, Inv;
      if (i, kind) in db.reminders {
        assert db.reminders + {(i, kind)} == db.reminders;
        return out;
      }
      ClaimOne(start, db.reminders, out, i, kind);
      SameRowsKeepInv(cfg.plans, db, db.(reminders := db.reminders + {(i, kind)}));
      LogRemind(cfg.plans, db, log, i, kind);
      db := db.(reminders := db.reminders + {(i, kind)});
      log := log + [S.Remind(i, kind, false)];
      r := out + [Reminder(i, kind)];
    }

    /** The renewal of one subscription that is due for one. */
    method RaiseNext(id: Id, gateway: Gateway, now: nat, ghost start: Db, ghost todo: set<Id>, ghost before: nat)
      returns (raised: nat)
      requires Valid() && id in todo && RaisedSoFar(cfg, start, db, now, gateway, todo, before)
      modifies this
      ensures Valid() && RaisedSoFar(cfg, start, db, now, gateway, todo - {id}, before + raised)
    {
      hide Logged, Inv, SubInv, Kept, OnlySub, Quiet, AllQuiet, Progress, SamePayable, HasRenewal, Renewing;
      if AllQuiet(cfg, db, now, 1) {
        QuietMeansRenewed(cfg, db, id, now);
      }
      RenewingView(cfg, start, db, now, gateway, todo, id);
      var o := RaiseRenewal(id, gateway(id));
      RenewedIsQuiet(cfg, db, id, now);
      ProgressStep(cfg, old(db), db, id, now, 1, todo);
      PayableStep(old(db), db, id, now);
      SamePayableTransitive(start, old(db), db, now);
      KeptIsTransitive(start, old(db), db);
      if o.Some? {
        RenewingOne(cfg, start, old(db), db, now, gateway, todo, id, o.value);
        raised := 1;
      } else {
        RenewingNone(cfg, start, db, now, gateway, todo, id);
        raised := 0;
      }
    }

    /** First phase: renewals for periods about to end. */
    method RaiseRenewals(gateway: Gateway, now: nat) returns (raised: nat)
      requires Valid() && db.clock == now
      modifies this
      ensures Valid() && Kept(old(db), db) && db == old(db).(invs := db.invs)
      ensures Renewing(cfg, old(db), db, now, gateway, {}) && |db.invs| == |old(db).invs| + raised
      ensures AllQuiet(cfg, db, now, 1) && SamePayable(old(db), db, now)
      ensures AllQuiet(cfg, old(db), now, 1) ==> db == old(db) && raised == 0
    {
      hide Logged, Inv, Kept, AllQuiet, Progress, SamePayable, Renewing;
      StayPut(db);
      SamePayableSelf(db, now);
      NothingYet(cfg, db, now);
      ProgressStarts(cfg, db, now, 1);
      RenewingStarts(cfg, db, now, gateway);
      raised := 0;
      var todo := SelectedIds(cfg, db, now, 1);
      while todo != {}
        invariant Valid() && RaisedSoFar(cfg, old(db), db, now, gateway, todo, raised)
        decreases todo
      {
        var id :| id in todo;
        var more := RaiseNext(id, gateway, now, old(db), todo, raised);
        raised := raised + more;
        todo := todo - {id};
      }
      ProgressEnds(cfg, db, now, 1);
    }

    /** Second phase: open invoices with no charge. */
    method CreateCharges(gateway: Gateway) returns (created: nat)
      requires Valid()
      modifies this
      ensures Valid() && SameButCharges(old(db), db)
      ensures forall i :: i in db.invs ==> db.invs[i] == Charged(old(db).invs[i], gateway(i))
      ensures created == |Chargeable(old(db), gateway)|
    {
      hide Logged, Inv, Charging, SameButCharges;
      created := 0;
      var todo := set i | i in db.invs && db.invs[i].status == Open && db.invs[i].charge == None;
      NothingCharged(db, gateway, todo);
      while todo != {}
        invariant Valid() && Charging(old(db), db, gateway, todo, created)
        decreases todo
      {
        var i :| i in todo;
        ghost var a := db;
        StillToCharge(old(db), a, gateway, todo, created, i);
        var stored := AttachCharge(i, gateway(i));
        ChargeOne(old(db), a, db, gateway, todo, created, i);
        todo := todo - {i};
        if stored {
          created := created + 1;
        }
      }
      AllCharged(old(db), db, gateway, created);
    }

    /** A period ended: grace, or the end the customer asked for. */
    method EndPeriod(id: Id, now: nat, out: seq<Reminder>, ghost start: set<(Id, string)>) returns (r: seq<Reminder>)
      requires Valid() && id in db.subs && db.subs[id].status == Active && db.subs[id].periodEnd <= now == db.clock
      requires Claimed(start, db.reminders, out)
      modifies this
      ensures Valid() && Step(old(db), db, id) && Claimed(start, db.reminders, r)
      ensures db.subs == old(db).subs[id := PeriodEnded(old(db).subs[id], now)] && db.invs == old(db).invs
              && db.clock == now
      ensures db.reminders == old(db).reminders + OpenClaims(db.invs, id, OVERDUE)
    {
      hide Logged, Inv, SubInv, Kept, OnlySub, Claimed, OpenClaims;
      r := out;
      var s := db.subs[id];
      InvSub(cfg.plans, db, id);
      OpenAfterPeriod(cfg.plans, db, id);
      SubUpdate(cfg.plans, db, id, PeriodEnded(s, now));
      ghost var step := S.MoveStatus(id, Active, PeriodEnded(s, now).status);
      LogUpdate(cfg.plans, db, log, id, PeriodEnded(s, now), step);
      db := PutSub(db, id, PeriodEnded(s, now));
      log := log + [step];
      ghost var a := db;
      if s.cancelAtEnd {
        assert forall i :: IsOpen(a, i, id) ==> IsOpen(old(db), i, id);
        OpenClaimsAre(a, id, OVERDUE, None);
      } else {
        var open := OpenInvoice(id);
        OpenClaimsAre(a, id, OVERDUE, open);
        if open.Some? {
          r := Remind(open.value, OVERDUE, out, start);
          ReminderStep(a, db, id);
          StepsCompose(old(db), a, db, id);
        }
      }
    }

    /** Third phase: periods that ended. */
    method EndPeriods(now: nat, out: seq<Reminder>, ghost start: set<(Id, string)>)
      returns (toGrace: nat, cancelled: nat, r: seq<Reminder>)
      requires Valid() && db.clock == now && AllQuiet(cfg, db, now, 1) && Claimed(start, db.reminders, out)
      modifies this
      ensures Valid() && Kept(old(db), db) && AllQuiet(cfg, db, now, 3) && SamePayable(old(db), db, now)
      ensures PeriodsEnded(cfg, old(db), db, now, {}) && Claimed(start, db.reminders, r)
      ensures Count(db, Cancelled) == Count(old(db), Cancelled) + cancelled
      ensures toGrace == |Lapsing(old(db), now)| && Count(db, Suspended) == Count(old(db), Suspended)
      ensures AllQuiet(cfg, old(db), now, 3) ==> db == old(db) && toGrace == 0 && cancelled == 0 && r == out
    {
      hide Logged, Inv, SubInv, Kept, OnlySub, Quiet, AllQuiet, Progress, SamePayable, Claimed, Count, PeriodsEnded;
      StayPut(db);
      SamePayableSelf(db, now);
      ProgressStarts(cfg, db, now, 3);
      PeriodsStart(cfg, db, now);
      ghost var all := SelectedIds(cfg, db, now, 3);
      toGrace, cancelled, r := 0, 0, out;
      var todo := SelectedIds(cfg, db, now, 3);
      while todo != {}
        invariant Valid() && Kept(old(db), db) && todo <= all && PeriodsEnded(cfg, old(db), db, now, todo)
        invariant Progress(cfg, db, now, 3, todo) && SamePayable(old(db), db, now) && Claimed(start, db.reminders, r)
        invariant Count(db, Cancelled) == Count(old(db), Cancelled) + cancelled
        invariant Count(db, Grace) == Count(old(db), Grace) + toGrace
        invariant Count(db, Suspended) == Count(old(db), Suspended)
        invariant todo == all ==> db == old(db) && toGrace == 0 && cancelled == 0 && r == out
        decreases todo
      {
        var id :| id in todo;
        ghost var a := db;
        PeriodIsNext(cfg, old(db), a, now, todo, id);
        ghost var to := PeriodEnded(a.subs[id], now).status;
        r := EndPeriod(id, now, r, start);
        PeriodEndsNext(cfg, old(db), a, db, now, todo, id);
        EndedIsQuiet(cfg, db, id, now, 3);
        ProgressStep(cfg, a, db, id, now, 3, todo);
        PayableStep(a, db, id, now);
        SamePayableTransitive(old(db), a, db, now);
        KeptIsTransitive(old(db), a, db);
        MoveCounts(a, db, id, to, Cancelled);
        MoveCounts(a, db, id, to, Grace);
        MoveCounts(a, db, id, to, Suspended);
        todo := todo - {id};
        if db.subs[id].status == Cancelled {
          cancelled := cancelled + 1;
        } else {
          toGrace := toGrace + 1;
        }
      }
      LapsingIsCounted(cfg, old(db), db, now);
      ProgressEnds(cfg, db, now, 3);
      if AllQuiet(cfg, old(db), now, 3) {
        QuietMeansNothingEnds(cfg, old(db), now);
      }
    }

    /** Grace that may have run out: suspension, or the end the customer asked for. */
    method EndGrace(id: Id, now: nat, out: seq<Reminder>, ghost start: set<(Id, string)>)
        returns (moved: bool, r: seq<Reminder>)
      requires Valid() && id in db.subs && db.subs[id].status == Grace && now == db.clock
               && Claimed(start, db.reminders, out)
      modifies this
      ensures Valid() && Step(old(db), db, id) && Claimed(start, db.reminders, r)
      ensures db.subs == old(db).subs[id := GraceEnded(old(db).subs[id], GraceOf(cfg, old(db).subs[id]), now)]
              && db.clock == now
      ensures moved <==> db.subs[id].status != Grace
      ensures !moved ==> db == old(db) && r == out
      ensures moved ==> db.invs == ExpireOf(old(db).invs, {id}) && forall i :: !IsOpen(db, i, id)
      ensures moved ==> db.reminders == old(db).reminders + OpenClaims(old(db).invs, id, SUSPENDED)
    {
      hide Logged, Inv, SubInv, Kept, OnlySub, Claimed, OpenClaims, ClosedKey, ExpireOf;
      r := out;
      var s := db.subs[id];
      InvSub(cfg.plans, db, id);
      StatusOf(cfg.plans, db, id);
      if now < s.periodEnd + cfg.plans[s.plan].grace {
        StayStep(db, id);
        return false, out;
      }
      moved := true;
      OpenAfterGrace(cfg.plans, db, id);
      var t := s.(status := if s.cancelAtEnd then Cancelled else Suspended);
      SubUpdate(cfg.plans, db, id, t);
      LogUpdate(cfg.plans, db, log, id, t, S.MoveStatus(id, Grace, t.status));
      db := PutSub(db, id, t);
      log := log + [S.MoveStatus(id, Grace, t.status)];
      ghost var a := db;
      var open := OpenInvoice(id);
      SameOpen(old(db), a, id);
      OpenClaimsAre(old(db), id, SUSPENDED, open);
      ExpireIsExpireOf(old(db), a, id, open);
      if open.Some? {
        ExpireKeeps(cfg.plans, db, open.value);
        LogExpire(cfg.plans, db, log, open.value);
        db := Expire(db, open.value);
        log := log + [S.CloseInvoice(open.value, Expired)];
        StepsCompose(old(db), a, db, id);
        ghost var b := db;
        if !s.cancelAtEnd {
          r := Remind(open.value, SUSPENDED, out, start);
          ReminderStep(b, db, id);
          StepsCompose(old(db), b, db, id);
          assert forall i :: IsOpen(db, i, id) ==> IsOpen(b, i, id);
        }
      }
    }

    /** Fourth phase: grace that ran out. */
    method EndGraces(now: nat, out: seq<Reminder>, ghost start: set<(Id, string)>)
      returns (suspended: nat, cancelled: nat, r: seq<Reminder>)
      requires Valid() && db.clock == now && AllQuiet(cfg, db, now, 3) && Claimed(start, db.reminders, out)
      modifies this
      ensures Valid() && Kept(old(db), db) && AllQuiet(cfg, db, now, 4) && SamePayable(old(db), db, now)
      ensures GracesEnded(cfg, old(db), db, now, {}) && Claimed(start, db.reminders, r)
      ensures Count(db, Cancelled) == Count(old(db), Cancelled) + cancelled
      ensures Count(db, Suspended) == Count(old(db), Suspended) + suspended
      ensures AllQuiet(cfg, old(db), now, 4) ==> db == old(db) && suspended == 0 && cancelled == 0 && r == out
    {
      hide Logged, Inv, SubInv, Kept, OnlySub, Quiet, AllQuiet, Progress, SamePayable, Claimed, Count, ExpireOf,
          GracesEnded;
      StayPut(db);
      SamePayableSelf(db, now);
      ProgressStarts(cfg, db, now, 4);
      GracesStart(cfg, db, now);
      ghost var all := SelectedIds(cfg, db, now, 4);
      suspended, cancelled, r := 0, 0, out;
      var todo := SelectedIds(cfg, db, now, 4);
      while todo != {}
        invariant Valid() && Kept(old(db), db) && todo <= all && GracesEnded(cfg, old(db), db, now, todo)
        invariant Progress(cfg, db, now, 4, todo) && SamePayable(old(db), db, now) && Claimed(start, db.reminders, r)
        invariant Count(db, Cancelled) == Count(old(db), Cancelled) + cancelled
        invariant Count(db, Suspended) == Count(old(db), Suspended) + suspended
        invariant AllQuiet(cfg, old(db), now, 4) ==> db == old(db) && suspended == 0 && cancelled == 0 && r == out
        decreases todo
      {
        var id :| id in todo;
        ghost var a := db;
        if AllQuiet(cfg, a, now, 4) {
          GraceIsNext(cfg, old(db), a, now, todo, id);
          QuietInGrace(cfg, a, id, now);
        }
        GraceIsNext(cfg, old(db), a, now, todo, id);
        ProgressAt(cfg, a, id, now, 4, todo);
        var moved;
        moved, r := EndGrace(id, now, r, start);
        if moved {
          GraceEndsNext(cfg, old(db), a, db, now, todo, id);
          EndedIsQuiet(cfg, db, id, now, 4);
          MoveCounts(a, db, id, db.subs[id].status, Cancelled);
          MoveCounts(a, db, id, db.subs[id].status, Suspended);
        } else {
          GraceGoesOn(cfg, old(db), a, now, todo, id);
          StillInGrace(cfg, db, id, now);
        }
        ProgressStep(cfg, a, db, id, now, 4, todo);
        PayableStep(a, db, id, now);
        SamePayableTransitive(old(db), a, db, now);
        KeptIsTransitive(old(db), a, db);
        todo := todo - {id};
        if moved && db.subs[id].status == Cancelled {
          cancelled := cancelled + 1;
        } else if moved {
          suspended := suspended + 1;
        }
      }
      ProgressEnds(cfg, db, now, 4);
    }

    /** A first invoice that may not have been paid in time: the subscription closes with it. */
    method LapseFirst(id: Id, now: nat) returns (moved: bool)
      requires Valid() && id in db.subs && db.subs[id].status == Pending && now == db.clock
      modifies this
      ensures Valid() && Step(old(db), db, id) && db.clock == now && db.reminders == old(db).reminders
      ensures db.subs == old(db).subs[id := FirstLapsed(old(db).subs[id], Payable(old(db), id, now))]
      ensures moved <==> !Payable(old(db), id, now)
      ensures !moved ==> db == old(db)
      ensures moved ==> db.invs == ExpireOf(old(db).invs, {id})
    {
      hide Logged, Inv, SubInv, Kept, OnlySub, ClosedKey, ExpireOf;
      var s := db.subs[id];
      var open := OpenInvoice(id);
      ExpireIsExpireOf(db, db, id, open);
      var t := s.(status := Cancelled);
      InvSub(cfg.plans, db, id);
      StatusOf(cfg.plans, db, id);
      if open.None? {
        SubUpdate(cfg.plans, db, id, t);
        LogUpdate(cfg.plans, db, log, id, t, S.MoveStatus(id, Pending, Cancelled));
        db := PutSub(db, id, t);
        log := log + [S.MoveStatus(id, Pending, Cancelled)];
        return true;
      }
      if db.invs[open.value].dueAt > now {
        assert IsOpen(db, open.value, id);
        StayStep(db, id);
        return false;
      }
      assert IsOpen(db, open.value, id);
      LapseKeeps(cfg.plans, db, id, open.value);
      LogUpdate(cfg.plans, db, log, id, t, S.MoveStatus(id, Pending, Cancelled));
      db := PutSub(db, id, t);
      log := log + [S.MoveStatus(id, Pending, Cancelled)];
      LogExpire(cfg.plans, db, log, open.value);
      db := Expire(db, open.value);
      log := log + [S.CloseInvoice(open.value, Expired)];
      moved := true;
    }

    /** Fifth phase: first invoices nobody paid. */
    method LapseFirsts(now: nat) returns (cancelled: nat)
      requires Valid() && db.clock == now && AllQuiet(cfg, db, now, 4)
      modifies this
      ensures Valid() && Kept(old(db), db) && AllQuiet(cfg, db, now, 5) && FirstsEnded(old(db), db, now, {})
      ensures Count(db, Cancelled) == Count(old(db), Cancelled) + cancelled
      ensures Count(db, Suspended) == Count(old(db), Suspended)
      ensures AllQuiet(cfg, old(db), now, 5) ==> db == old(db) && cancelled == 0
    {
      hide Logged, Inv, SubInv, Kept, OnlySub, Quiet, AllQuiet, Progress, Count, ExpireOf, Payable, FirstsEnded;
      StayPut(db);
      ProgressStarts(cfg, db, now, 5);
      FirstsStart(cfg, db, now);
      ghost var all := SelectedIds(cfg, db, now, 5);
      cancelled := 0;
      var todo := SelectedIds(cfg, db, now, 5);
      while todo != {}
        invariant Valid() && Kept(old(db), db) && todo <= all && FirstsEnded(old(db), db, now, todo)
        invariant Progress(cfg, db, now, 5, todo)
        invariant Count(db, Cancelled) == Count(old(db), Cancelled) + cancelled
        invariant Count(db, Suspended) == Count(old(db), Suspended)
        invariant AllQuiet(cfg, old(db), now, 5) ==> db == old(db) && cancelled == 0
        decreases todo
      {
        var id :| id in todo;
        ghost var a := db;
        FirstIsNext(old(db), a, now, todo, id);
        if AllQuiet(cfg, a, now, 5) {
          QuietWhenPending(cfg, a, id, now);
        }
        ProgressAt(cfg, a, id, now, 5, todo);
        var moved := LapseFirst(id, now);
        OthersPayable(a, db, id, now);
        if moved {
          FirstEndsNext(old(db), a, db, now, todo, id);
          EndedIsQuiet(cfg, db, id, now, 5);
          MoveCounts(a, db, id, Cancelled, Cancelled);
          MoveCounts(a, db, id, Cancelled, Suspended);
          cancelled := cancelled + 1;
        } else {
          FirstGoesOn(old(db), a, now, todo, id);
          StillPending(cfg, db, id, now);
        }
        ProgressStep(cfg, a, db, id, now, 5, todo);
        KeptIsTransitive(old(db), a, db);
        todo := todo - {id};
      }
      ProgressEnds(cfg, db, now, 5);
    }

    /** The reminders of one renewal that is coming due. */
    method RemindOne(i: Id, now: nat, out: seq<Reminder>, ghost start: set<(Id, string)>) returns (r: seq<Reminder>)
      requires Valid() && ComingDue(db, i, now) && Claimed(start, db.reminders, out)
      modifies this
      ensures Valid() && db == old(db).(reminders := db.reminders) && old(db).reminders <= db.reminders
      ensures Reminded(cfg, db, i, now) && Claimed(start, db.reminders, r)
      ensures OnlyDue(cfg, db, db.reminders - old(db).reminders, now)
      ensures Reminded(cfg, old(db), i, now) ==> db == old(db) && r == out
    {
      hide Logged, Inv, Claimed, DueKey;
      r := out;
      var left := db.invs[i].dueAt - now;
      for k := 0 to |cfg.remindBefore|
        invariant Valid() && db == old(db).(reminders := db.reminders) && old(db).reminders <= db.reminders
        invariant Claimed(start, db.reminders, r)
        invariant forall j :: 0 <= j < k && left <= cfg.remindBefore[j] ==>
                  (i, DueKey(cfg.remindBefore[j])) in db.reminders
        invariant OnlyDue(cfg, db, db.reminders - old(db).reminders, now)
        invariant Reminded(cfg, old(db), i, now) ==> db == old(db) && r == out
      {
        if left <= cfg.remindBefore[k] {
          ghost var a := db;
          r := Remind(i, DueKey(cfg.remindBefore[k]), r, start);
          assert DueClaim(cfg, db, (i, DueKey(cfg.remindBefore[k])), now);
          OnlyDueGrows(cfg, a, db, old(db).reminders, now);
          assert Reminded(cfg, old(db), i, now) ==> db.reminders == old(db).reminders;
        }
      }
    }

    /** Sixth phase: renewals coming due. */
    method RemindDue(now: nat, out: seq<Reminder>, ghost start: set<(Id, string)>) returns (r: seq<Reminder>)
      requires Valid() && Claimed(start, db.reminders, out)
      modifies this
      ensures Valid() && db == old(db).(reminders := db.reminders) && old(db).reminders <= db.reminders
      ensures AllReminded(cfg, db, now) && Claimed(start, db.reminders, r)
      ensures OnlyDue(cfg, db, db.reminders - old(db).reminders, now)
      ensures AllReminded(cfg, old(db), now) ==> db == old(db) && r == out
    {
      hide Logged, Inv, Claimed, Reminded, DueClaim;
      r := out;
      var todo := set i | i in db.invs && db.invs[i].status == Open && db.invs[i].number > 1 && db.invs[i].dueAt > now;
      NotDue(cfg, db, todo, now);
      while todo != {}
        invariant Valid() && db == old(db).(reminders := db.reminders) && old(db).reminders <= db.reminders
        invariant Claimed(start, db.reminders, r)
        invariant todo <= set i | i in db.invs && db.invs[i].status == Open && db.invs[i].number > 1
                  && db.invs[i].dueAt > now
        invariant forall i :: i in db.invs && i !in todo ==> Reminded(cfg, db, i, now)
        invariant OnlyDue(cfg, db, db.reminders - old(db).reminders, now)
        invariant AllReminded(cfg, old(db), now) ==> db == old(db) && r == out
        decreases todo
      {
        var i :| i in todo;
        ghost var a := db;
        if db.invs[i].sub in db.subs && db.subs[db.invs[i].sub].status == Active {
          r := RemindOne(i, now, r, start);
          StillReminded(cfg, a, db, now);
          OnlyDueGrows(cfg, a, db, old(db).reminders, now);
        } else {
          NotActive(cfg, db, i, now);
        }
        todo := todo - {i};
      }
    }

    /** The first two phases: what is billed. */
    method Bill(gateway: Gateway, retry: Gateway, now: nat) returns (raised: nat, charges: nat)
      requires Valid() && db.clock == now
      modifies this
      ensures Valid() && Kept(old(db), db) && db == old(db).(invs := db.invs)
      ensures Billed(cfg, old(db), db.invs, now, gateway, retry)
      ensures |db.invs| == |old(db).invs| + raised && charges == |NewlyCharged(old(db), db.invs, gateway, retry)|
      ensures AllQuiet(cfg, db, now, 1) && SamePayable(old(db), db, now)
      ensures Settled(cfg, old(db), now) ==> SameButCharges(old(db), db) && raised == 0 && Settled(cfg, db, now)
    {
      hide Logged, Inv, Kept, AllQuiet, SamePayable, AllReminded, Renewing, Billed, NewlyCharged, Chargeable;
      EarlierPhases(cfg, db, now);
      raised := RaiseRenewals(gateway, now);
      ghost var b := db;
      charges := CreateCharges(retry);
      ChargesKeepInv(cfg.plans, b, db);
      KeptIsTransitive(old(db), b, db);
      BillingComposes(cfg, old(db), b, db, now, gateway, retry);
      ChargesAreCounted(cfg, old(db), b, db, now, gateway, retry);
      SameDuesStillQuiet(cfg, b, db, now, 1);
      SameDuesStillQuiet(cfg, b, db, now, 5);
      SamePayableTransitive(old(db), b, db, now);
      assert |b.invs| == |b.invs.Keys| && |db.invs| == |db.invs.Keys|;
    }

    /** The three phases in the middle: what ends. */
    method MoveRows(now: nat) returns (tick: Tick)
      requires Valid() && db.clock == now && AllQuiet(cfg, db, now, 1)
      modifies this
      ensures Valid() && Kept(old(db), db) && AllQuiet(cfg, db, now, 5) && MovedOn(cfg, old(db), db, now)
      ensures Count(db, Cancelled) == Count(old(db), Cancelled) + tick.cancelled
      ensures Count(db, Suspended) == Count(old(db), Suspended) + tick.suspended
      ensures tick.toGrace == |Lapsing(old(db), now)|
      ensures Claimed(old(db).reminders, db.reminders, tick.reminders)
      ensures AllQuiet(cfg, old(db), now, 5) ==> db == old(db) && tick == Tick(0, 0, 0, 0, 0, [])
    {
      hide Logged, Inv, Kept, AllQuiet, SamePayable, Claimed, Count, PeriodsEnded, GracesEnded, FirstsEnded, MovedOn,
          Lapsing;
      EarlierPhases(cfg, db, now);
      NoClaims(db.reminders);
      ghost var c := db;
      var toGrace, ended, r3 := EndPeriods(now, [], old(db).reminders);
      ghost var d := db;
      PeriodsFrame(cfg, c, d, now);
      var suspended, over, r4 := EndGraces(now, r3, old(db).reminders);
      ghost var e := db;
      GracesFrame(cfg, d, e, now);
      var lapsed := LapseFirsts(now);
      FirstsFrame(e, db, now);
      KeptIsTransitive(c, d, e);
      KeptIsTransitive(c, e, db);
      SamePayableTransitive(c, d, e, now);
      PhasesCompose(cfg, c, d, e, db, now);
      tick := Tick(0, 0, toGrace, suspended, ended + over + lapsed, r4);
    }

    /**
     Run the loop once, as of `now`. What it bills, what it moves, what it
     expires and what it reminds of are told from the tables before it; it
     leaves nothing to do but to ask for charges, and does nothing else if
     nothing else is left.
     */
    method TickAt(gateway: Gateway, retry: Gateway, now: nat) returns (tick: Tick)
      requires Valid() && db.clock <= now
      modifies this
      ensures Valid() && Kept(old(db), db) && db.clock == now
      ensures TickDone(cfg, old(db), db, gateway, retry, now, tick)
    {
      hide Logged, Inv, Kept, AllQuiet, SamePayable, Claimed, Count, AllReminded, OnlyDue, Billed, MovedOn, TickedFrom;
      hide Lapsing, NewlyCharged, DueClaims;
      ClockMoves(cfg.plans, db, now);
      LogClock(cfg.plans, db, log, now);
      db := db.(clock := now);
      ghost var a := db;
      SameDuesStillQuiet(cfg, old(db), a, now, 5);
      var raised, charges := Bill(gateway, retry, now);
      ghost var c := db;
      tick := MoveRows(now);
      ghost var f := db;
      MovedFrame(cfg, c, f, now);
      var reminders := RemindDue(now, tick.reminders, old(db).reminders);
      DueIsClaimed(cfg, f, db, now);
      SameDuesStillQuiet(cfg, f, db, now, 5);
      tick := tick.(raised := raised, charges := charges, reminders := reminders);
      TickKeeps(old(db), a, c, f, db);
      TickCounts(old(db), c, f, db);
      SamePayableTransitive(old(db), a, c, now);
      TickComposes(cfg, old(db), c, f, db, now);
      ClockLeavesBills(cfg, old(db), c.invs, now, gateway, retry);
      SubsTellLapsing(old(db), c, now);
    }

    /**
     A second tick at the same instant raises nothing, moves nothing and reminds nobody: only
     charges may be created.
     */
    method TickTwice(gateway: Gateway, retry: Gateway, now: nat) returns (first: Tick, between: Db, second: Tick)
      requires Valid() && db.clock <= now
      modifies this
      ensures Valid() && Kept(old(db), between) && SameButCharges(between, db)
      ensures second == Tick(0, second.charges, 0, 0, 0, [])
    {
      hide Logged, Inv, Settled, Kept, Claimed, Billed, TickedFrom, TickDone;
      first := TickAt(gateway, retry, now);
      between := db;
      TickSettles(cfg, old(db), db, gateway, retry, now, first);
      second := TickAt(gateway, retry, now);
      TickOfSettled(cfg, between, db, gateway, retry, now, second);
    }
  }
}
