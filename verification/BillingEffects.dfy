/** What each public method of the billing loop makes of the tables. */
module BillingEffects {
  import opened Basics
  import opened BillingTypes
  import opened BillingState
  import opened BillingKeeps
  import opened BillingTick

  /** Nothing was reminded of, and nothing credited. */
  predicate SameClaims(a: Db, b: Db) {
    b.reminders == a.reminders && b.ledger == a.ledger
  }

  /** One live subscription per customer; a new one is pending, with one open invoice. */
  ghost predicate Subscribed(cfg: Config, a: Db, b: Db, customer: Id, plan: Id, now: nat, r: Result, id: Id, i: Id) {
    && (r.Ok? <==> plan in cfg.plans && CustomerIsFree(a, customer))
    && (r.Refusal? ==> b == a)
    && (r.Ok? ==>
          && b.clock == now && SameClaims(a, b) && OnlySub(a, b, id)
          && id !in a.subs && b.subs == a.subs[id := Subscription(customer, plan, None, Pending, 0, 0, false)]
          && i !in a.invs && b.invs.Keys == a.invs.Keys + {i} && IsOpen(b, i, id) && b.invs[i].number == 1
          && Terms(b.invs[i], plan, 0, 0, now + cfg.firstTtl))
  }

  /**
   Before the first payment the plan changes at once, later with the next
   period. What was open is void and raised again, for the new plan.
   */
  ghost predicate PlanChanged(cfg: Config, a: Db, b: Db, id: Id, plan: Id, now: nat, r: Result) {
    && (r.Ok? <==> plan in cfg.plans && id in a.subs && a.subs[id].status != Cancelled)
    && (r.Refusal? ==> b == a)
    && (r.Ok? ==>
          && b.clock == now && SameClaims(a, b) && OnlySub(a, b, id)
          && b.subs == a.subs[id := if a.subs[id].status == Pending then a.subs[id].(plan := plan)
                                    else a.subs[id].(nextPlan := if plan == a.subs[id].plan then None else Some(plan))]
          && Voided(a, b, id)
          && ((exists i :: IsOpen(b, i, id)) <==> a.subs[id].status == Pending || exists i :: IsOpen(a, i, id))
          && forall i :: IsOpen(b, i, id) ==>
               i !in a.invs && if a.subs[id].status == Pending then Terms(b.invs[i], plan, 0, 0, now + cfg.firstTtl)
                               else RenewalTerms(cfg, b.invs[i], a.subs[id], plan))
  }

  /** A served subscription ends with its period, any other at once; nothing stays open. */
  ghost predicate EndAsked(a: Db, b: Db, id: Id, now: nat, r: Result) {
    && (r.Ok? <==> id in a.subs)
    && (r.Refusal? ==> b == a)
    && (r.Ok? ==>
          && b.clock == now && SameClaims(a, b) && OnlySub(a, b, id) && Voided(a, b, id)
             && (forall i :: !IsOpen(b, i, id))
          && b.subs == a.subs[id := if a.subs[id].status.IsServed() then a.subs[id].(cancelAtEnd := true)
                                    else a.subs[id].(status := Cancelled, cancelAtEnd := true)])
  }

  ghost predicate EndedNow(a: Db, b: Db, id: Id, now: nat, r: Result) {
    && (r.Ok? <==> id in a.subs)
    && (r.Refusal? ==> b == a)
    && (r.Ok? ==>
          && b.clock == now && SameClaims(a, b) && OnlySub(a, b, id) && Voided(a, b, id)
             && (forall i :: !IsOpen(b, i, id))
          && b.subs == a.subs[id := a.subs[id].(status := Cancelled, cancelAtEnd := true)])
  }

  /** A suspended subscription keeps its open invoice or gets one, for the next plan and from the payment on. */
  ghost predicate Renewed(cfg: Config, a: Db, b: Db, id: Id, now: nat, r: Result) {
    && (r.Ok? <==> id in a.subs && a.subs[id].status == Suspended)
    && (r.Refusal? ==> b == a)
    && (r.Ok? ==>
          && b.clock == now && SameClaims(a, b) && OnlySub(a, b, id) && b.subs == a.subs
             && (exists i :: IsOpen(b, i, id))
          && ((exists i :: IsOpen(a, i, id)) ==> b == a.(clock := now))
          && ((forall i :: !IsOpen(a, i, id)) ==>
                forall i :: IsOpen(b, i, id) ==>
                  IsNextPlan(a.subs[id], b.invs[i].plan) && Terms(b.invs[i], b.invs[i].plan, 0, 0, now + cfg.firstTtl)))
  }

  predicate Reissued(a: Db, b: Db, i: Id, now: nat, charge: Option<Id>, r: Result) {
    && (r.Ok? <==> i in a.invs && a.invs[i].status == Open)
    && b == if r.Ok? then a.(invs := a.invs[i := a.invs[i].(charge := charge)], clock := now) else a
  }

  /**
   What paying an open invoice does. The credits of its plan go to the customer;
   the subscription is active on that plan for one cycle more, from the end of
   its period if it was served, and from now if it was not.
   */
  ghost predicate PaidStep(plans: Plans, a: Db, b: Db, i: Id, now: nat)
    requires i in a.invs
  {
    var inv := a.invs[i];
    && inv.sub in a.subs && inv.plan in plans
    && var s, plan := a.subs[inv.sub], plans[inv.plan];
       var start := if s.status == Active || s.status == Grace then s.periodEnd else now;
       var end := start + plan.cycle;
       && b.invs == a.invs[i := inv.(status := Paid, key := "paid:" + i, periodStart := start, periodEnd := end)]
       && b.subs == a.subs[inv.sub := s.(status := Active, plan := inv.plan, nextPlan := None, periodStart := start,
                                         periodEnd := end)]
       && b.ledger == (if plan.credits > 0 then a.ledger + [Credit(s.customer, plan.credits, i)] else a.ledger)
       && b.reminders == a.reminders && b.clock == now && s.periodEnd <= start < end
  }

  ghost predicate Settles(cfg: Config, a: Db, b: Db, i: Id, now: nat, r: Payment) {
    && (r.NoInvoice? <==> i !in a.invs)
    && (r.Extended? <==> i in a.invs && a.invs[i].status == Open)
    && (r.Already? <==> i in a.invs && a.invs[i].status == Paid)
    && (if r.Extended? then PaidStep(cfg.plans, a, b, i, now) else b == a)
  }

  /** A first invoice expires with its subscription; another waits for a new charge. */
  ghost predicate ChargeLost(a: Db, b: Db, i: Id, now: nat) {
    if i !in a.invs || a.invs[i].status != Open || a.invs[i].sub !in a.subs then b == a
    else
      var id := a.invs[i].sub;
      if a.subs[id].status == Pending
      then b == Db(a.subs[id := a.subs[id].(status := Cancelled)],
                   a.invs[i := a.invs[i].(status := Expired, key := "expired:" + i)], a.reminders, now, a.ledger)
      else b == a.(invs := a.invs[i := a.invs[i].(charge := None)], clock := now)
  }

  /** What one tick does, and what its report says. */
  ghost predicate TickDone(cfg: Config, a: Db, b: Db, gateway: Gateway, retry: Gateway, now: nat, tick: Tick) {
    && (exists billed ::
          && Billed(cfg, a, billed, now, gateway, retry) && TickedFrom(cfg, a, billed, b, now)
          && tick.charges == |NewlyCharged(a, billed, gateway, retry)|)
    && |b.invs| == |a.invs| + tick.raised && tick.toGrace == |Lapsing(a, now)|
    && Count(b, Cancelled) == Count(a, Cancelled) + tick.cancelled
    && Count(b, Suspended) == Count(a, Suspended) + tick.suspended
    && Claimed(a.reminders, b.reminders, tick.reminders)
    && Settled(cfg, b, now)
    && (Settled(cfg, a, now) ==> SameButCharges(a.(clock := now), b) && tick == Tick(0, tick.charges, 0, 0, 0, []))
  }

  lemma TickSettles(cfg: Config, a: Db, b: Db, gateway: Gateway, retry: Gateway, now: nat, tick: Tick)
    requires TickDone(cfg, a, b, gateway, retry, now, tick)
    ensures Settled(cfg, b, now)
  {}

  lemma TickOfSettled(cfg: Config, a: Db, b: Db, gateway: Gateway, retry: Gateway, now: nat, tick: Tick)
    requires TickDone(cfg, a, b, gateway, retry, now, tick) && Settled(cfg, a, now) && a.clock == now
    ensures SameButCharges(a, b) && tick == Tick(0, tick.charges, 0, 0, 0, [])
  {
    hide Settled, Billed, TickedFrom;
    assert a.(clock := now) == a;
  }
}
