/**
 What the scheduled tick leaves behind: when a subscription has nothing left
 to be done at an instant, and what one tick makes of each row.
 */
module BillingTick {
  import opened Basics
  import opened Decimals
  import opened BillingTypes
  import opened BillingState
  import opened BillingKeeps

  // ----- What a tick makes of a subscription row -----

  /** The subscription has an open invoice that is not due yet. */
  ghost predicate Payable(db: Db, id: Id, now: nat) {
    exists i :: IsOpen(db, i, id) && db.invs[i].dueAt > now
  }

  /** The row after a tick at `now`, told from the row before it. */
  function Ticked(s: Subscription, grace: nat, payable: bool, now: nat): Subscription {
    var ended := if s.cancelAtEnd then Cancelled else Suspended;
    match s.status
    case Pending => if payable then s else s.(status := Cancelled)
    case Active =>
      if now < s.periodEnd then s
      else if s.cancelAtEnd then s.(status := Cancelled)
      else if now < s.periodEnd + grace then s.(status := Grace)
      else s.(status := Suspended)
    case Grace => if now < s.periodEnd + grace then s else s.(status := ended)
    case Suspended => s
    case Cancelled => s
  }

  /** The third phase: a period that ended. */
  function PeriodEnded(s: Subscription, now: nat): Subscription {
    if s.status == Active && s.periodEnd <= now then s.(status := if s.cancelAtEnd then Cancelled else Grace) else s
  }

  /** The fourth phase: grace that ran out. */
  function GraceEnded(s: Subscription, grace: nat, now: nat): Subscription {
    if s.status == Grace && s.periodEnd + grace <= now
    then s.(status := if s.cancelAtEnd then Cancelled else Suspended) else s
  }

  /** The fifth phase: a first invoice nobody paid. */
  function FirstLapsed(s: Subscription, payable: bool): Subscription {
    if s.status == Pending && !payable then s.(status := Cancelled) else s
  }

  lemma PhasesMakeTicked(s: Subscription, grace: nat, payable: bool, now: nat)
    ensures FirstLapsed(GraceEnded(PeriodEnded(s, now), grace, now), payable) == Ticked(s, grace, payable, now)
  {}

  /** After a tick the status alone says who is served. */
  lemma TickedStatusTellsService(s: Subscription, grace: nat, payable: bool, now: nat)
    ensures var t := Ticked(s, grace, payable, now);
            t.status.IsServed() <==> t.IsServedAt(now, grace)
  {}

  /**
   A tick changes who is served only where a subscription cancelled at the end
   of its period is past that end: until the tick comes it is still served,
   for as long as the grace of its plan, although it was to end with the period.
   */
  lemma TickEndsServiceOnlyOfCancelled(s: Subscription, grace: nat, payable: bool, now: nat)
    ensures Ticked(s, grace, payable, now).IsServedAt(now, grace) == s.IsServedAt(now, grace)
            <==> !(s.status == Active && s.cancelAtEnd && s.periodEnd <= now < s.periodEnd + grace)
  {}

  /** The subscriptions whose period has ended and that go on into grace. */
  ghost function Lapsing(db: Db, now: nat): set<Id> {
    set id | id in db.subs && db.subs[id].status == Active && db.subs[id].periodEnd <= now && !db.subs[id].cancelAtEnd
  }

  /** The open invoices without a charge for which the gateway creates one. */
  ghost function Chargeable(db: Db, gateway: Gateway): set<Id> {
    set i | i in db.invs && db.invs[i].status == Open && db.invs[i].charge == None && gateway(i).Some?
  }

  /**
   What `cancel` makes of access past the end of the period: it lasts through
   the grace of the plan, for an active subscription until the next tick, for
   one in grace already whatever the ticks.
   */
  lemma ServedPastItsEnd(s: Subscription, grace: nat, payable: bool, now: nat)
    requires s.cancelAtEnd && s.periodEnd <= now
    ensures s.IsServedAt(now, grace) <==> s.status in {Active, Grace} && now < s.periodEnd + grace
    ensures Ticked(s, grace, payable, now).IsServedAt(now, grace) <==> s.status == Grace && now < s.periodEnd + grace
  {}

  // ----- Nothing left to do -----

  function GraceOf(cfg: Config, s: Subscription): nat {
    if s.plan in cfg.plans then cfg.plans[s.plan].grace else 0
  }

  /** How far the phases of a tick have got with one subscription. */
  ghost predicate Quiet(cfg: Config, db: Db, id: Id, now: nat, phase: nat)
    requires id in db.subs
  {
    var s := db.subs[id];
    && (phase >= 1 && s.status == Active && !s.cancelAtEnd && s.periodEnd <= now + cfg.lead ==> HasRenewal(db, id))
    && (phase >= 3 && s.status == Active ==> now < s.periodEnd)
    && (phase >= 4 && s.status == Grace ==> now < s.periodEnd + GraceOf(cfg, s))
    && (phase >= 5 && s.status == Pending ==> Payable(db, id, now))
  }

  ghost predicate AllQuiet(cfg: Config, db: Db, now: nat, phase: nat) {
    forall id :: id in db.subs ==> Quiet(cfg, db, id, now, phase)
  }

  /** The reminders of one renewal that is coming due have been claimed. */
  ghost predicate Reminded(cfg: Config, db: Db, i: Id, now: nat)
    requires i in db.invs
  {
    ComingDue(db, i, now) ==>
      forall k :: 0 <= k < |cfg.remindBefore| && db.invs[i].dueAt - now <= cfg.remindBefore[k] ==>
        (i, DueKey(cfg.remindBefore[k])) in db.reminders
  }

  predicate ComingDue(db: Db, i: Id, now: nat) {
    && i in db.invs && db.invs[i].status == Open && db.invs[i].number > 1 && db.invs[i].dueAt > now
    && db.invs[i].sub in db.subs && db.subs[db.invs[i].sub].status == Active
  }

  /** Nothing is left for a tick at `now` but to ask the gateway for charges. */
  ghost predicate Settled(cfg: Config, db: Db, now: nat) {
    && AllQuiet(cfg, db, now, 5)
    && AllReminded(cfg, db, now)
  }

  ghost predicate AllReminded(cfg: Config, db: Db, now: nat) {
    forall i :: i in db.invs ==> Reminded(cfg, db, i, now)
  }

  /** A reminder that a renewal is coming due, when it is. */
  ghost predicate DueClaim(cfg: Config, db: Db, p: (Id, string), now: nat) {
    && ComingDue(db, p.0, now)
    && exists k ::
         && 0 <= k < |cfg.remindBefore| && db.invs[p.0].dueAt - now <= cfg.remindBefore[k]
         && p.1 == DueKey(cfg.remindBefore[k])
  }

  ghost predicate OnlyDue(cfg: Config, db: Db, claims: set<(Id, string)>, now: nat) {
    forall p :: p in claims ==> DueClaim(cfg, db, p, now)
  }

  // ----- One subscription after another -----

  /** The subscriptions still to be visited are one phase behind the others. */
  ghost predicate Progress(cfg: Config, db: Db, now: nat, phase: nat, todo: set<Id>)
    requires phase >= 1
  {
    forall id :: id in db.subs ==> Quiet(cfg, db, id, now, if id in todo then phase - 1 else phase)
  }

  lemma QuietView(cfg: Config, a: Db, b: Db, x: Id, now: nat, phase: nat)
    requires SameView(a, b, x) && Quiet(cfg, a, x, now, phase)
    ensures Quiet(cfg, b, x, now, phase)
  {
    if HasRenewal(a, x) {
      var i :| IsOpen(a, i, x) && a.invs[i].periodStart == a.subs[x].periodEnd;
      assert IsOpen(b, i, x);
    }
    if Payable(a, x, now) {
      var i :| IsOpen(a, i, x) && a.invs[i].dueAt > now;
      assert IsOpen(b, i, x);
    }
  }

  lemma ProgressStep(cfg: Config, a: Db, b: Db, id: Id, now: nat, phase: nat, todo: set<Id>)
    requires phase >= 1 && Progress(cfg, a, now, phase, todo) && OnlySub(a, b, id)
    requires id in a.subs && id in b.subs && Quiet(cfg, b, id, now, phase)
    ensures Progress(cfg, b, now, phase, todo - {id})
  {
    hide Quiet;
    forall x | x in b.subs
      ensures Quiet(cfg, b, x, now, if x in todo - {id} then phase - 1 else phase)
    {
      if x != id {
        assert SameView(a, b, x);
        QuietView(cfg, a, b, x, now, if x in todo then phase - 1 else phase);
      }
    }
  }

  /** The subscriptions a phase selects. */
  predicate Selected(cfg: Config, s: Subscription, now: nat, phase: nat) {
    match phase
    case 1 => s.status == Active && !s.cancelAtEnd && s.periodEnd <= now + cfg.lead
    case 3 => s.status == Active && s.periodEnd <= now
    case 4 => s.status == Grace
    case 5 => s.status == Pending
    case _ => false
  }

  function SelectedIds(cfg: Config, db: Db, now: nat, phase: nat): set<Id> {
    set id | id in db.subs && Selected(cfg, db.subs[id], now, phase)
  }

  lemma ProgressStarts(cfg: Config, db: Db, now: nat, phase: nat)
    requires phase >= 1 && AllQuiet(cfg, db, now, if phase == 3 then 1 else phase - 1)
    ensures Progress(cfg, db, now, phase, SelectedIds(cfg, db, now, phase))
  {
    hide HasRenewal, Payable;
  }

  lemma ProgressEnds(cfg: Config, db: Db, now: nat, phase: nat)
    requires phase >= 1 && Progress(cfg, db, now, phase, {})
    ensures AllQuiet(cfg, db, now, phase)
  {
    hide Quiet;
  }

  lemma QuietMeansNothingEnds(cfg: Config, db: Db, now: nat)
    requires AllQuiet(cfg, db, now, 3)
    ensures SelectedIds(cfg, db, now, 3) == {}
  {
    hide HasRenewal, Payable;
  }

  lemma QuietMeansRenewed(cfg: Config, db: Db, id: Id, now: nat)
    requires AllQuiet(cfg, db, now, 1) && id in SelectedIds(cfg, db, now, 1)
    ensures exists i :: IsOpen(db, i, id)
  {
    hide Payable;
    assert HasRenewal(db, id);
  }

  lemma NothingYet(cfg: Config, db: Db, now: nat)
    ensures AllQuiet(cfg, db, now, 0)
  {}

  lemma RenewedIsQuiet(cfg: Config, db: Db, id: Id, now: nat)
    requires id in db.subs && HasRenewal(db, id)
    ensures Quiet(cfg, db, id, now, 1)
  {}

  /** A subscription that has left the states a phase looks at is done with it. */
  lemma EndedIsQuiet(cfg: Config, db: Db, id: Id, now: nat, phase: nat)
    requires id in db.subs
    requires db.subs[id].status in {Suspended, Cancelled} || (db.subs[id].status == Grace && phase <= 3)
    ensures Quiet(cfg, db, id, now, phase)
  {}

  lemma QuietInGrace(cfg: Config, db: Db, id: Id, now: nat)
    requires AllQuiet(cfg, db, now, 4) && id in db.subs && db.subs[id].status == Grace
    ensures now < db.subs[id].periodEnd + GraceOf(cfg, db.subs[id])
  {
    assert Quiet(cfg, db, id, now, 4);
  }

  lemma QuietWhenPending(cfg: Config, db: Db, id: Id, now: nat)
    requires AllQuiet(cfg, db, now, 5) && id in db.subs && db.subs[id].status == Pending
    ensures Payable(db, id, now)
  {
    assert Quiet(cfg, db, id, now, 5);
  }

  lemma ProgressAt(cfg: Config, db: Db, id: Id, now: nat, phase: nat, todo: set<Id>)
    requires phase >= 1 && Progress(cfg, db, now, phase, todo) && id in db.subs && id in todo
    ensures Quiet(cfg, db, id, now, phase - 1)
  {
    hide Quiet;
  }

  lemma StillInGrace(cfg: Config, db: Db, id: Id, now: nat)
    requires id in db.subs && Quiet(cfg, db, id, now, 3) && db.subs[id].status == Grace
    requires now < db.subs[id].periodEnd + GraceOf(cfg, db.subs[id])
    ensures Quiet(cfg, db, id, now, 4)
  {}

  lemma StillPending(cfg: Config, db: Db, id: Id, now: nat)
    requires id in db.subs && db.subs[id].status == Pending && Payable(db, id, now)
    ensures Quiet(cfg, db, id, now, 5)
  {}

  lemma SamePayableSelf(a: Db, now: nat)
    ensures SamePayable(a, a, now)
  {}

  lemma SamePayableTransitive(a: Db, b: Db, c: Db, now: nat)
    requires SamePayable(a, b, now) && SamePayable(b, c, now)
    ensures SamePayable(a, c, now)
  {
    hide Payable;
  }

  /** The phases before the fifth leave unpaid subscriptions as payable as they were. */
  ghost predicate SamePayable(a: Db, b: Db, now: nat) {
    forall id :: id in a.subs && a.subs[id].status == Pending ==>
      id in b.subs && b.subs[id] == a.subs[id] && (Payable(a, id, now) <==> Payable(b, id, now))
  }

  lemma PayableView(a: Db, b: Db, x: Id, now: nat)
    requires SameView(a, b, x)
    ensures Payable(a, x, now) <==> Payable(b, x, now)
  {
    if Payable(a, x, now) {
      var i :| IsOpen(a, i, x) && a.invs[i].dueAt > now;
      assert IsOpen(b, i, x);
    }
    if Payable(b, x, now) {
      var i :| IsOpen(b, i, x) && b.invs[i].dueAt > now;
      assert IsOpen(a, i, x);
    }
  }

  lemma OthersPayable(a: Db, b: Db, id: Id, now: nat)
    requires OnlySub(a, b, id)
    ensures OtherFirstsPayable(a, b, id, now)
  {
    hide Payable;
    forall x | x in a.subs && x != id
      ensures Payable(a, x, now) <==> Payable(b, x, now)
    {
      assert SameView(a, b, x);
      PayableView(a, b, x, now);
    }
  }

  lemma PayableStep(a: Db, b: Db, id: Id, now: nat)
    requires OnlySub(a, b, id) && id in a.subs && a.subs[id].status != Pending
    ensures SamePayable(a, b, now)
  {
    hide Payable;
    forall x | x in a.subs && a.subs[x].status == Pending
      ensures x in b.subs && b.subs[x] == a.subs[x] && (Payable(a, x, now) <==> Payable(b, x, now))
    {
      assert SameView(a, b, x);
      PayableView(a, b, x, now);
    }
  }

  // ----- Claims -----

  function Pairs(out: seq<Reminder>): set<(Id, string)> {
    set r | r in out :: (r.invoice, r.kind)
  }

  ghost predicate Distinct(out: seq<Reminder>) {
    forall j, k :: 0 <= j < k < |out| ==> out[j] != out[k]
  }

  /** `out` lists exactly the reminders claimed since `start`, each once. */
  ghost predicate Claimed(start: set<(Id, string)>, reminders: set<(Id, string)>, out: seq<Reminder>) {
    && reminders == start + Pairs(out) && Distinct(out)
    && forall r :: r in out ==> (r.invoice, r.kind) !in start
  }

  lemma ClaimOne(start: set<(Id, string)>, reminders: set<(Id, string)>, out: seq<Reminder>, i: Id, kind: string)
    requires Claimed(start, reminders, out) && (i, kind) !in reminders
    ensures Claimed(start, reminders + {(i, kind)}, out + [Reminder(i, kind)])
  {
    var more := out + [Reminder(i, kind)];
    assert Pairs(more) == Pairs(out) + {(i, kind)} by {
      assert more[|out|] == Reminder(i, kind);
      forall r | r in more
        ensures (r.invoice, r.kind) in Pairs(out) + {(i, kind)}
      {
        assert r in out || r == Reminder(i, kind);
      }
      assert forall r :: r in out ==> r in more;
    }
    forall j, k | 0 <= j < k < |more|
      ensures more[j] != more[k]
    {
      assert j < |out| ==> more[j] == out[j] && out[j] in out && (out[j].invoice, out[j].kind) in Pairs(out);
    }
  }

  /** The claims on the open invoices of a subscription. */
  function OpenClaims(invs: map<Id, Invoice>, id: Id, kind: string): set<(Id, string)> {
    set i | i in invs && invs[i].sub == id && invs[i].status == Open :: (i, kind)
  }

  lemma OpenClaimsAre(db: Db, id: Id, kind: string, open: Option<Id>)
    requires forall j :: IsOpen(db, j, id) <==> open == Some(j)
    ensures OpenClaims(db.invs, id, kind) == if open.Some? then {(open.value, kind)} else {}
  {
    if open.Some? {
      assert IsOpen(db, open.value, id);
    }
    forall i | i in db.invs && db.invs[i].sub == id && db.invs[i].status == Open
      ensures open == Some(i)
    {
      assert IsOpen(db, i, id);
    }
  }

  lemma NoClaims(start: set<(Id, string)>)
    ensures Claimed(start, start, [])
  {}

  lemma OnlyDueGrows(cfg: Config, a: Db, b: Db, start: set<(Id, string)>, now: nat)
    requires b == a.(reminders := b.reminders) && OnlyDue(cfg, a, a.reminders - start, now)
    requires OnlyDue(cfg, b, b.reminders - a.reminders, now)
    ensures OnlyDue(cfg, b, b.reminders - start, now)
  {
    forall p | p in b.reminders - start
      ensures DueClaim(cfg, b, p, now)
    {
      if p in a.reminders {
        assert DueClaim(cfg, a, p, now);
      }
    }
  }

  lemma StillReminded(cfg: Config, a: Db, b: Db, now: nat)
    requires b == a.(reminders := b.reminders) && a.reminders <= b.reminders
    ensures forall i :: i in a.invs && Reminded(cfg, a, i, now) ==> Reminded(cfg, b, i, now)
  {
    hide DueKey;
  }

  lemma NotDue(cfg: Config, db: Db, todo: set<Id>, now: nat)
    requires forall i :: i in db.invs && ComingDue(db, i, now) ==> i in todo
    ensures forall i :: i in db.invs && i !in todo ==> Reminded(cfg, db, i, now)
  {}

  lemma NotActive(cfg: Config, db: Db, i: Id, now: nat)
    requires i in db.invs && !ComingDue(db, i, now)
    ensures Reminded(cfg, db, i, now)
  {}

  // ----- Counting statuses -----

  function WithStatus(db: Db, status: SubStatus): set<Id> {
    set id | id in db.subs && db.subs[id].status == status
  }

  function Count(db: Db, status: SubStatus): nat {
    |WithStatus(db, status)|
  }

  /** Moving one subscription moves it from one count to the other. */
  lemma MoveCounts(a: Db, b: Db, id: Id, to: SubStatus, status: SubStatus)
    requires id in a.subs && a.subs[id].status != to
    requires b.subs == a.subs[id := a.subs[id].(status := to)]
    ensures Count(b, status) == Count(a, status)
            + (if status == to then 1 else 0) - (if status == a.subs[id].status then 1 else 0)
  {
    hide Count;
    if status == to {
      MovedIn(a, b, id, to);
    } else if status == a.subs[id].status {
      MovedIn(b, a, id, status);
    } else {
      assert WithStatus(a, status) == WithStatus(b, status);
      CountsAgree(a, b, status);
    }
  }

  lemma MovedIn(a: Db, b: Db, id: Id, to: SubStatus)
    requires a.subs.Keys == b.subs.Keys && id in a.subs && a.subs[id].status != to && b.subs[id].status == to
    requires forall x :: x in a.subs && x != id ==> a.subs[x] == b.subs[x]
    ensures Count(b, to) == Count(a, to) + 1
  {
    assert WithStatus(b, to) == WithStatus(a, to) + {id};
  }

  lemma CountsAgree(a: Db, b: Db, status: SubStatus)
    requires WithStatus(a, status) == WithStatus(b, status)
    ensures Count(a, status) == Count(b, status)
  {}

  lemma SubsTellStatus(a: Db, b: Db, status: SubStatus)
    requires a.subs == b.subs
    ensures Count(a, status) == Count(b, status)
  {}

  // ----- The phases together -----

  /** Two databases that say the same about periods and dues. */
  ghost predicate SameDues(a: Db, b: Db) {
    && a.subs == b.subs && a.invs.Keys == b.invs.Keys
    && forall i :: i in a.invs ==> b.invs[i] == a.invs[i].(charge := b.invs[i].charge)
  }

  lemma SameDuesSameQuiet(cfg: Config, a: Db, b: Db, id: Id, now: nat, phase: nat)
    requires SameDues(a, b) && id in a.subs
    ensures Payable(a, id, now) <==> Payable(b, id, now)
    ensures Quiet(cfg, a, id, now, phase) <==> Quiet(cfg, b, id, now, phase)
  {
    assert forall i :: IsOpen(a, i, id) <==> IsOpen(b, i, id);
  }

  lemma SameDuesStillQuiet(cfg: Config, a: Db, b: Db, now: nat, phase: nat)
    requires SameDues(a, b)
    ensures AllQuiet(cfg, a, now, phase) <==> AllQuiet(cfg, b, now, phase)
    ensures SamePayable(a, b, now)
    ensures a.reminders <= b.reminders && AllReminded(cfg, a, now) ==> AllReminded(cfg, b, now)
  {
    hide Quiet, Payable, DueKey, Reminded;
    forall id | id in a.subs
      ensures Payable(a, id, now) <==> Payable(b, id, now)
      ensures Quiet(cfg, a, id, now, phase) <==> Quiet(cfg, b, id, now, phase)
    {
      SameDuesSameQuiet(cfg, a, b, id, now, phase);
    }
    if a.reminders <= b.reminders && AllReminded(cfg, a, now) {
      forall i | i in b.invs
        ensures Reminded(cfg, b, i, now)
      {
        SameDuesReminded(cfg, a, b, i, now);
      }
    }
  }

  lemma SameDuesReminded(cfg: Config, a: Db, b: Db, i: Id, now: nat)
    requires SameDues(a, b) && i in a.invs && i in b.invs && Reminded(cfg, a, i, now) && a.reminders <= b.reminders
    ensures Reminded(cfg, b, i, now)
  {
    hide DueKey;
    assert b.invs[i] == a.invs[i].(charge := b.invs[i].charge);
  }

  lemma EarlierPhases(cfg: Config, db: Db, now: nat)
    ensures AllQuiet(cfg, db, now, 5) ==>
            AllQuiet(cfg, db, now, 1) && AllQuiet(cfg, db, now, 3) && AllQuiet(cfg, db, now, 4)
  {
    hide HasRenewal, Payable;
    if AllQuiet(cfg, db, now, 5) {
      forall id | id in db.subs
        ensures Quiet(cfg, db, id, now, 1) && Quiet(cfg, db, id, now, 3) && Quiet(cfg, db, id, now, 4)
      {
        assert Quiet(cfg, db, id, now, 5);
      }
    }
  }

  lemma TickKeeps(s: Db, a: Db, c: Db, f: Db, g: Db)
    requires Kept(s, a) && Kept(a, c) && Kept(c, f)
    requires g == f.(reminders := g.reminders) && f.reminders <= g.reminders
    ensures Kept(s, g)
  {
    hide Kept;
    KeptIsTransitive(s, a, c);
    KeptIsTransitive(s, c, f);
    MoreReminders(f, g);
    KeptIsTransitive(s, f, g);
  }

  lemma MoreReminders(f: Db, g: Db)
    requires g == f.(reminders := g.reminders) && f.reminders <= g.reminders
    ensures Kept(f, g)
  {}

  lemma TickCounts(s: Db, c: Db, f: Db, g: Db)
    requires s.subs == c.subs && f.subs == g.subs
    ensures forall status :: Count(s, status) == Count(c, status) && Count(f, status) == Count(g, status)
  {
    forall status
      ensures Count(s, status) == Count(c, status) && Count(f, status) == Count(g, status)
    {
      SubsTellStatus(s, c, status);
      SubsTellStatus(f, g, status);
    }
  }

  // ----- Creating charges one by one -----

  /** The invoices the gateway still has to be asked about are as they were; the others have what it answered. */
  ghost predicate Charging(a: Db, b: Db, gateway: Gateway, todo: set<Id>, created: nat) {
    && SameButCharges(a, b)
    && (forall i :: i in todo ==> i in a.invs && a.invs[i].status == Open && a.invs[i].charge == None)
    && (forall i :: i in b.invs ==>
          b.invs[i] == if a.invs[i].status == Open && a.invs[i].charge == None && i !in todo
                       then a.invs[i].(charge := gateway(i)) else a.invs[i])
    && created == |Chargeable(a, gateway) - todo|
  }

  lemma NothingCharged(a: Db, gateway: Gateway, todo: set<Id>)
    requires todo == set i | i in a.invs && a.invs[i].status == Open && a.invs[i].charge == None
    ensures Charging(a, a, gateway, todo, 0)
  {
    assert Chargeable(a, gateway) - todo == {};
  }

  lemma StillToCharge(a: Db, b: Db, gateway: Gateway, todo: set<Id>, created: nat, i: Id)
    requires Charging(a, b, gateway, todo, created) && i in todo
    ensures i in b.invs && b.invs[i] == a.invs[i] && b.invs[i].status == Open && b.invs[i].charge == None
  {}

  lemma ChargeOne(a: Db, b: Db, c: Db, gateway: Gateway, todo: set<Id>, created: nat, i: Id)
    requires Charging(a, b, gateway, todo, created) && i in todo && i in b.invs
    requires c == if gateway(i).Some? then PutInvoice(b, i, b.invs[i].(charge := gateway(i))) else b
    ensures Charging(a, c, gateway, todo - {i}, if gateway(i).Some? then created + 1 else created)
  {
    CountOneCharge(Chargeable(a, gateway), todo, i, gateway(i).Some?);
    hide Chargeable;
  }

  lemma CountOneCharge(chargeable: set<Id>, todo: set<Id>, i: Id, created: bool)
    requires i in todo && (i in chargeable <==> created)
    ensures |chargeable - (todo - {i})| == |chargeable - todo| + if created then 1 else 0
  {
    var before, after := chargeable - todo, chargeable - (todo - {i});
    if created {
      assert after == before + {i} && i !in before;
    } else {
      assert after == before;
    }
  }

  lemma AllCharged(a: Db, b: Db, gateway: Gateway, created: nat)
    requires Charging(a, b, gateway, {}, created)
    ensures SameButCharges(a, b) && created == |Chargeable(a, gateway)|
    ensures forall i :: i in b.invs ==>
              b.invs[i] == Charged(a.invs[i], gateway(i))
  {
    assert Chargeable(a, gateway) - {} == Chargeable(a, gateway);
  }

  // ----- Which renewals were raised -----

  type Gateway = Id -> Option<Id>

  /** The subscription is due for a renewal and has none. */
  ghost predicate WantsRenewal(cfg: Config, db: Db, id: Id, now: nat) {
    && id in db.subs && db.subs[id].status == Active && !db.subs[id].cancelAtEnd
    && db.subs[id].periodEnd <= now + cfg.lead && forall j :: !IsOpen(db, j, id)
  }

  /** An invoice the tick raised, before it may expire again. */
  ghost predicate IsNewRenewal(cfg: Config, a: Db, inv: Invoice, now: nat, gateway: Gateway) {
    && WantsRenewal(cfg, a, inv.sub, now) && inv.status == Open && inv.charge == gateway(inv.sub)
    && IsNextPlan(a.subs[inv.sub], inv.plan) && RenewalTerms(cfg, inv, a.subs[inv.sub], inv.plan)
  }

  /** The subscriptions not yet visited have no new invoice; of the others each that wants a renewal has one. */
  ghost predicate Renewing(cfg: Config, a: Db, b: Db, now: nat, gateway: Gateway, todo: set<Id>) {
    && (forall i :: i in a.invs ==> i in b.invs && b.invs[i] == a.invs[i])
    && (forall i :: i in b.invs && i !in a.invs ==>
       IsNewRenewal(cfg, a, b.invs[i], now, gateway) && b.invs[i].sub !in todo)
    && (forall i, j :: i in b.invs && j in b.invs && i !in a.invs && j !in a.invs && b.invs[i].sub == b.invs[j].sub ==>
       i == j)
    && (forall id :: WantsRenewal(cfg, a, id, now) && id !in todo ==> HasNew(a, b, id))
  }

  ghost predicate HasNew(a: Db, b: Db, id: Id) {
    exists i :: i in b.invs && i !in a.invs && b.invs[i].sub == id
  }

  /** The first phase so far: who is done, what was raised, and that nothing was if nothing was due. */
  ghost predicate RaisedSoFar(cfg: Config, a: Db, b: Db, now: nat, gateway: Gateway, todo: set<Id>, raised: nat) {
    && Kept(a, b) && b == a.(invs := b.invs) && todo <= SelectedIds(cfg, b, now, 1)
    && Progress(cfg, b, now, 1, todo) && SamePayable(a, b, now)
    && Renewing(cfg, a, b, now, gateway, todo) && |b.invs| == |a.invs| + raised
    && (AllQuiet(cfg, a, now, 1) ==> b == a && raised == 0)
  }

  lemma RenewingStarts(cfg: Config, a: Db, now: nat, gateway: Gateway)
    ensures Renewing(cfg, a, a, now, gateway, SelectedIds(cfg, a, now, 1))
  {}

  /** A subscription not yet visited has open what it had open. */
  lemma RenewingView(cfg: Config, a: Db, b: Db, now: nat, gateway: Gateway, todo: set<Id>, id: Id)
    requires Renewing(cfg, a, b, now, gateway, todo) && id in todo
    ensures forall i :: IsOpen(b, i, id) <==> IsOpen(a, i, id)
  {
    hide IsNewRenewal;
  }

  lemma RenewingOne(cfg: Config, a: Db, b: Db, c: Db, now: nat, gateway: Gateway, todo: set<Id>, id: Id, i: Id)
    requires Renewing(cfg, a, b, now, gateway, todo) && id in todo && Raised(b, c, id, i)
    requires IsNewRenewal(cfg, a, c.invs[i], now, gateway)
    ensures Renewing(cfg, a, c, now, gateway, todo - {id})
  {
    hide IsNewRenewal, WantsRenewal;
    assert HasNew(a, c, id);
    forall x | WantsRenewal(cfg, a, x, now) && x !in todo - {id}
      ensures HasNew(a, c, x)
    {
      if x != id {
        var j :| j in b.invs && j !in a.invs && b.invs[j].sub == x;
        assert c.invs[j] == b.invs[j];
      }
    }
  }

  lemma RenewingNone(cfg: Config, a: Db, b: Db, now: nat, gateway: Gateway, todo: set<Id>, id: Id)
    requires Renewing(cfg, a, b, now, gateway, todo) && id in todo && !WantsRenewal(cfg, a, id, now)
    ensures Renewing(cfg, a, b, now, gateway, todo - {id})
  {
    hide IsNewRenewal, WantsRenewal, HasNew;
  }

  // ----- Which invoices expired, and which reminders went out -----

  /** The claims on the open invoices of some subscriptions. */
  function ClaimsOn(invs: map<Id, Invoice>, ids: set<Id>, kind: string): set<(Id, string)> {
    set i | i in invs && invs[i].status == Open && invs[i].sub in ids :: (i, kind)
  }

  lemma ClaimsAdd(invs: map<Id, Invoice>, ids: set<Id>, id: Id, kind: string)
    ensures ClaimsOn(invs, ids + {id}, kind) == ClaimsOn(invs, ids, kind) + OpenClaims(invs, id, kind)
  {}

  /** The open invoices of some subscriptions, expired. */
  function ExpireOf(invs: map<Id, Invoice>, ids: set<Id>): map<Id, Invoice> {
    map i | i in invs ::
      if invs[i].status == Open && invs[i].sub in ids then invs[i].(status := Expired, key := "expired:" + i)
          else invs[i]
  }

  lemma ExpireAdds(invs: map<Id, Invoice>, ids: set<Id>, id: Id)
    ensures ExpireOf(ExpireOf(invs, ids), {id}) == ExpireOf(invs, ids + {id})
  {
    hide ClosedKey;
  }

  lemma ExpireNone(invs: map<Id, Invoice>)
    ensures ExpireOf(invs, {}) == invs && forall kind :: ClaimsOn(invs, {}, kind) == {}
  {}

  /** A subscription not among those expired has its claims as before. */
  lemma ClaimsAfterExpiry(invs: map<Id, Invoice>, ids: set<Id>, id: Id, kind: string)
    requires id !in ids
    ensures OpenClaims(ExpireOf(invs, ids), id, kind) == OpenClaims(invs, id, kind)
  {
    hide ClosedKey;
    var e := ExpireOf(invs, ids);
    assert forall i :: i in invs && invs[i].sub == id ==> e[i] == invs[i];
    assert forall i :: i in invs ==> e[i].sub == invs[i].sub;
  }

  /** The subscriptions whose grace runs out. */
  ghost function GraceOver(cfg: Config, db: Db, now: nat): set<Id> {
    set id | id in db.subs && db.subs[id].status == Grace && db.subs[id].periodEnd + GraceOf(cfg, db.subs[id]) <= now
  }

  /** The unpaid subscriptions that can no longer be paid. */
  ghost function FirstsOver(db: Db, now: nat): set<Id> {
    set id | id in db.subs && db.subs[id].status == Pending && !Payable(db, id, now)
  }

  /** Expiring the open invoice of one subscription, in tables that may differ in its row. */
  lemma ExpireIsExpireOf(a: Db, b: Db, id: Id, open: Option<Id>)
    requires b.invs == a.invs && forall j :: IsOpen(b, j, id) <==> open == Some(j)
    ensures ExpireOf(a.invs, {id}) == if open.Some? then Expire(b, open.value).invs else a.invs
  {
    hide ClosedKey;
    if open.Some? {
      assert IsOpen(b, open.value, id);
      ClosedKeys(open.value);
    }
    forall i | i in a.invs && a.invs[i].status == Open && a.invs[i].sub == id
      ensures open == Some(i)
    {
      assert IsOpen(b, i, id);
    }
  }

  // ----- The third phase, so far -----

  /** The tables but for rows, invoices and reminders. */
  predicate SameFrame(a: Db, b: Db) {
    b.clock == a.clock && b.ledger == a.ledger && b.subs.Keys == a.subs.Keys
  }

  ghost predicate PeriodsEnded(cfg: Config, a: Db, b: Db, now: nat, todo: set<Id>) {
    && SameFrame(a, b) && b.invs == a.invs
    && (forall id :: id in a.subs ==> b.subs[id] == if id in todo then a.subs[id] else PeriodEnded(a.subs[id], now))
    && b.reminders == a.reminders + ClaimsOn(a.invs, SelectedIds(cfg, a, now, 3) - todo, OVERDUE)
  }

  lemma PeriodsStart(cfg: Config, a: Db, now: nat)
    ensures PeriodsEnded(cfg, a, a, now, SelectedIds(cfg, a, now, 3))
  {
    var all := SelectedIds(cfg, a, now, 3);
    assert all - all == {};
    ExpireNone(a.invs);
  }

  lemma PeriodIsNext(cfg: Config, a: Db, b: Db, now: nat, todo: set<Id>, id: Id)
    requires PeriodsEnded(cfg, a, b, now, todo) && id in todo && todo <= SelectedIds(cfg, a, now, 3)
    ensures id in b.subs && b.subs[id].status == Active && b.subs[id].periodEnd <= now && b.clock == a.clock
  {}

  lemma PeriodEndsNext(cfg: Config, a: Db, b: Db, c: Db, now: nat, todo: set<Id>, id: Id)
    requires PeriodsEnded(cfg, a, b, now, todo) && id in todo && todo <= SelectedIds(cfg, a, now, 3)
    requires id in b.subs && c.subs == b.subs[id := PeriodEnded(b.subs[id], now)] && c.invs == b.invs
    requires c.clock == b.clock && c.ledger == b.ledger && c.reminders == b.reminders + OpenClaims(b.invs, id, OVERDUE)
    ensures PeriodsEnded(cfg, a, c, now, todo - {id})
  {
    hide ClaimsOn, OpenClaims;
    var all := SelectedIds(cfg, a, now, 3);
    assert all - (todo - {id}) == (all - todo) + {id};
    ClaimsAdd(a.invs, all - todo, id, OVERDUE);
    hide SelectedIds, PeriodEnded;
  }

  /** The rows of the third phase add exactly the lapsing subscriptions to those in grace. */
  lemma LapsingIsCounted(cfg: Config, a: Db, b: Db, now: nat)
    requires PeriodsEnded(cfg, a, b, now, {})
    ensures Count(b, Grace) == Count(a, Grace) + |Lapsing(a, now)|
  {
    hide ClaimsOn, SelectedIds;
    assert WithStatus(b, Grace) == WithStatus(a, Grace) + Lapsing(a, now);
    assert WithStatus(a, Grace) !! Lapsing(a, now);
  }

  // ----- The fourth phase, so far -----

  ghost predicate GracesEnded(cfg: Config, a: Db, b: Db, now: nat, todo: set<Id>) {
    && SameFrame(a, b)
    && (forall id :: id in a.subs ==>
          b.subs[id] == if id in todo then a.subs[id] else GraceEnded(a.subs[id], GraceOf(cfg, a.subs[id]), now))
    && b.invs == ExpireOf(a.invs, GraceOver(cfg, a, now) - todo)
    && b.reminders == a.reminders + ClaimsOn(a.invs, GraceOver(cfg, a, now) - todo, SUSPENDED)
  }

  lemma GracesStart(cfg: Config, a: Db, now: nat)
    ensures GracesEnded(cfg, a, a, now, SelectedIds(cfg, a, now, 4))
  {
    assert GraceOver(cfg, a, now) - SelectedIds(cfg, a, now, 4) == {};
    ExpireNone(a.invs);
    hide ClaimsOn, ExpireOf, GraceOver;
  }

  lemma GraceIsNext(cfg: Config, a: Db, b: Db, now: nat, todo: set<Id>, id: Id)
    requires GracesEnded(cfg, a, b, now, todo) && id in todo && todo <= SelectedIds(cfg, a, now, 4)
    ensures id in b.subs && b.subs[id] == a.subs[id] && b.subs[id].status == Grace && b.clock == a.clock
  {
    hide ClaimsOn, ExpireOf, GraceOver;
  }

  lemma GraceEndsNext(cfg: Config, a: Db, b: Db, c: Db, now: nat, todo: set<Id>, id: Id)
    requires GracesEnded(cfg, a, b, now, todo) && id in todo && todo <= SelectedIds(cfg, a, now, 4)
    requires id in b.subs && c.subs == b.subs[id := GraceEnded(b.subs[id], GraceOf(cfg, b.subs[id]), now)]
    requires c.subs[id].status != Grace && c.clock == b.clock && c.ledger == b.ledger
    requires c.invs == ExpireOf(b.invs, {id}) && c.reminders == b.reminders + OpenClaims(b.invs, id, SUSPENDED)
    ensures GracesEnded(cfg, a, c, now, todo - {id})
  {
    hide ClaimsOn, OpenClaims, ExpireOf;
    GraceIsNext(cfg, a, b, now, todo, id);
    var over := GraceOver(cfg, a, now);
    assert id in over;
    assert over - (todo - {id}) == (over - todo) + {id};
    hide GraceOver, SelectedIds;
    ClaimsAdd(a.invs, over - todo, id, SUSPENDED);
    ClaimsAfterExpiry(a.invs, over - todo, id, SUSPENDED);
    ExpireAdds(a.invs, over - todo, id);
  }

  lemma GraceGoesOn(cfg: Config, a: Db, b: Db, now: nat, todo: set<Id>, id: Id)
    requires GracesEnded(cfg, a, b, now, todo) && id in todo && todo <= SelectedIds(cfg, a, now, 4)
    requires id in b.subs && GraceEnded(b.subs[id], GraceOf(cfg, b.subs[id]), now) == b.subs[id]
             && b.subs[id].status == Grace
    ensures GracesEnded(cfg, a, b, now, todo - {id})
  {
    hide ClaimsOn, ExpireOf;
    GraceIsNext(cfg, a, b, now, todo, id);
    assert id !in GraceOver(cfg, a, now);
    assert GraceOver(cfg, a, now) - (todo - {id}) == GraceOver(cfg, a, now) - todo;
    hide GraceOver, SelectedIds;
  }

  // ----- The fifth phase, so far -----

  ghost predicate FirstsEnded(a: Db, b: Db, now: nat, todo: set<Id>) {
    && SameFrame(a, b) && b.reminders == a.reminders
    && (forall id :: id in todo && id in a.subs ==> Payable(b, id, now) == Payable(a, id, now))
    && (forall id :: id in a.subs ==>
          b.subs[id] == if id in todo then a.subs[id] else FirstLapsed(a.subs[id], Payable(a, id, now)))
    && b.invs == ExpireOf(a.invs, FirstsOver(a, now) - todo)
  }

  lemma FirstsStart(cfg: Config, a: Db, now: nat)
    ensures FirstsEnded(a, a, now, SelectedIds(cfg, a, now, 5))
    ensures forall id :: id in SelectedIds(cfg, a, now, 5) ==> id in a.subs && a.subs[id].status == Pending
  {
    hide Payable;
    assert FirstsOver(a, now) - SelectedIds(cfg, a, now, 5) == {};
    ExpireNone(a.invs);
    hide ExpireOf, FirstsOver;
  }

  lemma FirstIsNext(a: Db, b: Db, now: nat, todo: set<Id>, id: Id)
    requires FirstsEnded(a, b, now, todo) && id in todo && id in a.subs
    ensures id in b.subs && b.subs[id] == a.subs[id] && b.clock == a.clock && Payable(b, id, now) == Payable(a, id, now)
  {
    hide Payable, ExpireOf, FirstsOver;
  }

  ghost predicate OtherFirstsPayable(a: Db, b: Db, id: Id, now: nat) {
    forall x :: x in a.subs && x != id ==> (Payable(a, x, now) <==> Payable(b, x, now))
  }

  lemma FirstEndsNext(a: Db, b: Db, c: Db, now: nat, todo: set<Id>, id: Id)
    requires FirstsEnded(a, b, now, todo) && id in todo && id in a.subs && a.subs[id].status == Pending
             && !Payable(b, id, now)
    requires id in b.subs && c.subs == b.subs[id := FirstLapsed(b.subs[id], false)] && OtherFirstsPayable(b, c, id, now)
    requires c.clock == b.clock && c.ledger == b.ledger && c.reminders == b.reminders
             && c.invs == ExpireOf(b.invs, {id})
    ensures FirstsEnded(a, c, now, todo - {id})
  {
    hide ExpireOf, Payable;
    FirstIsNext(a, b, now, todo, id);
    var over := FirstsOver(a, now);
    assert id in over;
    assert over - (todo - {id}) == (over - todo) + {id};
    hide FirstsOver;
    ExpireAdds(a.invs, over - todo, id);
  }

  lemma FirstGoesOn(a: Db, b: Db, now: nat, todo: set<Id>, id: Id)
    requires FirstsEnded(a, b, now, todo) && id in todo && id in a.subs && Payable(b, id, now)
    ensures FirstsEnded(a, b, now, todo - {id})
  {
    hide ExpireOf, Payable;
    FirstIsNext(a, b, now, todo, id);
    assert id !in FirstsOver(a, now);
    assert FirstsOver(a, now) - (todo - {id}) == FirstsOver(a, now) - todo;
    hide FirstsOver;
  }

  // ----- The phases that end things, together -----

  /** The subscriptions whose grace is over, seen before their period is ended. */
  ghost function GraceRunsOut(cfg: Config, db: Db, now: nat): set<Id> {
    set id | id in db.subs && db.subs[id].periodEnd + GraceOf(cfg, db.subs[id]) <= now
             && (db.subs[id].status == Grace || (db.subs[id].status == Active && !db.subs[id].cancelAtEnd))
  }

  /** The subscriptions whose open invoice expires. */
  ghost function Ending(cfg: Config, db: Db, now: nat): set<Id> {
    GraceRunsOut(cfg, db, now) + FirstsOver(db, now)
  }

  /** The subscriptions whose period has ended. */
  ghost function Overdue(db: Db, now: nat): set<Id> {
    set id | id in db.subs && db.subs[id].status == Active && db.subs[id].periodEnd <= now
  }

  lemma OverdueIsSelected(cfg: Config, db: Db, now: nat)
    ensures SelectedIds(cfg, db, now, 3) == Overdue(db, now)
  {}

  /** What the third to fifth phase make of the tables. */
  ghost predicate MovedOn(cfg: Config, a: Db, b: Db, now: nat) {
    && SameFrame(a, b)
    && (forall id :: id in a.subs ==>
       b.subs[id] == Ticked(a.subs[id], GraceOf(cfg, a.subs[id]), Payable(a, id, now), now))
    && b.invs == ExpireOf(a.invs, Ending(cfg, a, now))
    && b.reminders == a.reminders + ClaimsOn(a.invs, SelectedIds(cfg, a, now, 3), OVERDUE)
                      + ClaimsOn(a.invs, GraceRunsOut(cfg, a, now), SUSPENDED)
  }

  lemma PhaseRow(cfg: Config, s: Subscription, payable: bool, later: bool, now: nat)
    requires s.status == Pending ==> payable == later
    ensures var t := PeriodEnded(s, now);
            && GraceOf(cfg, t) == GraceOf(cfg, s)
            && FirstLapsed(GraceEnded(t, GraceOf(cfg, t), now), later) == Ticked(s, GraceOf(cfg, s), payable, now)
  {
    PhasesMakeTicked(s, GraceOf(cfg, s), payable, now);
  }

  lemma PhaseRows(cfg: Config, a: Db, b: Db, c: Db, d: Db, now: nat)
    requires PeriodsEnded(cfg, a, b, now, {}) && GracesEnded(cfg, b, c, now, {}) && FirstsEnded(c, d, now, {})
    requires SamePayable(a, c, now)
    ensures forall id :: id in a.subs ==>
              id in d.subs && d.subs[id] == Ticked(a.subs[id], GraceOf(cfg, a.subs[id]), Payable(a, id, now), now)
  {
    hide Payable, ClaimsOn, ExpireOf, GraceOver, FirstsOver, SelectedIds, PeriodEnded, GraceEnded, FirstLapsed, Ticked,
        GraceOf;
    forall id | id in a.subs
      ensures id in d.subs && d.subs[id] == Ticked(a.subs[id], GraceOf(cfg, a.subs[id]), Payable(a, id, now), now)
    {
      PhaseRow(cfg, a.subs[id], Payable(a, id, now), Payable(c, id, now), now);
    }
  }

  lemma PhaseSets(cfg: Config, a: Db, b: Db, c: Db, now: nat)
    requires PeriodsEnded(cfg, a, b, now, {}) && GracesEnded(cfg, b, c, now, {}) && SamePayable(a, c, now)
    ensures GraceOver(cfg, b, now) == GraceRunsOut(cfg, a, now) && FirstsOver(c, now) == FirstsOver(a, now)
  {
    hide Payable, ClaimsOn, ExpireOf, SelectedIds;
  }

  lemma ExpireTwice(invs: map<Id, Invoice>, x: set<Id>, y: set<Id>)
    ensures ExpireOf(ExpireOf(invs, x), y) == ExpireOf(invs, x + y)
  {
    hide ClosedKey;
  }

  lemma PhasesCompose(cfg: Config, a: Db, b: Db, c: Db, d: Db, now: nat)
    requires PeriodsEnded(cfg, a, b, now, {}) && GracesEnded(cfg, b, c, now, {}) && FirstsEnded(c, d, now, {})
    requires SamePayable(a, c, now)
    ensures MovedOn(cfg, a, d, now)
  {
    PhaseRows(cfg, a, b, c, d, now);
    PhaseSets(cfg, a, b, c, now);
    hide Payable, SamePayable, ClaimsOn, ExpireOf, GraceOver, FirstsOver, GraceRunsOut, SelectedIds;
    hide PeriodEnded, GraceEnded, FirstLapsed, Ticked, GraceOf;
    ExpireTwice(a.invs, GraceRunsOut(cfg, a, now), FirstsOver(a, now));
    assert SelectedIds(cfg, a, now, 3) - {} == SelectedIds(cfg, a, now, 3);
    assert GraceOver(cfg, b, now) - {} == GraceOver(cfg, b, now) && FirstsOver(c, now) - {} == FirstsOver(c, now);
  }

  // ----- The phases that bill, together -----

  /** An open invoice without a charge gets what the gateway answers now. */
  function Charged(inv: Invoice, charge: Option<Id>): Invoice {
    if inv.status == Open && inv.charge == None then inv.(charge := charge) else inv
  }

  /** An invoice the tick raised: the gateway was asked when it was raised, and again if that failed. */
  ghost predicate IsBilled(cfg: Config, a: Db, inv: Invoice, now: nat, gateway: Gateway, retry: Option<Id>) {
    && WantsRenewal(cfg, a, inv.sub, now) && inv.status == Open
    && IsNextPlan(a.subs[inv.sub], inv.plan) && RenewalTerms(cfg, inv, a.subs[inv.sub], inv.plan)
    && inv.charge == if gateway(inv.sub).Some? then gateway(inv.sub) else retry
  }

  /** The invoices once the tick has billed: one more for exactly the subscriptions that want a renewal. */
  ghost predicate Billed(cfg: Config, a: Db, invs: map<Id, Invoice>, now: nat, gateway: Gateway, retry: Gateway) {
    && (forall i :: i in a.invs ==> i in invs && invs[i] == Charged(a.invs[i], retry(i)))
    && (forall i :: i in invs && i !in a.invs ==> IsBilled(cfg, a, invs[i], now, gateway, retry(i)))
    && (forall i, j :: i in invs && j in invs && i !in a.invs && j !in a.invs && invs[i].sub == invs[j].sub ==> i == j)
    && (forall id :: WantsRenewal(cfg, a, id, now) ==> exists i :: i in invs && i !in a.invs && invs[i].sub == id)
  }

  /** The invoices the gateway had no charge for, and now has. */
  ghost function NewlyCharged(a: Db, invs: map<Id, Invoice>, gateway: Gateway, retry: Gateway): set<Id> {
    set i | i in invs && retry(i).Some?
            && if i in a.invs then a.invs[i].status == Open && a.invs[i].charge == None else gateway(invs[i].sub).None?
  }

  lemma ChargedIsBilled(cfg: Config, a: Db, inv: Invoice, now: nat, gateway: Gateway, retry: Option<Id>)
    requires IsNewRenewal(cfg, a, inv, now, gateway)
    ensures IsBilled(cfg, a, Charged(inv, retry), now, gateway, retry) && Charged(inv, retry).sub == inv.sub
  {}

  lemma BillingComposes(cfg: Config, a: Db, b: Db, c: Db, now: nat, gateway: Gateway, retry: Gateway)
    requires Renewing(cfg, a, b, now, gateway, {}) && b.invs.Keys == c.invs.Keys
    requires forall i :: i in c.invs ==> c.invs[i] == Charged(b.invs[i], retry(i))
    ensures Billed(cfg, a, c.invs, now, gateway, retry)
  {
    hide WantsRenewal, IsNewRenewal, IsBilled;
    assert forall i :: i in c.invs ==> c.invs[i].sub == b.invs[i].sub;
    forall i | i in c.invs && i !in a.invs
      ensures IsBilled(cfg, a, c.invs[i], now, gateway, retry(i))
    {
      ChargedIsBilled(cfg, a, b.invs[i], now, gateway, retry(i));
    }
    hide Charged;
    forall id | WantsRenewal(cfg, a, id, now)
      ensures exists i :: i in c.invs && i !in a.invs && c.invs[i].sub == id
    {
      assert HasNew(a, b, id);
      var i :| i in b.invs && i !in a.invs && b.invs[i].sub == id;
      assert c.invs[i].sub == id;
    }
  }

  lemma ChargesAreCounted(cfg: Config, a: Db, b: Db, c: Db, now: nat, gateway: Gateway, retry: Gateway)
    requires Renewing(cfg, a, b, now, gateway, {}) && b.invs.Keys == c.invs.Keys
    requires forall i :: i in c.invs ==> c.invs[i].sub == b.invs[i].sub
    ensures Chargeable(b, retry) == NewlyCharged(a, c.invs, gateway, retry)
  {
    hide WantsRenewal, HasNew, RenewalTerms;
    forall i | i in b.invs
      ensures i in Chargeable(b, retry) <==> i in NewlyCharged(a, c.invs, gateway, retry)
    {
      assert i !in a.invs ==> IsNewRenewal(cfg, a, b.invs[i], now, gateway);
    }
  }

  // ----- The whole tick -----

  /** The reminders of renewals coming due. */
  ghost function DueClaims(cfg: Config, db: Db, now: nat): set<(Id, string)> {
    set i, k | i in db.invs && 0 <= k < |cfg.remindBefore| && ComingDue(db, i, now)
               && db.invs[i].dueAt - now <= cfg.remindBefore[k] :: (i, "due:" + Decimal(cfg.remindBefore[k] / 86400))
  }

  lemma DueIsClaimed(cfg: Config, a: Db, b: Db, now: nat)
    requires b == a.(reminders := b.reminders) && a.reminders <= b.reminders
    requires AllReminded(cfg, b, now) && OnlyDue(cfg, b, b.reminders - a.reminders, now)
    ensures b.reminders == a.reminders + DueClaims(cfg, b, now)
  {
    hide Decimal;
    forall p | p in b.reminders && p !in a.reminders
      ensures p in DueClaims(cfg, b, now)
    {
      assert DueClaim(cfg, b, p, now);
    }
    forall p | p in DueClaims(cfg, b, now)
      ensures p in b.reminders
    {
      assert Reminded(cfg, b, p.0, now);
    }
  }

  /** What the tick does to the tables, once it is known what it billed. */
  ghost predicate TickedFrom(cfg: Config, a: Db, billed: map<Id, Invoice>, b: Db, now: nat) {
    && b.clock == now && b.ledger == a.ledger && b.subs.Keys == a.subs.Keys
    && (forall id :: id in a.subs ==>
       b.subs[id] == Ticked(a.subs[id], GraceOf(cfg, a.subs[id]), Payable(a, id, now), now))
    && b.invs == ExpireOf(billed, Ending(cfg, a, now))
    && b.reminders == a.reminders + ClaimsOn(billed, Overdue(a, now), "overdue")
                      + ClaimsOn(billed, GraceRunsOut(cfg, a, now), "suspended") + DueClaims(cfg, b, now)
  }

  lemma TickComposes(cfg: Config, a: Db, c: Db, f: Db, g: Db, now: nat)
    requires c.subs == a.subs && c.ledger == a.ledger && c.reminders == a.reminders && c.clock == now
             && SamePayable(a, c, now)
    requires MovedOn(cfg, c, f, now) && g == f.(reminders := g.reminders)
             && g.reminders == f.reminders + DueClaims(cfg, g, now)
    ensures TickedFrom(cfg, a, c.invs, g, now)
  {
    hide Payable, ClaimsOn, ExpireOf, DueClaims;
    assert FirstsOver(a, now) == FirstsOver(c, now) && GraceRunsOut(cfg, a, now) == GraceRunsOut(cfg, c, now);
    assert SelectedIds(cfg, a, now, 3) == SelectedIds(cfg, c, now, 3);
    OverdueIsSelected(cfg, a, now);
    hide FirstsOver, GraceRunsOut, SelectedIds, Overdue, GraceOf;
    forall id | id in a.subs
      ensures g.subs[id] == Ticked(a.subs[id], GraceOf(cfg, a.subs[id]), Payable(a, id, now), now)
    {
      assert a.subs[id].status != Pending || Payable(a, id, now) == Payable(c, id, now);
    }
  }

  // ----- What the phases leave alone -----

  lemma PeriodsFrame(cfg: Config, a: Db, b: Db, now: nat)
    requires PeriodsEnded(cfg, a, b, now, {})
    ensures b.clock == a.clock
  {}

  lemma GracesFrame(cfg: Config, a: Db, b: Db, now: nat)
    requires GracesEnded(cfg, a, b, now, {})
    ensures b.clock == a.clock
  {}

  lemma FirstsFrame(a: Db, b: Db, now: nat)
    requires FirstsEnded(a, b, now, {})
    ensures b.clock == a.clock && b.reminders == a.reminders
  {}

  lemma MovedFrame(cfg: Config, a: Db, b: Db, now: nat)
    requires MovedOn(cfg, a, b, now)
    ensures b.clock == a.clock && |b.invs| == |a.invs|
  {
    assert b.invs.Keys == a.invs.Keys;
    assert |b.invs| == |b.invs.Keys| && |a.invs| == |a.invs.Keys|;
  }

  /** What is billed does not depend on the clock the tables remember. */
  lemma ClockLeavesBills(cfg: Config, a: Db, invs: map<Id, Invoice>, now: nat, gateway: Gateway, retry: Gateway)
    requires Billed(cfg, a.(clock := now), invs, now, gateway, retry)
    ensures Billed(cfg, a, invs, now, gateway, retry)
    ensures NewlyCharged(a, invs, gateway, retry) == NewlyCharged(a.(clock := now), invs, gateway, retry)
  {
    var b := a.(clock := now);
    forall id
      ensures WantsRenewal(cfg, a, id, now) <==> WantsRenewal(cfg, b, id, now)
    {
      assert forall j :: IsOpen(a, j, id) <==> IsOpen(b, j, id);
    }
    hide WantsRenewal;
  }

  lemma SubsTellLapsing(a: Db, b: Db, now: nat)
    requires a.subs == b.subs
    ensures Lapsing(a, now) == Lapsing(b, now)
  {}
}
