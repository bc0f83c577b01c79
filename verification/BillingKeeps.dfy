/** Why each method of the billing loop keeps the tables in order, one table update at a time. */
module BillingKeeps {
  import opened Basics
  import opened Decimals
  import opened BillingTypes
  import opened BillingState

  datatype Config = Config(plans: Plans, lead: nat, firstTtl: nat, remindBefore: seq<nat>)

  datatype Result = Ok | Refusal

  datatype Payment = Extended | Already | Unexpected | NoInvoice

  datatype Reminder = Reminder(invoice: Id, kind: string)

  /** What one tick did. */
  datatype Tick = Tick(raised: nat, charges: nat, toGrace: nat, suspended: nat, cancelled: nat,
      reminders: seq<Reminder>)

  function DueKey(before: nat): string { "due:" + Decimal(before / 86400) }

  const OVERDUE := "overdue"
  const SUSPENDED := "suspended"

  /** The terms of an invoice: what it is for and when it is due. */
  predicate Terms(inv: Invoice, plan: Id, start: nat, end: nat, due: nat) {
    inv.plan == plan && inv.periodStart == start && inv.periodEnd == end && inv.dueAt == due
  }

  /** The plan the next period is for. */
  function NextPlanOf(s: Subscription): Id {
    if s.nextPlan.Some? then s.nextPlan.value else s.plan
  }

  /** The next period is for this plan: the one chosen for it, or else the current one. */
  predicate IsNextPlan(s: Subscription, plan: Id) {
    s.nextPlan == Some(plan) || (s.nextPlan == None && s.plan == plan)
  }

  /** The renewal is for the period after the current one, and due when that one ends. */
  predicate RenewalTerms(cfg: Config, inv: Invoice, s: Subscription, plan: Id) {
    plan in cfg.plans && Terms(inv, plan, s.periodEnd, s.periodEnd + cfg.plans[plan].cycle, s.periodEnd)
  }

  ghost predicate HasRenewal(db: Db, id: Id)
    requires id in db.subs
  {
    exists i :: IsOpen(db, i, id) && db.invs[i].periodStart == db.subs[id].periodEnd
  }

  /** Whether an invoice from `start` suits the subscription's status. */
  predicate MayRaise(s: Subscription, start: nat) {
    && !s.cancelAtEnd
    && match s.status
       case Pending => start == 0
       case Active => start == s.periodEnd
       case Grace => start == s.periodEnd
       case Suspended => start == 0 || start == s.periodEnd
       case Cancelled => false
  }

  lemma NumberAfterFirst(plans: Plans, db: Db, id: Id, n: nat)
    requires id in db.subs && SubInv(plans, db, id) && n >= 1 && NumbersBelow(db, id, n)
    ensures n > 1
  {
    hide KeyOf, OpenOk, PaidOk;
    var i :| Mine(db, i, id);
  }

  /** For a subscription past its first payment, an invoice for the next period is there exactly if one is open. */
  lemma RenewalIsTheOpenOne(plans: Plans, db: Db, id: Id)
    requires id in db.subs && SubInv(plans, db, id) && db.subs[id].status in {Active, Grace, Suspended}
    requires db.subs[id].status == Suspended ==> forall j :: !IsOpen(db, j, id)
    ensures db.subs[id].plan in plans && (db.subs[id].nextPlan.Some? ==> db.subs[id].nextPlan.value in plans)
    ensures forall i :: IsOpen(db, i, id) ==> db.invs[i].periodStart == db.subs[id].periodEnd
    ensures forall i :: Mine(db, i, id) && db.invs[i].status == Paid ==> db.invs[i].periodStart != db.subs[id].periodEnd
  {
    hide KeyOf, PairOk;
    forall i | Mine(db, i, id)
      ensures db.invs[i].status == Open ==> db.invs[i].periodStart == db.subs[id].periodEnd
      ensures db.invs[i].status == Paid ==> db.invs[i].periodStart != db.subs[id].periodEnd
    {
      assert InvoiceOk(plans, i, db.invs[i], db.subs[id]);
      assert db.subs[id].status == Suspended ==> !IsOpen(db, i, id);
    }
  }

  /** One new open invoice of `id`, numbered one above the highest of its others; nothing else changed. */
  ghost predicate Raised(a: Db, b: Db, id: Id, i: Id) {
    && b.subs == a.subs && b.reminders == a.reminders && b.clock == a.clock && b.ledger == a.ledger
    && i !in a.invs && b.invs.Keys == a.invs.Keys + {i}
    && (forall j :: j in a.invs ==> b.invs[j] == a.invs[j])
    && IsOpen(b, i, id) && NumbersBelow(a, id, b.invs[i].number)
    && exists j :: Mine(a, j, id) && a.invs[j].number + 1 == b.invs[i].number
  }

  lemma RaisedIsTheOpenOne(a: Db, b: Db, id: Id, i: Id)
    requires Raised(a, b, id, i) && forall j :: !IsOpen(a, j, id)
    ensures forall j :: IsOpen(b, j, id) <==> j == i
  {
    assert forall j :: j in a.invs ==> !IsOpen(a, j, id);
  }

  /** What was open for a subscription is void now. */
  ghost predicate Voided(a: Db, b: Db, id: Id) {
    forall i :: IsOpen(a, i, id) ==> i in b.invs && b.invs[i] == a.invs[i].(status := Void, key := "void:" + i)
  }

  lemma RaisedKeeps(a: Db, b: Db, id: Id, i: Id)
    requires Raised(a, b, id, i)
    ensures Step(a, b, id)
  {}

  // ----- Why the methods keep the tables in order -----

  /** What a method that works on one subscription does to the tables. */
  ghost predicate Step(a: Db, b: Db, id: Id) {
    Kept(a, b) && OnlySub(a, b, id) && b.ledger == a.ledger
  }

  lemma StayPut(a: Db)
    ensures Kept(a, a)
  {}

  lemma StepsCompose(a: Db, b: Db, c: Db, id: Id)
    requires Step(a, b, id) && Step(b, c, id)
    ensures Step(a, c, id)
  {
    KeptIsTransitive(a, b, c);
    hide Kept;
  }

  lemma ClockStep(a: Db, now: nat, id: Id)
    requires a.clock <= now
    ensures Step(a, a.(clock := now), id)
  {}

  lemma SubStep(a: Db, id: Id, s: Subscription)
    requires id in a.subs && SubKept(a.subs[id], s)
    ensures Step(a, PutSub(a, id, s), id)
  {}

  lemma ChargeStep(a: Db, b: Db, id: Id, i: Id)
    requires SameButCharges(a, b) && Mine(a, i, id) && forall j :: j in a.invs && j != i ==> b.invs[j] == a.invs[j]
    ensures Step(a, b, id)
  {}

  /** A change to the subscription row alone, which the invoices left open must allow. */
  lemma SubUpdate(plans: Plans, a: Db, id: Id, s: Subscription)
    requires Inv(plans, a) && id in a.subs && StatusOk(plans, s, a.clock)
    requires s.customer == a.subs[id].customer && s.periodStart == a.subs[id].periodStart
             && s.periodEnd == a.subs[id].periodEnd
    requires a.subs[id].status == Cancelled ==> s.status == Cancelled
    requires s.status != Pending || a.subs[id].status == Pending
    requires forall i :: IsOpen(a, i, id) ==> OpenOk(a.invs[i], s)
    ensures Inv(plans, PutSub(a, id, s)) && Step(a, PutSub(a, id, s), id)
  {
    hide Inv, SubInv, OpenOk, StatusOk, Kept, OnlySub, ClosedOrSame;
    var b := PutSub(a, id, s);
    InvSub(plans, a, id);
    SubStep(a, id, s);
    SameInvoicesClose(a, b, id);
    CloseKeeps(plans, a, b, id);
    InvFromOne(plans, a, b, id);
  }

  lemma SameInvoicesClose(a: Db, b: Db, id: Id)
    requires b.invs == a.invs
    ensures forall i :: Mine(b, i, id) <==> Mine(a, i, id)
    ensures forall i :: Mine(a, i, id) && Mine(b, i, id) ==> ClosedOrSame(a.invs[i], b.invs[i], i)
  {}

  lemma VoidStep(a: Db, id: Id)
    requires id in a.subs
    ensures Step(a, VoidOpen(a, id), id)
    ensures forall i :: Mine(VoidOpen(a, id), i, id) <==> Mine(a, i, id)
    ensures forall i :: Mine(a, i, id) && Mine(VoidOpen(a, id), i, id) ==>
            ClosedOrSame(a.invs[i], VoidOpen(a, id).invs[i], i)
    ensures forall j :: !IsOpen(VoidOpen(a, id), j, id)
  {
    hide ClosedKey;
  }

  lemma VoidOpenVoids(a: Db, id: Id)
    ensures Voided(a, VoidOpen(a, id), id)
  {
    hide ClosedKey;
    forall i | IsOpen(a, i, id)
      ensures VoidOpen(a, id).invs[i] == a.invs[i].(status := Void, key := "void:" + i)
    {
      ClosedKeys(i);
    }
  }

  lemma VoidKeeps(plans: Plans, a: Db, id: Id)
    requires Inv(plans, a) && id in a.subs
    ensures Inv(plans, VoidOpen(a, id)) && Step(a, VoidOpen(a, id), id)
    ensures forall j :: !IsOpen(VoidOpen(a, id), j, id)
  {
    hide Inv, SubInv, OpenOk, StatusOk, ClosedKey, Kept, OnlySub, ClosedOrSame;
    var b := VoidOpen(a, id);
    InvSub(plans, a, id);
    StatusOf(plans, a, id);
    VoidStep(a, id);
    CloseKeeps(plans, a, b, id);
    InvFromOne(plans, a, b, id);
  }

  lemma ExpireStep(a: Db, i: Id)
    requires i in a.invs && a.invs[i].sub in a.subs && a.invs[i].status == Open
    ensures Step(a, Expire(a, i), a.invs[i].sub)
    ensures forall j :: Mine(Expire(a, i), j, a.invs[i].sub) <==> Mine(a, j, a.invs[i].sub)
    ensures forall j :: Mine(a, j, a.invs[i].sub) && Mine(Expire(a, i), j, a.invs[i].sub) ==>
              ClosedOrSame(a.invs[j], Expire(a, i).invs[j], j)
  {
    hide ClosedKey;
  }

  lemma ExpireLeavesNoneOpen(plans: Plans, a: Db, i: Id)
    requires i in a.invs && a.invs[i].sub in a.subs && a.invs[i].status == Open && SubInv(plans, a, a.invs[i].sub)
    ensures forall j :: !IsOpen(Expire(a, i), j, a.invs[i].sub)
  {
    hide ClosedKey, SubInv;
    OnlyOneOpen(plans, a, i);
    assert forall j :: IsOpen(Expire(a, i), j, a.invs[i].sub) ==> IsOpen(a, j, a.invs[i].sub);
  }

  lemma OnlyOneOpen(plans: Plans, a: Db, i: Id)
    requires i in a.invs && a.invs[i].sub in a.subs && a.invs[i].status == Open && SubInv(plans, a, a.invs[i].sub)
    ensures forall j :: IsOpen(a, j, a.invs[i].sub) ==> j == i
  {
    hide InvoiceOk, StatusOk;
    assert Mine(a, i, a.invs[i].sub);
  }

  lemma ExpireKeeps(plans: Plans, a: Db, i: Id)
    requires Inv(plans, a) && i in a.invs && a.invs[i].sub in a.subs && a.invs[i].status == Open
    ensures Inv(plans, Expire(a, i)) && Step(a, Expire(a, i), a.invs[i].sub)
    ensures forall j :: !IsOpen(Expire(a, i), j, a.invs[i].sub)
  {
    hide Inv, SubInv, OpenOk, StatusOk, ClosedKey, Kept, OnlySub, ClosedOrSame;
    var b, id := Expire(a, i), a.invs[i].sub;
    InvSub(plans, a, id);
    StatusOf(plans, a, id);
    ExpireStep(a, i);
    ExpireLeavesNoneOpen(plans, a, i);
    CloseKeeps(plans, a, b, id);
    InvFromOne(plans, a, b, id);
  }

  lemma StatusOf(plans: Plans, db: Db, id: Id)
    requires id in db.subs && SubInv(plans, db, id)
    ensures StatusOk(plans, db.subs[id], db.clock)
  {}

  lemma InvoiceHasSub(plans: Plans, db: Db, i: Id)
    requires Inv(plans, db) && i in db.invs
    ensures db.invs[i].sub in db.subs && db.invs[i].plan in plans && plans[db.invs[i].plan].cycle > 0
  {
    hide KeyOf, PairOk;
    var id := db.invs[i].sub;
    assert SubInv(plans, db, id) && Mine(db, i, id);
  }

  lemma PayableIsLive(plans: Plans, db: Db, i: Id)
    requires i in db.invs && db.invs[i].status == Open && db.invs[i].sub in db.subs && SubInv(plans, db, db.invs[i].sub)
    ensures db.subs[db.invs[i].sub].status != Cancelled
  {
    hide KeyOf, PairOk;
    assert Mine(db, i, db.invs[i].sub);
  }

  /** A subscription with an open invoice does not end with its period. */
  lemma OpenMeansNoEnd(plans: Plans, db: Db, id: Id)
    requires id in db.subs && SubInv(plans, db, id)
    ensures StatusOk(plans, db.subs[id], db.clock)
    ensures (exists j :: IsOpen(db, j, id)) || db.subs[id].status == Pending ==> !db.subs[id].cancelAtEnd
  {
    hide KeyOf, PairOk;
    if j :| IsOpen(db, j, id) {
      assert Mine(db, j, id);
    }
  }

  /** The first invoice of a new subscription is not refused either. */
  lemma FirstNotRefused(plans: Plans, db: Db, id: Id, i: Id)
    requires Inv(plans, db) && id !in db.subs && i !in db.invs
    ensures !Refused(db.invs, i, id, 1, Decimal(0))
  {
    hide SubInv, BooksOk, Decimal;
  }

  lemma FirstInvoice(plans: Plans, a: Db, b: Db, id: Id, i: Id)
    requires Inv(plans, a) && id !in a.subs && i !in a.invs
    requires b.subs.Keys == a.subs.Keys + {id} && (forall x :: x in a.subs ==> b.subs[x] == a.subs[x])
    requires b.invs.Keys == a.invs.Keys + {i} && (forall j :: j in a.invs ==> b.invs[j] == a.invs[j])
    requires b.clock == a.clock && b.reminders == a.reminders && b.ledger == a.ledger
    requires var s := b.subs[id];
             s.plan in plans && s == Subscription(s.customer, s.plan, None, Pending, 0, 0, false)
             && b.invs[i].sub == id && b.invs[i].plan == s.plan && b.invs[i].number == 1 && b.invs[i].periodStart == 0
             && b.invs[i].status == Open && b.invs[i].key == Decimal(0)
             && CustomerIsFree(a, s.customer)
    ensures Inv(plans, b) && Step(a, b, id)
  {
    hide Decimal, SubInv, BooksOk;
    assert forall j :: Mine(b, j, id) <==> j == i;
    FirstSub(plans, b, id, i);
    assert OnlySub(a, b, id) && Kept(a, b);
    hide OnlySub, Kept, RowsOk;
    InvFromOne(plans, a, b, id);
  }

  lemma FirstSub(plans: Plans, b: Db, id: Id, i: Id)
    requires id in b.subs && i in b.invs && forall j :: Mine(b, j, id) <==> j == i
    requires var s := b.subs[id];
             s.plan in plans && s == Subscription(s.customer, s.plan, None, Pending, 0, 0, false)
             && b.invs[i].sub == id && b.invs[i].plan == s.plan && b.invs[i].number == 1 && b.invs[i].periodStart == 0
             && b.invs[i].status == Open && b.invs[i].key == Decimal(0)
    ensures SubInv(plans, b, id)
  {
    hide Decimal;
    assert Mine(b, i, id);
  }

  /** The ledger once the credits of an invoice are in. */
  function Topped(plans: Plans, db: Db, i: Id): seq<Credit>
    requires i in db.invs && db.invs[i].sub in db.subs && db.invs[i].plan in plans
  {
    var inv := db.invs[i];
    if plans[inv.plan].credits > 0
    then TopUpLedger(db.ledger, Credit(db.subs[inv.sub].customer, plans[inv.plan].credits, i)) else db.ledger
  }

  /** Paying an open invoice puts its credits on the books, once. */
  lemma PayBooks(plans: Plans, a: Db, b: Db, i: Id)
    requires BooksOk(plans, a) && i in a.invs && a.invs[i].status == Open && a.invs[i].sub in a.subs
             && a.invs[i].plan in plans
    requires b.ledger == Topped(plans, a, i)
    requires forall id :: id in a.subs ==> id in b.subs && b.subs[id].customer == a.subs[id].customer
    requires b.invs.Keys == a.invs.Keys && (forall j :: j in a.invs && j != i ==> b.invs[j] == a.invs[j])
    requires b.invs[i].status == Paid && b.invs[i].sub == a.invs[i].sub && b.invs[i].plan == a.invs[i].plan
    ensures BooksOk(plans, b)
  {
    assert !HasCredit(a.ledger, i);
    assert forall k :: 0 <= k < |a.ledger| ==> b.ledger[k] == a.ledger[k] && a.ledger[k].reference != i;
    TopUpCredits(a.ledger, Credit(a.subs[a.invs[i].sub].customer, plans[a.invs[i].plan].credits, i));
    forall j | j in b.invs && b.invs[j].status == Paid && PaysCredits(plans, b.invs[j].plan)
      ensures HasCredit(b.ledger, j)
    {
      if j != i {
        var k :| 0 <= k < |a.ledger| && a.ledger[k].reference == j;
        assert b.ledger[k].reference == j;
      }
    }
  }

  lemma PayKeepsInv(plans: Plans, a: Db, b: Db, i: Id, start: nat, end: nat)
    requires Inv(plans, a) && i in a.invs && a.invs[i].status == Open && a.invs[i].sub in a.subs
             && a.invs[i].plan in plans
    requires a.subs[a.invs[i].sub].periodEnd <= start < end && a.clock <= b.clock && a.reminders == b.reminders
    requires b.invs == a.invs[i := PaidInvoice(a.invs[i], i, start, end)]
    requires b.subs == a.subs[a.invs[i].sub := ExtendedSub(a.subs[a.invs[i].sub], a.invs[i], start, end)]
    requires b.ledger == Topped(plans, a, i)
    ensures Inv(plans, b) && Kept(a, b)
  {
    hide SubInv, RowsOk, BooksOk, ClosedKey, Topped;
    var id := a.invs[i].sub;
    InvSub(plans, a, id);
    PayKeeps(plans, a, b, i, start, end);
    PayableIsLive(plans, a, i);
    RowsFromOne(plans, a, b, id);
    PayBooks(plans, a, b, i);
    ToppedGrows(plans, a, i);
  }

  /** An open invoice has not been credited, so paying it does credit it. */
  lemma ToppedIsNew(plans: Plans, a: Db, i: Id)
    requires Inv(plans, a) && i in a.invs && a.invs[i].status == Open && a.invs[i].sub in a.subs
             && a.invs[i].plan in plans
    ensures var plan := plans[a.invs[i].plan];
            Topped(plans, a, i) == if plan.credits > 0
                                   then a.ledger + [Credit(a.subs[a.invs[i].sub].customer, plan.credits, i)]
                                       else a.ledger
  {
    hide RowsOk;
    assert !HasCredit(a.ledger, i);
  }

  lemma ToppedGrows(plans: Plans, a: Db, i: Id)
    requires i in a.invs && a.invs[i].sub in a.subs && a.invs[i].plan in plans
    ensures a.ledger <= Topped(plans, a, i)
  {}

  // ----- The tick -----

  lemma ReminderStep(a: Db, b: Db, id: Id)
    requires b == a.(reminders := b.reminders) && a.reminders <= b.reminders
    ensures Step(a, b, id)
  {}

  /** The open invoice of an active subscription suits it in grace as well; one that ends with its period has none. */
  lemma OpenAfterPeriod(plans: Plans, db: Db, id: Id)
    requires id in db.subs && SubInv(plans, db, id) && db.subs[id].status == Active && db.subs[id].periodEnd <= db.clock
    ensures var t := db.subs[id].(status := if db.subs[id].cancelAtEnd then Cancelled else Grace);
            StatusOk(plans, t, db.clock) && forall i :: IsOpen(db, i, id) ==> OpenOk(db.invs[i], t)
    ensures db.subs[id].cancelAtEnd ==> forall i :: !IsOpen(db, i, id)
  {
    hide KeyOf, PairOk;
    forall i | IsOpen(db, i, id)
      ensures !db.subs[id].cancelAtEnd && OpenOk(db.invs[i], db.subs[id])
    {
      assert Mine(db, i, id);
    }
  }

  /** The same for grace that ran out. */
  lemma OpenAfterGrace(plans: Plans, db: Db, id: Id)
    requires id in db.subs && SubInv(plans, db, id) && db.subs[id].status == Grace
    ensures var t := db.subs[id].(status := if db.subs[id].cancelAtEnd then Cancelled else Suspended);
            StatusOk(plans, t, db.clock) && forall i :: IsOpen(db, i, id) ==> OpenOk(db.invs[i], t)
    ensures db.subs[id].cancelAtEnd ==> forall i :: !IsOpen(db, i, id)
  {
    hide KeyOf, PairOk;
    forall i | IsOpen(db, i, id)
      ensures !db.subs[id].cancelAtEnd && OpenOk(db.invs[i], db.subs[id])
    {
      assert Mine(db, i, id);
    }
  }

  lemma OpenOkIgnoresPlan(plans: Plans, db: Db, id: Id, s: Subscription)
    requires id in db.subs && SubInv(plans, db, id) && s == db.subs[id].(plan := s.plan, nextPlan := s.nextPlan)
    ensures forall i :: IsOpen(db, i, id) ==> OpenOk(db.invs[i], s)
  {
    hide KeyOf, PairOk;
    forall i | IsOpen(db, i, id)
      ensures OpenOk(db.invs[i], db.subs[id])
    {
      assert Mine(db, i, id);
    }
  }

  lemma StayStep(a: Db, id: Id)
    ensures Step(a, a, id)
  {}

  lemma SameOpen(a: Db, b: Db, id: Id)
    requires a.invs == b.invs
    ensures forall i :: IsOpen(a, i, id) <==> IsOpen(b, i, id)
  {}

  /** An unpaid subscription closes together with its open invoice. */
  lemma LapseKeeps(plans: Plans, a: Db, id: Id, i: Id)
    requires Inv(plans, a) && id in a.subs && a.subs[id].status == Pending && forall j :: IsOpen(a, j, id) <==> j == i
    ensures var t := a.subs[id].(status := Cancelled);
            var b := Expire(PutSub(a, id, t), i);
            Inv(plans, b) && Step(a, b, id)
  {
    hide Inv, SubInv, ClosedKey, Kept, OnlySub;
    assert IsOpen(a, i, id);
    ExpireKeeps(plans, a, i);
    var c := Expire(a, i);
    var t := a.subs[id].(status := Cancelled);
    InvSub(plans, c, id);
    StatusOf(plans, c, id);
    SubUpdate(plans, c, id, t);
    StepsCompose(a, c, PutSub(c, id, t), id);
    assert PutSub(c, id, t) == Expire(PutSub(a, id, t), i);
  }
}
