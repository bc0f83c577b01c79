/**
 The billing tables when public methods run one after another, and the
 invariant that holds between them: periods, open invoices, cancellation.
 */
module BillingState {
  import opened Basics
  import opened Decimals
  import opened BillingTypes

  /** The three tables, the latest clock reading any method has used, and the ledger. */
  datatype Db = Db(
    subs: map<Id, Subscription>, invs: map<Id, Invoice>, reminders: set<(Id, string)>, clock: nat, ledger: seq<Credit>)

  const EMPTY := Db(map[], map[], {}, 0, [])

  predicate Mine(db: Db, i: Id, id: Id) {
    i in db.invs && db.invs[i].sub == id
  }

  predicate IsOpen(db: Db, i: Id, id: Id) {
    Mine(db, i, id) && db.invs[i].status == Open
  }

  // ----- The invariant -----

  ghost predicate StatusOk(plans: Plans, s: Subscription, clock: nat) {
    && s.plan in plans && (s.nextPlan.Some? ==> s.nextPlan.value in plans)
    && match s.status
       case Pending => s.periodStart == 0 && s.periodEnd == 0 && !s.cancelAtEnd
       case Active => s.periodStart < s.periodEnd
       case Grace => s.periodStart < s.periodEnd <= clock
       case Suspended => s.periodStart < s.periodEnd <= clock && !s.cancelAtEnd
       case Cancelled => true
  }

  /** An open invoice belongs to a subscription that may still be paid for, and starts where it should. */
  ghost predicate OpenOk(inv: Invoice, s: Subscription) {
    && !s.cancelAtEnd
    && match s.status
       case Pending => inv.periodStart == 0
       case Active => inv.periodStart == s.periodEnd && inv.number > 1
       case Grace => inv.periodStart == s.periodEnd && inv.number > 1
       case Suspended => inv.periodStart == 0 || inv.periodStart == s.periodEnd
       case Cancelled => false
  }

  ghost predicate PaidOk(inv: Invoice, s: Subscription) {
    inv.periodStart < inv.periodEnd <= s.periodEnd && s.status != Pending
  }

  ghost predicate InvoiceOk(plans: Plans, i: Id, inv: Invoice, s: Subscription) {
    && inv.key == KeyOf(i, inv) && inv.number >= 1 && inv.plan in plans
    && (inv.status == Open ==> OpenOk(inv, s))
    && (inv.status == Paid ==> PaidOk(inv, s))
  }

  predicate Disjoint(a: Invoice, b: Invoice) {
    a.periodEnd <= b.periodStart || b.periodEnd <= a.periodStart
  }

  /** Two invoices of one subscription: one open at a time, distinct numbers, disjoint paid periods. */
  ghost predicate PairOk(a: Invoice, b: Invoice) {
    && a.number != b.number
    && !(a.status == Open && b.status == Open)
    && (a.status == Paid && b.status == Paid ==> Disjoint(a, b))
  }

  ghost predicate SubInv(plans: Plans, db: Db, id: Id)
    requires id in db.subs
  {
    && StatusOk(plans, db.subs[id], db.clock)
    && (exists i :: Mine(db, i, id))
    && (forall i :: Mine(db, i, id) ==> InvoiceOk(plans, i, db.invs[i], db.subs[id]))
    && (forall i, j :: Mine(db, i, id) && Mine(db, j, id) && i != j ==> PairOk(db.invs[i], db.invs[j]))
  }

  ghost predicate OneLivePerCustomer(db: Db) {
    forall a, b :: a in db.subs && b in db.subs && a != b && db.subs[a].customer == db.subs[b].customer ==>
      db.subs[a].status == Cancelled || db.subs[b].status == Cancelled
  }

  /** The ledger holds exactly the credits of the paid invoices, each once. */
  ghost predicate BooksOk(plans: Plans, db: Db) {
    && CreditsDiffer(db.ledger)
    && (forall k :: 0 <= k < |db.ledger| ==>
          CreditFits(plans, db.subs, db.invs, db.ledger[k]) && db.invs[db.ledger[k].reference].status == Paid)
    && (forall i :: i in db.invs && db.invs[i].status == Paid && PaysCredits(plans, db.invs[i].plan) ==>
       HasCredit(db.ledger, i))
  }

  /** Every subscription is in order, and no customer has two. */
  ghost predicate RowsOk(plans: Plans, db: Db) {
    && ValidPlans(plans)
    && (forall i :: i in db.invs ==> db.invs[i].sub in db.subs)
    && (forall id :: id in db.subs ==> SubInv(plans, db, id))
    && OneLivePerCustomer(db)
  }

  ghost predicate Inv(plans: Plans, db: Db) {
    RowsOk(plans, db) && BooksOk(plans, db)
  }

  // ----- What a method may do to the tables -----

  /** A cancelled subscription stays cancelled, and a period end only moves forward. */
  ghost predicate SubKept(a: Subscription, b: Subscription) {
    && b.customer == a.customer
    && (a.status == Cancelled ==> b.status == Cancelled && b.periodStart == a.periodStart && b.periodEnd == a.periodEnd)
    && ((b.periodStart == a.periodStart && b.periodEnd == a.periodEnd) || b.periodEnd > a.periodEnd)
  }

  /** What every method, and so every run of methods, keeps from `a` to `b`. */
  ghost predicate Kept(a: Db, b: Db) {
    && a.clock <= b.clock
    && (forall id :: id in a.subs ==> id in b.subs && SubKept(a.subs[id], b.subs[id]))
    && (forall i :: i in a.invs ==> i in b.invs && InvoiceKept(a.invs[i], b.invs[i]))
    && a.reminders <= b.reminders && a.ledger <= b.ledger
  }

  lemma KeptIsTransitive(a: Db, b: Db, c: Db)
    requires Kept(a, b) && Kept(b, c)
    ensures Kept(a, c)
  {}

  /** Nothing was paid, and nothing about what had been paid changed. */
  ghost predicate BooksKept(a: Db, b: Db) {
    && b.ledger == a.ledger
    && (forall id :: id in a.subs ==> id in b.subs && b.subs[id].customer == a.subs[id].customer)
    && (forall i :: i in a.invs && a.invs[i].status == Paid ==>
          i in b.invs && b.invs[i].status == Paid && b.invs[i].sub == a.invs[i].sub && b.invs[i].plan == a.invs[i].plan)
    && (forall i :: i in b.invs && b.invs[i].status == Paid ==> i in a.invs && a.invs[i].status == Paid)
  }

  lemma BooksStay(plans: Plans, a: Db, b: Db)
    requires Inv(plans, a) && BooksKept(a, b)
    ensures BooksOk(plans, b)
  {
    hide RowsOk;
  }

  // ----- One subscription at a time -----

  /** `b` differs from `a` only in subscription `id` and its invoices. */
  ghost predicate OnlySub(a: Db, b: Db, id: Id) {
    && a.subs.Keys <= b.subs.Keys <= a.subs.Keys + {id}
    && (forall x :: x in a.subs && x != id ==> b.subs[x] == a.subs[x])
    && (forall i :: i in a.invs ==> i in b.invs)
    && (forall i :: i in b.invs && b.invs[i].sub != id ==> i in a.invs && b.invs[i] == a.invs[i])
    && (forall i :: i in a.invs && a.invs[i].sub != id ==> b.invs[i] == a.invs[i])
    && a.clock <= b.clock
  }

  /** Nothing changed for subscription `x` but the time. */
  ghost predicate SameView(a: Db, b: Db, x: Id) {
    && x in a.subs && x in b.subs && b.subs[x] == a.subs[x] && a.clock <= b.clock
    && (forall i :: Mine(b, i, x) <==> Mine(a, i, x))
    && (forall i :: Mine(a, i, x) ==> b.invs[i] == a.invs[i])
  }

  lemma ViewKeepsInv(plans: Plans, a: Db, b: Db, x: Id)
    requires SameView(a, b, x) && SubInv(plans, a, x)
    ensures SubInv(plans, b, x)
  {
    hide InvoiceOk, PairOk, Mine;
    var i :| Mine(a, i, x);
    assert Mine(b, i, x);
  }

  lemma OtherSubs(plans: Plans, a: Db, b: Db, id: Id, x: Id)
    requires OnlySub(a, b, id) && x in a.subs && x != id && SubInv(plans, a, x)
    ensures x in b.subs && SubInv(plans, b, x)
  {
    hide SubInv;
    assert SameView(a, b, x);
    ViewKeepsInv(plans, a, b, x);
  }

  /** Checking the subscription a method worked on is enough. */
  lemma RowsFromOne(plans: Plans, a: Db, b: Db, id: Id)
    requires RowsOk(plans, a) && OnlySub(a, b, id)
    requires id in b.subs && SubInv(plans, b, id)
    requires id in a.subs ==>
               b.subs[id].customer == a.subs[id].customer
                   && (a.subs[id].status == Cancelled ==> b.subs[id].status == Cancelled)
    requires id !in a.subs ==> CustomerIsFree(a, b.subs[id].customer)
    ensures RowsOk(plans, b)
  {
    hide SubInv;
    forall x | x in b.subs
      ensures SubInv(plans, b, x)
    {
      if x != id {
        OtherSubs(plans, a, b, id, x);
      }
    }
  }

  /** The customer has no live subscription. */
  ghost predicate CustomerIsFree(db: Db, customer: Id) {
    forall x :: x in db.subs && db.subs[x].customer == customer ==> db.subs[x].status == Cancelled
  }

  lemma InvFromOne(plans: Plans, a: Db, b: Db, id: Id)
    requires Inv(plans, a) && OnlySub(a, b, id) && BooksKept(a, b)
    requires id in b.subs && SubInv(plans, b, id)
    requires id in a.subs ==>
               b.subs[id].customer == a.subs[id].customer
                   && (a.subs[id].status == Cancelled ==> b.subs[id].status == Cancelled)
    requires id !in a.subs ==> CustomerIsFree(a, b.subs[id].customer)
    ensures Inv(plans, b)
  {
    hide RowsOk, SubInv, BooksOk, BooksKept, OnlySub, CustomerIsFree;
    RowsFromOne(plans, a, b, id);
    BooksStay(plans, a, b);
  }

  /** Rows that differ in nothing the invariant looks at. */
  lemma SameRowsOk(plans: Plans, a: Db, b: Db)
    requires RowsOk(plans, a) && b.subs == a.subs && b.invs == a.invs && a.clock <= b.clock
    ensures RowsOk(plans, b)
  {
    hide SubInv;
    forall x | x in b.subs
      ensures SubInv(plans, b, x)
    {
      assert SameView(a, b, x);
      ViewKeepsInv(plans, a, b, x);
    }
  }

  /** Time passing and reminders being sent break nothing. */
  lemma SameRowsKeepInv(plans: Plans, a: Db, b: Db)
    requires Inv(plans, a) && b == a.(clock := b.clock, reminders := b.reminders) && a.clock <= b.clock
    ensures Inv(plans, b)
  {
    hide RowsOk, BooksOk;
    SameRowsOk(plans, a, b);
    BooksStay(plans, a, b);
  }

  lemma ClockMoves(plans: Plans, db: Db, now: nat)
    requires Inv(plans, db) && db.clock <= now
    ensures Inv(plans, db.(clock := now)) && Kept(db, db.(clock := now))
  {
    hide Inv;
    SameRowsKeepInv(plans, db, db.(clock := now));
  }

  // ----- The internal operations -----

  /** Void every open invoice of a subscription. */
  function VoidOpen(db: Db, id: Id): Db {
    db.(invs := map i | i in db.invs :: if IsOpen(db, i, id) then Closed(db.invs[i], i, Void) else db.invs[i])
  }

  function Closed(inv: Invoice, i: Id, to: InvStatus): Invoice {
    inv.(status := to, key := ClosedKey(to, i))
  }

  function Expire(db: Db, i: Id): Db {
    if i in db.invs && db.invs[i].status == Open then db.(invs := db.invs[i := Closed(db.invs[i], i, Expired)]) else db
  }

  function PutSub(db: Db, id: Id, s: Subscription): Db {
    db.(subs := db.subs[id := s])
  }

  function PutInvoice(db: Db, i: Id, inv: Invoice): Db {
    db.(invs := db.invs[i := inv])
  }

  /** An invoice that is as it was, but for its charge, or was open and is now void or expired. */
  ghost predicate ClosedOrSame(a: Invoice, b: Invoice, i: Id) {
    || b == a.(charge := b.charge)
    || (a.status == Open && (b == Closed(a, i, Void) || b == Closed(a, i, Expired)))
  }

  lemma ClosedOrSameIsOk(plans: Plans, a: Invoice, b: Invoice, i: Id, s: Subscription, t: Subscription)
    requires ClosedOrSame(a, b, i) && InvoiceOk(plans, i, a, s)
    requires t.periodEnd == s.periodEnd && (t.status != Pending || s.status == Pending)
    requires b.status == Open ==> OpenOk(b, t)
    ensures InvoiceOk(plans, i, b, t)
  {
    hide ClosedKey, Decimal;
  }

  /** Closing some invoices keeps a subscription in order, if its new status allows those left open. */
  lemma CloseKeeps(plans: Plans, a: Db, b: Db, id: Id)
    requires id in a.subs && SubInv(plans, a, id) && id in b.subs && StatusOk(plans, b.subs[id], b.clock)
    requires b.subs[id].periodEnd == a.subs[id].periodEnd
    requires b.subs[id].status != Pending || a.subs[id].status == Pending
    requires forall i :: Mine(b, i, id) <==> Mine(a, i, id)
    requires forall i :: Mine(a, i, id) && Mine(b, i, id) ==> ClosedOrSame(a.invs[i], b.invs[i], i)
    requires forall i :: IsOpen(b, i, id) ==> OpenOk(b.invs[i], b.subs[id])
    ensures SubInv(plans, b, id)
  {
    hide InvoiceOk, OpenOk, StatusOk;
    var i :| Mine(a, i, id);
    assert Mine(b, i, id);
    forall i | Mine(b, i, id)
      ensures InvoiceOk(plans, i, b.invs[i], b.subs[id])
    {
      ClosedOrSameIsOk(plans, a.invs[i], b.invs[i], i, a.subs[id], b.subs[id]);
    }
    forall i, j | Mine(b, i, id) && Mine(b, j, id) && i != j
      ensures PairOk(b.invs[i], b.invs[j])
    {
      assert PairOk(a.invs[i], a.invs[j]);
    }
  }

  /** Numbers already used by a subscription stay below `n`. */
  ghost predicate NumbersBelow(db: Db, id: Id, n: nat) {
    forall i :: Mine(db, i, id) ==> db.invs[i].number < n
  }

  /** Adding one open invoice with a new number to a subscription that has none open. */
  lemma RaiseKeeps(plans: Plans, a: Db, b: Db, id: Id, i: Id, inv: Invoice)
    requires id in a.subs && id in b.subs && SubInv(plans, a, id) && i !in a.invs
    requires b.subs[id] == a.subs[id] && b.clock == a.clock && b.invs == a.invs[i := inv]
    requires inv.sub == id && inv.status == Open && inv.key == Decimal(inv.periodStart) && inv.plan in plans
    requires NumbersBelow(a, id, inv.number) && OpenOk(inv, a.subs[id])
    requires forall j :: !IsOpen(a, j, id)
    ensures SubInv(plans, b, id)
  {
    hide OpenOk, Decimal;
    assert Mine(b, i, id);
    forall j | Mine(b, j, id)
      ensures InvoiceOk(plans, j, b.invs[j], b.subs[id])
    {
      assert j != i ==> Mine(a, j, id);
    }
    forall j, k | Mine(b, j, id) && Mine(b, k, id) && j != k
      ensures PairOk(b.invs[j], b.invs[k])
    {
      assert j != i ==> Mine(a, j, id) && !IsOpen(a, j, id);
      assert k != i ==> Mine(a, k, id) && !IsOpen(a, k, id);
    }
  }

  /** With nothing open, the unique indexes accept a new open invoice with a new number. */
  lemma NotRefused(plans: Plans, db: Db, id: Id, i: Id, number: nat, start: nat)
    requires id in db.subs && SubInv(plans, db, id) && i !in db.invs
    requires NumbersBelow(db, id, number) && forall j :: !IsOpen(db, j, id)
    ensures !Refused(db.invs, i, id, number, Decimal(start))
  {
    forall j | j in db.invs && db.invs[j].sub == id
      ensures db.invs[j].key != Decimal(start) && db.invs[j].number != number
    {
      assert Mine(db, j, id) && !IsOpen(db, j, id);
      ClosedKeyHasColon(db.invs[j].status, j);
      DecimalHasNoColon(start);
    }
  }

  /**
   Paid early or in grace, a period starts where the last one ended; the first
   one, and one after a suspension, starts when it is paid. So none starts
   before the last one ended.
   */
  lemma PaidPeriodIsLater(plans: Plans, db: Db, i: Id, now: nat)
    requires i in db.invs && db.invs[i].sub in db.subs && SubInv(plans, db, db.invs[i].sub)
    requires db.invs[i].status == Open && db.clock <= now
    ensures var s := db.subs[db.invs[i].sub];
            var start := PeriodStart(db.invs[i], s, now);
            start == (if s.status == Active || s.status == Grace then s.periodEnd else now) && start >= s.periodEnd
  {
    hide KeyOf;
    var id := db.invs[i].sub;
    assert Mine(db, i, id);
  }

  function PaidInvoice(inv: Invoice, i: Id, start: nat, end: nat): Invoice {
    inv.(status := Paid, key := ClosedKey(Paid, i), periodStart := start, periodEnd := end)
  }

  function ExtendedSub(s: Subscription, inv: Invoice, start: nat, end: nat): Subscription {
    s.(status := Active, plan := inv.plan, nextPlan := None, periodStart := start, periodEnd := end)
  }

  /** Paying the one open invoice keeps every paid period disjoint from the others. */
  lemma PayKeeps(plans: Plans, a: Db, b: Db, i: Id, start: nat, end: nat)
    requires i in a.invs && a.invs[i].status == Open && a.invs[i].sub in a.subs && SubInv(plans, a, a.invs[i].sub)
    requires a.subs[a.invs[i].sub].periodEnd <= start < end
    requires b.invs == a.invs[i := PaidInvoice(a.invs[i], i, start, end)] && a.clock <= b.clock
    requires a.invs[i].sub in b.subs && b.subs[a.invs[i].sub]
             == ExtendedSub(a.subs[a.invs[i].sub], a.invs[i], start, end)
    ensures SubInv(plans, b, a.invs[i].sub)
  {
    hide ClosedKey, Decimal;
    var id := a.invs[i].sub;
    assert Mine(a, i, id) && Mine(b, i, id);
    forall j | Mine(b, j, id)
      ensures InvoiceOk(plans, j, b.invs[j], b.subs[id])
    {
      assert Mine(a, j, id);
      assert j != i ==> PairOk(a.invs[i], a.invs[j]);
    }
    forall j, k | Mine(b, j, id) && Mine(b, k, id) && j != k
      ensures PairOk(b.invs[j], b.invs[k])
    {
      assert Mine(a, j, id) && Mine(a, k, id) && PairOk(a.invs[j], a.invs[k]);
    }
  }

  // ----- Charges -----

  /** The tables agree on everything but the charge columns. */
  ghost predicate SameButCharges(a: Db, b: Db) {
    && b.subs == a.subs && b.reminders == a.reminders && b.clock == a.clock && b.ledger == a.ledger
       && b.invs.Keys == a.invs.Keys
    && forall i :: i in a.invs ==> b.invs[i] == a.invs[i].(charge := b.invs[i].charge)
  }

  lemma ChargesKeepSub(plans: Plans, a: Db, b: Db, id: Id)
    requires id in a.subs && SubInv(plans, a, id) && SameButCharges(a, b)
    ensures SubInv(plans, b, id)
  {
    hide OpenOk, StatusOk, PaidOk, PairOk, KeyOf;
    forall i | IsOpen(b, i, id)
      ensures OpenOk(b.invs[i], b.subs[id])
    {
      assert Mine(a, i, id) && InvoiceOk(plans, i, a.invs[i], a.subs[id]);
      OpenOkIgnoresCharge(a.invs[i], b.invs[i], a.subs[id]);
    }
    CloseKeeps(plans, a, b, id);
  }

  lemma ChargesKeepRows(plans: Plans, a: Db, b: Db)
    requires RowsOk(plans, a) && SameButCharges(a, b)
    ensures RowsOk(plans, b)
  {
    hide SubInv;
    forall id | id in b.subs
      ensures SubInv(plans, b, id)
    {
      ChargesKeepSub(plans, a, b, id);
    }
  }

  lemma ChargesKeepInv(plans: Plans, a: Db, b: Db)
    requires Inv(plans, a) && SameButCharges(a, b)
    ensures Inv(plans, b) && Kept(a, b)
  {
    hide RowsOk, BooksOk;
    ChargesKeepRows(plans, a, b);
    BooksStay(plans, a, b);
  }

  lemma InvSub(plans: Plans, db: Db, id: Id)
    requires Inv(plans, db) && id in db.subs
    ensures SubInv(plans, db, id)
  {
    hide SubInv;
  }

  lemma OpenOkIgnoresCharge(a: Invoice, b: Invoice, s: Subscription)
    requires b == a.(charge := b.charge)
    ensures OpenOk(a, s) <==> OpenOk(b, s)
  {}
}
