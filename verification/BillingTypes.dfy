/** Subscriptions, invoices, plans, and the keys the unique indexes are built on. */
module BillingTypes {
  import opened Basics
  import opened Decimals

  type Id = string

  datatype SubStatus = Pending | Active | Grace | Suspended | Cancelled {
    /** Whether the customer is served in this state. */
    predicate IsServed() { Active? || Grace? }
  }

  datatype InvStatus = Open | Paid | Void | Expired {
    function Name(): string {
      match this
      case Open => "open"
      case Paid => "paid"
      case Void => "void"
      case Expired => "expired"
    }
  }

  /** A plan: credits per paid cycle, cycle length and grace in seconds. A cycle is never empty. */
  datatype Plan = Plan(credits: int, cycle: nat, grace: nat)

  type Plans = map<Id, Plan>

  ghost predicate ValidPlans(plans: Plans) {
    forall id :: id in plans ==> plans[id].cycle > 0
  }

  datatype Subscription = Subscription(
    customer: Id, plan: Id, nextPlan: Option<Id>, status: SubStatus,
    periodStart: nat, periodEnd: nat, cancelAtEnd: bool)
  {
    /** Served at `now`: in a served state, and not past the grace of its plan. */
    predicate IsServedAt(now: nat, grace: nat) {
      status.IsServed() && now < periodEnd + grace
    }
  }

  datatype Invoice = Invoice(
    sub: Id, plan: Id, number: nat, periodStart: nat, periodEnd: nat, key: string,
    status: InvStatus, charge: Option<Id>, dueAt: nat)

  /** Where the period bought by an invoice starts. */
  function PeriodStart(inv: Invoice, s: Subscription, now: nat): nat {
    if inv.number == 1 || inv.periodStart == 0 || s.status == Pending || s.status == Suspended then now
        else inv.periodStart
  }

  // ----- Period keys -----

  /** The key of an invoice that is no longer open. */
  function ClosedKey(status: InvStatus, id: Id): string {
    status.Name() + ":" + id
  }

  /** An open invoice claims its period; a closed one claims nothing but itself. */
  function KeyOf(id: Id, inv: Invoice): string {
    if inv.status == Open then Decimal(inv.periodStart) else ClosedKey(inv.status, id)
  }

  lemma ClosedKeys(i: Id)
    ensures ClosedKey(Paid, i) == "paid:" + i && ClosedKey(Void, i) == "void:" + i
            && ClosedKey(Expired, i) == "expired:" + i
  {}

  lemma ClosedKeyHasColon(s: InvStatus, i: Id)
    ensures ':' in ClosedKey(s, i)
  {
    assert ClosedKey(s, i)[|s.Name()|] == ':';
  }

  lemma ClosedKeyIsInjective(s: InvStatus, i: Id, t: InvStatus, j: Id)
    requires ClosedKey(s, i) == ClosedKey(t, j)
    ensures s == t && i == j
  {
    var a, b := ClosedKey(s, i), ClosedKey(t, j);
    assert a[0] == s.Name()[0] && b[0] == t.Name()[0];
    assert s == t;
    var n := |s.Name()| + 1;
    assert a[n..] == i && b[n..] == j;
  }

  /** Keys identify: equal keys mean the same open period, or the same closed invoice. */
  lemma KeysIdentify(i: Id, a: Invoice, j: Id, b: Invoice)
    requires KeyOf(i, a) == KeyOf(j, b)
    ensures (a.status == Open) == (b.status == Open)
    ensures a.status == Open ==> a.periodStart == b.periodStart
    ensures a.status != Open ==> i == j && a.status == b.status
  {
    DecimalHasNoColon(a.periodStart);
    DecimalHasNoColon(b.periodStart);
    ClosedKeyHasColon(a.status, i);
    ClosedKeyHasColon(b.status, j);
    if a.status == Open && b.status == Open {
      DecimalIsInjective(a.periodStart, b.periodStart);
    } else if a.status != Open && b.status != Open {
      ClosedKeyIsInjective(a.status, i, b.status, j);
    }
  }

  // ----- What both levels share -----

  /** The unique indexes (subscription, key) and (subscription, number) refuse an open invoice. */
  predicate Refused(invs: map<Id, Invoice>, i: Id, sub: Id, number: nat, key: string) {
    i in invs || exists j :: j in invs && invs[j].sub == sub && (invs[j].key == key || invs[j].number == number)
  }

  /** Identity columns never change, and a closed invoice stays as it is, but for its charge. */
  ghost predicate InvoiceKept(a: Invoice, b: Invoice) {
    && b.sub == a.sub && b.plan == a.plan && b.number == a.number
    && (a.status != Open ==> b == a.(charge := b.charge))
  }

  // ----- The ledger -----

  /** A ledger top-up: who got how much, under which reference. */
  datatype Credit = Credit(owner: Id, amount: int, reference: Id)

  /** Idempotent per reference: a second top-up under the same reference adds nothing. */
  function TopUpLedger(ledger: seq<Credit>, c: Credit): seq<Credit> {
    if HasCredit(ledger, c.reference) then ledger else ledger + [c]
  }

  /** Something was topped up under the reference. */
  predicate HasCredit(ledger: seq<Credit>, reference: Id) {
    exists k :: 0 <= k < |ledger| && ledger[k].reference == reference
  }

  /** No two top-ups share a reference. */
  ghost predicate CreditsDiffer(ledger: seq<Credit>) {
    forall k, l :: 0 <= k < l < |ledger| ==> ledger[k].reference != ledger[l].reference
  }

  /** An invoice whose plan pays credits. */
  predicate PaysCredits(plans: Plans, plan: Id) {
    plan in plans && plans[plan].credits > 0
  }

  /** A top-up is what its invoice promised, to the invoice's customer. */
  predicate CreditFits(plans: Plans, subs: map<Id, Subscription>, invs: map<Id, Invoice>, c: Credit) {
    && c.reference in invs && invs[c.reference].sub in subs && PaysCredits(plans, invs[c.reference].plan)
    && c == Credit(subs[invs[c.reference].sub].customer, plans[invs[c.reference].plan].credits, c.reference)
  }

  lemma TopUpCredits(ledger: seq<Credit>, c: Credit)
    ensures HasCredit(TopUpLedger(ledger, c), c.reference)
  {
    if k :| 0 <= k < |ledger| && ledger[k].reference == c.reference {
      assert TopUpLedger(ledger, c)[k].reference == c.reference;
    } else {
      assert TopUpLedger(ledger, c)[|ledger|].reference == c.reference;
    }
  }
}
