/**
 The billing protocol at the level of single database, ledger and gateway
 statements.  Any number of ticks, webhooks and user calls may interleave their
 statements in any order, with any stale values in their parameters, and may
 crash between any two; `on_paid` calls carry their local state explicitly.
 */
module BillingSteps {
  import opened Basics
  import opened Decimals
  import opened BillingTypes

  /** Where an `on_paid` call stands. What it has read so far travels with it. */
  datatype Call =
    | Begun(inv: Id)
    | HasInvoice(inv: Id, row: Invoice)
    | HasSubscription(inv: Id, row: Invoice, sub: Subscription)
    | HasTime(inv: Id, row: Invoice, sub: Subscription, start: nat, end: nat)
    | HasCredited(inv: Id, row: Invoice, sub: Subscription, start: nat, end: nat)
    | Returned(inv: Id, outcome: Outcome)

  datatype Outcome = Extended | Already | Unexpected | Failed

  datatype State = State(
    subs: map<Id, Subscription>,
    invs: map<Id, Invoice>,
    ledger: seq<Credit>,
    /** Claimed (invoice, kind) pairs, and the reminders actually handed out, in order. */
    reminders: set<(Id, string)>,
    emitted: seq<(Id, string)>,
    calls: map<nat, Call>,
    /** Invoices for which some call returned `Extended`, in order. */
    extended: seq<Id>)

  const EMPTY := State(map[], map[], [], {}, [], map[], [])

  /** One statement of one caller. */
  datatype Step =
    | InsertSubscription(id: Id, customer: Id, plan: Id)
    | InsertInvoice(inv: Id, sub: Id, plan: Id, number: nat, start: nat, end: nat, due: nat)
    | CloseInvoice(inv: Id, to: InvStatus)
    | StoreCharge(inv: Id, charge: Id)
    | LoseCharge(inv: Id)
    | DropCharge(inv: Id)
    | MoveStatus(id: Id, from: SubStatus, into: SubStatus)
    | CancelNow(id: Id)
    | CancelAtEnd(id: Id)
    | SetPlan(id: Id, plan: Id)
    | SetNextPlan(id: Id, next: Option<Id>)
    | Remind(inv: Id, kind: string, crashes: bool)
    | Call(call: nat, inv: Id)
    | ReadInvoice(call: nat)
    | ReadSubscription(call: nat)
    | ReadClock(call: nat, now: nat)
    | TopUp(call: nat)
    | PayTransaction(call: nat)
    | Crash(call: nat)

  /** The transitions the code asks for. */
  predicate IsTransition(from: SubStatus, to: SubStatus) {
    match from
    case Active => to == Grace || to == Cancelled
    case Grace => to == Suspended || to == Cancelled
    case Pending => to == Cancelled
    case _ => false
  }

  function UpdateInvoice(s: State, id: Id, inv: Invoice): State {
    s.(invs := s.invs[id := inv])
  }

  function UpdateSub(s: State, id: Id, sub: Subscription): State {
    s.(subs := s.subs[id := sub])
  }

  function UpdateCall(s: State, call: nat, to: Call): State {
    s.(calls := s.calls[call := to])
  }

  /** The statement-level semantics: guarded updates change nothing when their guard fails. */
  function Next(plans: Plans, s: State, step: Step): State {
    match step
    case InsertSubscription(id, customer, plan) =>
      if id in s.subs then s
      else UpdateSub(s, id, Subscription(customer, plan, None, Pending, 0, 0, false))
    case InsertInvoice(inv, sub, plan, number, start, end, due) =>
      if Refused(s.invs, inv, sub, number, Decimal(start)) then s
      else UpdateInvoice(s, inv, Invoice(sub, plan, number, start, end, Decimal(start), Open, None, due))
    case CloseInvoice(inv, to) =>
      if inv in s.invs && s.invs[inv].status == Open && (to == Void || to == Expired)
      then UpdateInvoice(s, inv, s.invs[inv].(status := to, key := ClosedKey(to, inv)))
      else s
    case StoreCharge(inv, charge) =>
      if inv in s.invs && s.invs[inv].status == Open && s.invs[inv].charge == None
      then UpdateInvoice(s, inv, s.invs[inv].(charge := Some(charge))) else s
    case LoseCharge(inv) =>
      if inv in s.invs && s.invs[inv].status == Open
      then UpdateInvoice(s, inv, s.invs[inv].(charge := None)) else s
    case DropCharge(inv) =>
      if inv in s.invs then UpdateInvoice(s, inv, s.invs[inv].(charge := None)) else s
    case MoveStatus(id, from, into) =>
      if id in s.subs && s.subs[id].status == from && IsTransition(from, into)
      then UpdateSub(s, id, s.subs[id].(status := into)) else s
    case CancelNow(id) =>
      if id in s.subs then UpdateSub(s, id, s.subs[id].(status := Cancelled, cancelAtEnd := true)) else s
    case CancelAtEnd(id) =>
      if id in s.subs then UpdateSub(s, id, s.subs[id].(cancelAtEnd := true)) else s
    case SetPlan(id, plan) =>
      if id in s.subs then UpdateSub(s, id, s.subs[id].(plan := plan)) else s
    case SetNextPlan(id, next) =>
      if id in s.subs then UpdateSub(s, id, s.subs[id].(nextPlan := next)) else s
    case Remind(inv, kind, crashes) =>
      if (inv, kind) in s.reminders then s
      else s.(reminders := s.reminders + {(inv, kind)}, emitted := if crashes then s.emitted
          else s.emitted + [(inv, kind)])
    case Call(call, inv) =>
      if call in s.calls then s else UpdateCall(s, call, Begun(inv))
    case Crash(call) =>
      s.(calls := s.calls - {call})
    case ReadInvoice(call) => if call in s.calls then NextReadInvoice(s, call, s.calls[call]) else s
    case ReadSubscription(call) => if call in s.calls then NextReadSubscription(s, call, s.calls[call]) else s
    case ReadClock(call, now) => if call in s.calls then NextReadClock(plans, s, call, s.calls[call], now) else s
    case TopUp(call) => if call in s.calls then NextTopUp(plans, s, call, s.calls[call]) else s
    case PayTransaction(call) => if call in s.calls then NextPay(s, call, s.calls[call]) else s
  }

  function NextReadInvoice(s: State, call: nat, c: Call): State {
    if !c.Begun? then s
    else if c.inv !in s.invs then UpdateCall(s, call, Returned(c.inv, Failed))
    else match s.invs[c.inv].status
      case Open => UpdateCall(s, call, HasInvoice(c.inv, s.invs[c.inv]))
      case Paid => UpdateCall(s, call, Returned(c.inv, Already))
      case _ => UpdateCall(s, call, Returned(c.inv, Unexpected))
  }

  function NextReadSubscription(s: State, call: nat, c: Call): State {
    if !c.HasInvoice? then s
    else if c.row.sub !in s.subs then UpdateCall(s, call, Returned(c.inv, Failed))
    else UpdateCall(s, call, HasSubscription(c.inv, c.row, s.subs[c.row.sub]))
  }

  function NextReadClock(plans: Plans, s: State, call: nat, c: Call, now: nat): State {
    if !c.HasSubscription? then s
    else if c.row.plan !in plans then UpdateCall(s, call, Returned(c.inv, Failed))
    else
      var start := PeriodStart(c.row, c.sub, now);
      UpdateCall(s, call, HasTime(c.inv, c.row, c.sub, start, start + plans[c.row.plan].cycle))
  }

  /** The credits go in first, so that a crash leaves a state a retry completes. */
  function NextTopUp(plans: Plans, s: State, call: nat, c: Call): State {
    if !c.HasTime? || c.row.plan !in plans then s
    else
      var next := UpdateCall(s, call, HasCredited(c.inv, c.row, c.sub, c.start, c.end));
      var credits := plans[c.row.plan].credits;
      if credits > 0 then next.(ledger := TopUpLedger(s.ledger, Credit(c.sub.customer, credits, c.inv))) else next
  }

  /** One transaction: flip the invoice if it is still open, and extend the subscription. */
  function NextPay(s: State, call: nat, c: Call): State {
    if !c.HasCredited? then s
    else if c.inv !in s.invs || s.invs[c.inv].status != Open then UpdateCall(s, call, Returned(c.inv, Already))
    else
      var paid := UpdateInvoice(s, c.inv,
        s.invs[c.inv].(status := Paid, key := ClosedKey(Paid, c.inv), periodStart := c.start, periodEnd := c.end));
      var extended := if c.row.sub in s.subs
        then UpdateSub(paid, c.row.sub,
          s.subs[c.row.sub].(status := Active, plan := c.row.plan, nextPlan := None, periodStart := c.start,
              periodEnd := c.end))
        else paid;
      UpdateCall(extended, call, Returned(c.inv, Extended)).(extended := s.extended + [c.inv])
  }

  /** Any interleaving: the state after a sequence of statements. */
  function Run(plans: Plans, s: State, steps: seq<Step>): State
    decreases |steps|
  {
    if steps == [] then s else Run(plans, Next(plans, s, steps[0]), steps[1..])
  }

  /** Which statements change a status, insert an invoice or close one; all others of their kind find nothing to do. */
  lemma GuardsAre(plans: Plans, s: State, id: Id, from: SubStatus, into: SubStatus, inv: Id, number: nat, start: nat)
    ensures id in s.subs && s.subs[id].status == from ==>
              var t := Next(plans, s, MoveStatus(id, from, into));
              t == if (from, into) in {(Active, Grace), (Active, Cancelled), (Grace, Suspended), (Grace, Cancelled),
                                       (Pending, Cancelled)}
                   then s.(subs := s.subs[id := s.subs[id].(status := into)]) else s
    ensures id in s.subs && s.subs[id].status != from ==> Next(plans, s, MoveStatus(id, from, into)) == s
    ensures inv in Next(plans, s, InsertInvoice(inv, id, id, number, start, start, start)).invs && inv !in s.invs <==>
              inv !in s.invs && forall j :: j in s.invs && s.invs[j].sub == id ==>
                s.invs[j].key != Decimal(start) && s.invs[j].number != number
  {
    hide Decimal, NextReadInvoice, NextReadSubscription, NextReadClock, NextTopUp, NextPay;
  }

  /**
   A reminder is handed out exactly if nobody has claimed it and its caller lives to hand it
   out; it is claimed anyway.
   */
  lemma RemindersGoOut(plans: Plans, s: State, inv: Id, kind: string, crashes: bool)
    ensures var t := Next(plans, s, Remind(inv, kind, crashes));
            && t.reminders == s.reminders + {(inv, kind)}
            && t.emitted == s.emitted + (if (inv, kind) !in s.reminders && !crashes then [(inv, kind)] else [])
            && t == s.(reminders := t.reminders, emitted := t.emitted)
  {
    hide NextReadInvoice, NextReadSubscription, NextReadClock, NextTopUp, NextPay;
    if (inv, kind) in s.reminders {
      assert s.reminders + {(inv, kind)} == s.reminders;
    }
  }

  // ----- The invariant -----

  /** Every key is the one its status calls for. */
  ghost predicate KeysFit(s: State) {
    forall i :: i in s.invs ==> s.invs[i].key == KeyOf(i, s.invs[i])
  }

  /** The unique indexes hold; in particular no close is ever refused. */
  ghost predicate KeysUnique(s: State) {
    forall i, j :: i in s.invs && j in s.invs && i != j && s.invs[i].sub == s.invs[j].sub ==>
      s.invs[i].key != s.invs[j].key && s.invs[i].number != s.invs[j].number
  }

  ghost predicate Credited(s: State, inv: Id) {
    HasCredit(s.ledger, inv)
  }

  /** No two top-ups share a reference. */
  ghost predicate LedgerUnique(s: State) {
    CreditsDiffer(s.ledger)
  }

  /** Every top-up is what its invoice promised, to the invoice's customer. */
  ghost predicate LedgerMatches(plans: Plans, s: State) {
    forall k :: 0 <= k < |s.ledger| ==> CreditFits(plans, s.subs, s.invs, s.ledger[k])
  }

  /** What a call read is still true of the columns that never change. */
  ghost predicate CallFits(plans: Plans, s: State, c: Call) {
    match c
    case HasInvoice(inv, row) => RowFits(s, inv, row)
    case HasSubscription(inv, row, sub) => RowFits(s, inv, row) && SubFits(s, row, sub)
    case HasTime(inv, row, sub, start, end) => RowFits(s, inv, row) && SubFits(s, row, sub)
    case HasCredited(inv, row, sub, start, end) =>
      RowFits(s, inv, row) && SubFits(s, row, sub) && (PaysCredits(plans, row.plan) ==> Credited(s, inv))
    case _ => true
  }

  ghost predicate RowFits(s: State, inv: Id, row: Invoice) {
    inv in s.invs && s.invs[inv].sub == row.sub && s.invs[inv].plan == row.plan
  }

  ghost predicate SubFits(s: State, row: Invoice, sub: Subscription) {
    row.sub in s.subs && s.subs[row.sub].customer == sub.customer
  }

  ghost predicate CallsFit(plans: Plans, s: State) {
    forall c :: c in s.calls ==> CallFits(plans, s, s.calls[c])
  }

  /** Every paid invoice is credited, and nothing was extended twice. */
  ghost predicate PaidIsCredited(plans: Plans, s: State) {
    forall i :: i in s.invs && s.invs[i].status == Paid && PaysCredits(plans, s.invs[i].plan) ==> Credited(s, i)
  }

  ghost predicate ExtendedOnce(s: State) {
    && (forall k :: 0 <= k < |s.extended| ==> s.extended[k] in s.invs && s.invs[s.extended[k]].status == Paid)
    && (forall k, l :: 0 <= k < l < |s.extended| ==> s.extended[k] != s.extended[l])
    && (forall i :: i in s.invs && s.invs[i].status == Paid ==> i in s.extended)
  }

  /** A subscription that is or was served runs exactly the period of some paid invoice of its own. */
  predicate PaysFor(inv: Invoice, id: Id, sub: Subscription) {
    inv.sub == id && inv.status == Paid && inv.periodStart == sub.periodStart && inv.periodEnd == sub.periodEnd
  }

  ghost predicate HasPaidPeriod(s: State, id: Id)
    requires id in s.subs
  {
    exists i :: i in s.invs && PaysFor(s.invs[i], id, s.subs[id])
  }

  ghost predicate ServedIsPaid(s: State) {
    forall id :: id in s.subs && s.subs[id].status in {Active, Grace, Suspended} ==> HasPaidPeriod(s, id)
  }

  ghost predicate RemindersOnce(s: State) {
    && (forall k :: 0 <= k < |s.emitted| ==> s.emitted[k] in s.reminders)
    && (forall k, l :: 0 <= k < l < |s.emitted| ==> s.emitted[k] != s.emitted[l])
  }

  ghost predicate Inv(plans: Plans, s: State) {
    && KeysFit(s) && KeysUnique(s)
    && LedgerUnique(s) && LedgerMatches(plans, s)
    && CallsFit(plans, s) && PaidIsCredited(plans, s) && ExtendedOnce(s)
    && ServedIsPaid(s) && RemindersOnce(s)
  }

  // ----- What every statement keeps -----

  /** What no statement ever undoes. */
  ghost predicate Keeps(s: State, t: State) {
    && (forall i :: i in s.invs ==> i in t.invs && InvoiceKept(s.invs[i], t.invs[i]))
    && (forall id :: id in s.subs ==> id in t.subs && t.subs[id].customer == s.subs[id].customer)
    && s.ledger <= t.ledger && s.reminders <= t.reminders && s.emitted <= t.emitted && s.extended <= t.extended
  }

  lemma StepKeeps(plans: Plans, s: State, step: Step)
    ensures Keeps(s, Next(plans, s, step))
  {
    hide ClosedKey, Decimal, NextReadInvoice, NextReadSubscription, NextReadClock, NextTopUp, NextPay;
    match step
    case ReadInvoice(call) => CallKeeps(plans, s, step, call);
    case ReadSubscription(call) => CallKeeps(plans, s, step, call);
    case ReadClock(call, now) => CallKeeps(plans, s, step, call);
    case TopUp(call) => CallKeeps(plans, s, step, call);
    case PayTransaction(call) => PayKeeps(s, call);
    case InsertInvoice(inv, _, _, _, _, _, _) => InvoiceKeeps(plans, s, step);
    case CloseInvoice(_, _) => InvoiceKeeps(plans, s, step);
    case StoreCharge(_, _) => InvoiceKeeps(plans, s, step);
    case LoseCharge(_) => InvoiceKeeps(plans, s, step);
    case DropCharge(_) => InvoiceKeeps(plans, s, step);
    case _ =>
  }

  lemma InvoiceKeeps(plans: Plans, s: State, step: Step)
    requires step.InsertInvoice? || step.CloseInvoice? || step.StoreCharge? || step.LoseCharge? || step.DropCharge?
    ensures Keeps(s, Next(plans, s, step))
  {
    hide ClosedKey, Decimal;
  }

  lemma CallKeeps(plans: Plans, s: State, step: Step, call: nat)
    requires step in {ReadInvoice(call), ReadSubscription(call), TopUp(call)} || (step.ReadClock? && step.call == call)
    ensures Keeps(s, Next(plans, s, step))
  {
    hide PeriodStart, Keeps;
    var t := Next(plans, s, step);
    assert t == s.(calls := t.calls, ledger := t.ledger) && s.ledger <= t.ledger;
    SameRowsKeep(s, t);
  }

  lemma SameRowsKeep(s: State, t: State)
    requires t == s.(calls := t.calls, ledger := t.ledger) && s.ledger <= t.ledger
    ensures Keeps(s, t)
  {}

  lemma PayKeeps(s: State, call: nat)
    ensures call in s.calls ==> Keeps(s, NextPay(s, call, s.calls[call]))
    ensures Keeps(s, s)
  {
    hide ClosedKey;
  }

  lemma KeepsCallFit(plans: Plans, s: State, t: State, c: Call)
    requires Keeps(s, t) && CallFits(plans, s, c)
    ensures CallFits(plans, t, c)
  {
    if c.HasCredited? && PaysCredits(plans, c.row.plan) {
      var k :| 0 <= k < |s.ledger| && s.ledger[k].reference == c.inv;
      assert t.ledger[k] == s.ledger[k];
    }
  }

  lemma SameInvoices(s: State, t: State)
    requires KeysFit(s) && KeysUnique(s) && t.invs == s.invs
    ensures KeysFit(t) && KeysUnique(t)
  {
    hide KeyOf;
  }

  /** Statements that touch only subscriptions, and never start serving one. */
  lemma SubscriptionStep(plans: Plans, s: State, t: State)
    requires Inv(plans, s) && Keeps(s, t)
    requires t == s.(subs := t.subs)
    requires forall id :: id in t.subs && t.subs[id].status in {Active, Grace, Suspended} ==>
               id in s.subs && s.subs[id].status in {Active, Grace, Suspended}
               && t.subs[id].periodStart == s.subs[id].periodStart && t.subs[id].periodEnd == s.subs[id].periodEnd
    ensures Inv(plans, t)
  {
    hide PaysCredits, KeysFit, KeysUnique, LedgerUnique, LedgerMatches, CallsFit;
    assert KeysFit(t) && KeysUnique(t) by { SameInvoices(s, t); }
    CallsAfter(plans, s, t);
    LedgerAfter(plans, s, t);
    forall id | id in t.subs && t.subs[id].status in {Active, Grace, Suspended}
      ensures HasPaidPeriod(t, id)
    {
      assert HasPaidPeriod(s, id);
    }
  }

  /** `t` differs from `s` in one invoice, whose key is its own; it may be new. */
  ghost predicate OneInvoice(s: State, t: State, id: Id) {
    && t.invs.Keys == s.invs.Keys + {id}
    && (forall i :: i in s.invs && i != id ==> t.invs[i] == s.invs[i])
    && t.invs[id].key == KeyOf(id, t.invs[id])
    && (forall j :: j in s.invs && j != id && s.invs[j].sub == t.invs[id].sub ==>
          s.invs[j].key != t.invs[id].key && s.invs[j].number != t.invs[id].number)
  }

  lemma KeysAfter(s: State, t: State, id: Id)
    requires KeysFit(s) && KeysUnique(s) && OneInvoice(s, t, id)
    ensures KeysFit(t) && KeysUnique(t)
  {
    hide KeyOf;
  }

  lemma CallsAfter(plans: Plans, s: State, t: State)
    requires CallsFit(plans, s) && Keeps(s, t) && t.calls == s.calls
    ensures CallsFit(plans, t)
  {
    forall c | c in t.calls
      ensures CallFits(plans, t, t.calls[c])
    {
      KeepsCallFit(plans, s, t, s.calls[c]);
    }
  }

  lemma LedgerAfter(plans: Plans, s: State, t: State)
    requires LedgerUnique(s) && LedgerMatches(plans, s) && Keeps(s, t) && t.ledger == s.ledger
    ensures LedgerUnique(t) && LedgerMatches(plans, t)
  {
    hide PaysCredits;
  }

  lemma ServedAfter(s: State, t: State)
    requires ServedIsPaid(s) && Keeps(s, t) && t.subs == s.subs
    ensures ServedIsPaid(t)
  {
    forall sub | sub in t.subs && t.subs[sub].status in {Active, Grace, Suspended}
      ensures HasPaidPeriod(t, sub)
    {
      assert HasPaidPeriod(s, sub);
      var i :| i in s.invs && PaysFor(s.invs[i], sub, s.subs[sub]);
      assert PaysFor(t.invs[i], sub, t.subs[sub]);
    }
  }

  /** Statements that touch one invoice without paying it. */
  lemma InvoiceStep(plans: Plans, s: State, t: State, id: Id)
    requires Inv(plans, s) && Keeps(s, t)
    requires t == s.(invs := t.invs) && OneInvoice(s, t, id)
    requires t.invs[id].status == Paid ==> id in s.invs && s.invs[id].status == Paid
    ensures Inv(plans, t)
  {
    hide PaysCredits, KeysFit, KeysUnique, LedgerUnique, LedgerMatches, CallsFit, ServedIsPaid;
    KeysAfter(s, t, id);
    CallsAfter(plans, s, t);
    LedgerAfter(plans, s, t);
    ServedAfter(s, t);
  }

  /** The key an invoice takes when it closes collides with nothing. */
  lemma ClosedKeyIsFresh(plans: Plans, s: State, id: Id, to: InvStatus)
    requires Inv(plans, s) && id in s.invs && s.invs[id].status == Open && to != Open
    ensures forall j :: j in s.invs && j != id && s.invs[j].sub == s.invs[id].sub ==>
              s.invs[j].key != ClosedKey(to, id) && s.invs[j].number != s.invs[id].number
  {
    forall j | j in s.invs && j != id && s.invs[j].sub == s.invs[id].sub
      ensures s.invs[j].key != ClosedKey(to, id)
    {
      if s.invs[j].key == ClosedKey(to, id) {
        KeysIdentify(j, s.invs[j], id, s.invs[id].(status := to));
      }
    }
  }

  /** Steps of a call that only move it along. */
  lemma CallStep(plans: Plans, s: State, t: State, call: nat)
    requires Inv(plans, s)
    requires t == s.(calls := t.calls)
    requires forall c :: c in t.calls && c != call ==> c in s.calls && t.calls[c] == s.calls[c]
    requires call in t.calls ==> CallFits(plans, s, t.calls[call])
    ensures Inv(plans, t)
  {
    hide KeyOf, PaysCredits;
    forall c | c in t.calls
      ensures CallFits(plans, t, t.calls[c])
    {
      assert c != call ==> CallFits(plans, s, s.calls[c]);
      KeepsCallFit(plans, s, t, t.calls[c]);
    }
    forall id | id in t.subs && t.subs[id].status in {Active, Grace, Suspended}
      ensures HasPaidPeriod(t, id)
    {
      assert HasPaidPeriod(s, id);
    }
  }

  lemma ReminderStep(plans: Plans, s: State, t: State)
    requires Inv(plans, s) && Keeps(s, t)
    requires t == s.(reminders := t.reminders, emitted := t.emitted) && RemindersOnce(t)
    ensures Inv(plans, t)
  {
    hide PaysCredits, KeysFit, KeysUnique, LedgerUnique, LedgerMatches, CallsFit, ServedIsPaid;
    SameInvoices(s, t);
    CallsAfter(plans, s, t);
    LedgerAfter(plans, s, t);
    ServedAfter(s, t);
  }

  /** The credits of one call, under its invoice's id, once. */
  lemma TopUpStep(plans: Plans, s: State, call: nat)
    requires Inv(plans, s) && call in s.calls && s.calls[call].HasTime? && s.calls[call].row.plan in plans
    ensures Inv(plans, NextTopUp(plans, s, call, s.calls[call]))
  {
    hide KeyOf;
    var c := s.calls[call];
    assert CallFits(plans, s, c);
    var credit := Credit(c.sub.customer, plans[c.row.plan].credits, c.inv);
    // First the ledger, then the call.
    var ledger := if plans[c.row.plan].credits > 0 then TopUpLedger(s.ledger, credit) else s.ledger;
    var mid := s.(ledger := ledger);
    assert Inv(plans, mid) by {
      assert Keeps(s, mid);
      SameInvoices(s, mid);
      CallsAfter(plans, s, mid);
      ServedAfter(s, mid);
      PaidStaysCredited(plans, s, mid);
    }
    if PaysCredits(plans, c.row.plan) {
      TopUpCredits(s.ledger, credit);
      assert Credited(mid, c.inv);
    }
    var t := NextTopUp(plans, s, call, c);
    assert t == mid.(calls := t.calls);
    CallStep(plans, mid, t, call);
  }

  lemma PaidStaysCredited(plans: Plans, s: State, t: State)
    requires PaidIsCredited(plans, s) && t.invs == s.invs && s.ledger <= t.ledger
    ensures PaidIsCredited(plans, t)
  {
    forall i | i in t.invs && t.invs[i].status == Paid && PaysCredits(plans, t.invs[i].plan)
      ensures Credited(t, i)
    {
      var k :| 0 <= k < |s.ledger| && s.ledger[k].reference == i;
      assert t.ledger[k].reference == i;
    }
  }

  /** The transaction that pays: the one place a subscription starts to be served. */
  lemma PayStep(plans: Plans, s: State, call: nat)
    requires Inv(plans, s) && call in s.calls && s.calls[call].HasCredited?
    requires s.calls[call].inv in s.invs && s.invs[s.calls[call].inv].status == Open
    ensures Inv(plans, NextPay(s, call, s.calls[call]))
  {
    hide PaysCredits, KeysFit, KeysUnique, LedgerUnique, LedgerMatches, CallsFit, ServedIsPaid, ExtendedOnce,
         PaidIsCredited, ClosedKey, KeyOf;
    var c, t := s.calls[call], NextPay(s, call, s.calls[call]);
    CallAt(plans, s, call);
    PayKeeps(s, call);
    ClosedKeyIsFresh(plans, s, c.inv, Paid);
    PaidKey(c.inv, t.invs[c.inv]);
    KeysAfter(s, t, c.inv);
    LedgerAfter(plans, s, t);
    var mid := t.(calls := s.calls);
    CallsAfter(plans, s, mid);
    CallsWithReturned(plans, mid, t, call);
    PayServes(s, t, c);
    PayRecords(plans, s, t, c);
  }

  lemma PayRecords(plans: Plans, s: State, t: State, c: Call)
    requires ExtendedOnce(s) && PaidIsCredited(plans, s) && c.HasCredited? && CallFits(plans, s, c)
    requires c.inv in s.invs && s.invs[c.inv].status == Open && t.extended == s.extended + [c.inv]
             && t.ledger == s.ledger
    requires t.invs.Keys == s.invs.Keys && forall i :: i in s.invs && i != c.inv ==> t.invs[i] == s.invs[i]
    requires t.invs[c.inv].status == Paid && t.invs[c.inv].plan == s.invs[c.inv].plan
    ensures ExtendedOnce(t) && PaidIsCredited(plans, t)
  {
    hide PaysCredits;
  }

  lemma CallAt(plans: Plans, s: State, call: nat)
    requires CallsFit(plans, s) && call in s.calls
    ensures CallFits(plans, s, s.calls[call])
  {}

  lemma CallsWithReturned(plans: Plans, s: State, t: State, call: nat)
    requires CallsFit(plans, s) && call in t.calls && t.calls[call].Returned?
             && t == s.(calls := s.calls[call := t.calls[call]])
    ensures CallsFit(plans, t)
  {
    forall c | c in t.calls
      ensures CallFits(plans, t, t.calls[c])
    {
      if c != call {
        assert CallFits(plans, s, s.calls[c]);
        KeepsCallFit(plans, s, t, s.calls[c]);
      }
    }
  }

  lemma PaidKey(id: Id, inv: Invoice)
    requires inv.status == Paid && inv.key == ClosedKey(Paid, id)
    ensures inv.key == KeyOf(id, inv)
  {}

  lemma PayServes(s: State, t: State, c: Call)
    requires ServedIsPaid(s) && Keeps(s, t) && c.HasCredited?
    requires c.inv in t.invs && t.invs[c.inv].status == Paid && t.invs[c.inv].sub == c.row.sub
    requires t.invs[c.inv].periodStart == c.start && t.invs[c.inv].periodEnd == c.end
    requires t.subs.Keys == s.subs.Keys && forall id :: id in s.subs && id != c.row.sub ==> t.subs[id] == s.subs[id]
    requires c.row.sub in s.subs ==> t.subs[c.row.sub].periodStart == c.start && t.subs[c.row.sub].periodEnd == c.end
    ensures ServedIsPaid(t)
  {
    forall id | id in t.subs && t.subs[id].status in {Active, Grace, Suspended}
      ensures HasPaidPeriod(t, id)
    {
      if id == c.row.sub {
        assert PaysFor(t.invs[c.inv], id, t.subs[id]);
      } else {
        assert HasPaidPeriod(s, id);
        var i :| i in s.invs && PaysFor(s.invs[i], id, s.subs[id]);
        assert PaysFor(t.invs[i], id, t.subs[id]);
      }
    }
  }

  lemma CallStepsKeepInv(plans: Plans, s: State, step: Step)
    requires Inv(plans, s)
    requires step.ReadInvoice? || step.ReadSubscription? || step.ReadClock? || step.TopUp?
    ensures Inv(plans, Next(plans, s, step))
  {
    hide Inv, PeriodStart, TopUpLedger;
    var t, call := Next(plans, s, step), step.call;
    if call in s.calls {
      assert CallFits(plans, s, s.calls[call]) by { InvCall(plans, s, call); }
      if step.TopUp? {
        if s.calls[call].HasTime? && s.calls[call].row.plan in plans {
          TopUpStep(plans, s, call);
        }
      } else {
        CallStep(plans, s, t, call);
      }
    }
  }

  lemma InvCall(plans: Plans, s: State, call: nat)
    requires Inv(plans, s) && call in s.calls
    ensures CallFits(plans, s, s.calls[call])
  {
    CallAt(plans, s, call);
  }

  lemma InsertKeepsInv(plans: Plans, s: State, step: Step)
    requires Inv(plans, s) && step.InsertInvoice?
    ensures Inv(plans, Next(plans, s, step))
  {
    hide Decimal;
    var t := Next(plans, s, step);
    StepKeeps(plans, s, step);
    hide Inv, Keeps;
    if !Refused(s.invs, step.inv, step.sub, step.number, Decimal(step.start)) {
      assert OneInvoice(s, t, step.inv);
      InvoiceStep(plans, s, t, step.inv);
    }
  }

  lemma CloseKeepsInv(plans: Plans, s: State, step: Step)
    requires Inv(plans, s) && step.CloseInvoice?
    ensures Inv(plans, Next(plans, s, step))
  {
    var t, id := Next(plans, s, step), step.inv;
    StepKeeps(plans, s, step);
    if t != s {
      ClosedKeyIsFresh(plans, s, id, step.to);
      hide Keeps, Inv, Decimal, ClosedKey;
      assert OneInvoice(s, t, id);
      InvoiceStep(plans, s, t, id);
    }
  }

  /** Updates of the charge columns. */
  lemma ChargeKeepsInv(plans: Plans, s: State, step: Step)
    requires Inv(plans, s) && (step.StoreCharge? || step.LoseCharge? || step.DropCharge?)
    ensures Inv(plans, Next(plans, s, step))
  {
    hide ClosedKey, Decimal;
    var t, id := Next(plans, s, step), step.inv;
    InvoiceKeeps(plans, s, step);
    if t != s {
      SameKeyStaysUnique(plans, s, id, t.invs[id]);
      hide Keeps, Inv, KeyOf;
      assert OneInvoice(s, t, id);
      InvoiceStep(plans, s, t, id);
    }
  }

  lemma SameKeyStaysUnique(plans: Plans, s: State, id: Id, inv: Invoice)
    requires Inv(plans, s) && id in s.invs && inv == s.invs[id].(charge := inv.charge)
    ensures inv.key == KeyOf(id, inv)
    ensures forall j :: j in s.invs && j != id && s.invs[j].sub == inv.sub ==>
              s.invs[j].key != inv.key && s.invs[j].number != inv.number
  {}

  lemma PayKeepsInv(plans: Plans, s: State, call: nat)
    requires Inv(plans, s)
    ensures Inv(plans, Next(plans, s, PayTransaction(call)))
  {
    var t := Next(plans, s, PayTransaction(call));
    if call in s.calls && s.calls[call].HasCredited? {
      var inv := s.calls[call].inv;
      if inv in s.invs && s.invs[inv].status == Open {
        PayStep(plans, s, call);
      } else {
        hide Inv;
        CallStep(plans, s, t, call);
      }
    }
  }

  lemma RemindKeepsInv(plans: Plans, s: State, step: Step)
    requires Inv(plans, s) && step.Remind?
    ensures Inv(plans, Next(plans, s, step))
  {
    StepKeeps(plans, s, step);
    assert RemindersOnce(s);
    hide Inv, Keeps;
    if (step.inv, step.kind) !in s.reminders {
      ReminderStep(plans, s, Next(plans, s, step));
    }
  }

  lemma BeginOrCrashKeepsInv(plans: Plans, s: State, step: Step)
    requires Inv(plans, s) && (step.Call? || step.Crash?)
    ensures Inv(plans, Next(plans, s, step))
  {
    hide Inv;
    if !(step.Call? && step.call in s.calls) {
      CallStep(plans, s, Next(plans, s, step), step.call);
    }
  }

  lemma SubscriptionKeepsInv(plans: Plans, s: State, step: Step)
    requires Inv(plans, s)
    requires step.InsertSubscription? || step.MoveStatus? || step.CancelNow? || step.CancelAtEnd? || step.SetPlan?
             || step.SetNextPlan?
    ensures Inv(plans, Next(plans, s, step))
  {
    StepKeeps(plans, s, step);
    hide Inv, Keeps;
    SubscriptionStep(plans, s, Next(plans, s, step));
  }

  /** Every statement keeps the invariant. */
  lemma StepKeepsInv(plans: Plans, s: State, step: Step)
    requires Inv(plans, s)
    ensures Inv(plans, Next(plans, s, step))
  {
    hide Inv, Next;
    match step
    case InsertInvoice(_, _, _, _, _, _, _) => InsertKeepsInv(plans, s, step);
    case CloseInvoice(_, _) => CloseKeepsInv(plans, s, step);
    case StoreCharge(_, _) => ChargeKeepsInv(plans, s, step);
    case LoseCharge(_) => ChargeKeepsInv(plans, s, step);
    case DropCharge(_) => ChargeKeepsInv(plans, s, step);
    case Remind(_, _, _) => RemindKeepsInv(plans, s, step);
    case Call(_, _) => BeginOrCrashKeepsInv(plans, s, step);
    case Crash(_) => BeginOrCrashKeepsInv(plans, s, step);
    case ReadInvoice(_) => CallStepsKeepInv(plans, s, step);
    case ReadSubscription(_) => CallStepsKeepInv(plans, s, step);
    case ReadClock(_, _) => CallStepsKeepInv(plans, s, step);
    case TopUp(_) => CallStepsKeepInv(plans, s, step);
    case PayTransaction(call) => PayKeepsInv(plans, s, call);
    case _ => SubscriptionKeepsInv(plans, s, step);
  }

  // ----- Every interleaving -----

  lemma {:induction false} RunKeepsInv(plans: Plans, s: State, steps: seq<Step>)
    requires Inv(plans, s)
    ensures Inv(plans, Run(plans, s, steps))
    decreases |steps|
  {
    hide Inv, Next;
    if steps != [] {
      StepKeepsInv(plans, s, steps[0]);
      RunKeepsInv(plans, Next(plans, s, steps[0]), steps[1..]);
    }
  }

  lemma EveryRun(plans: Plans, steps: seq<Step>)
    ensures Inv(plans, Run(plans, EMPTY, steps))
  {
    assert Inv(plans, EMPTY);
    RunKeepsInv(plans, EMPTY, steps);
  }

  /** Over any continuation of any run: closed invoices are final, and nothing recorded is ever undone. */
  lemma {:induction false} ClosedIsForever(plans: Plans, s: State, steps: seq<Step>)
    ensures Keeps(s, Run(plans, s, steps))
    decreases |steps|
  {
    hide Next;
    if steps != [] {
      var t := Next(plans, s, steps[0]);
      StepKeeps(plans, s, steps[0]);
      ClosedIsForever(plans, t, steps[1..]);
    }
  }

  /** How many top-ups were made under a reference. */
  ghost function TopUps(ledger: seq<Credit>, reference: Id): nat {
    if ledger == [] then 0
    else TopUps(ledger[..|ledger| - 1], reference) + (if ledger[|ledger| - 1].reference == reference then 1 else 0)
  }

  lemma {:induction false} CountTopUps(ledger: seq<Credit>, reference: Id)
    requires forall k, l :: 0 <= k < l < |ledger| ==> ledger[k].reference != ledger[l].reference
    ensures TopUps(ledger, reference) == if (exists k :: 0 <= k < |ledger| && ledger[k].reference == reference) then 1
            else 0
  {
    if ledger != [] {
      CountTopUps(ledger[..|ledger| - 1], reference);
    }
  }

  /**
   Exactly once, under every interleaving of calls, retries and crashes: an
   invoice is extended at most once, and exactly once if it is paid; its credits
   are topped up at most once, and exactly once if it is paid.
   */
  lemma PaidExactlyOnce(plans: Plans, steps: seq<Step>, inv: Id)
    ensures var s := Run(plans, EMPTY, steps);
            && multiset(s.extended)[inv] <= 1
            && TopUps(s.ledger, inv) <= 1
            && (inv in s.invs ==> (s.invs[inv].status == Paid <==> multiset(s.extended)[inv] == 1))
            && (inv in s.invs && s.invs[inv].status == Paid && PaysCredits(plans, s.invs[inv].plan) ==>
                  TopUps(s.ledger, inv) == 1)
  {
    EveryRun(plans, steps);
    var s := Run(plans, EMPTY, steps);
    CountTopUps(s.ledger, inv);
    DistinctCount(s.extended, inv);
  }

  lemma {:induction false} DistinctCount(q: seq<Id>, x: Id)
    requires forall k, l :: 0 <= k < l < |q| ==> q[k] != q[l]
    ensures multiset(q)[x] == if x in q then 1 else 0
  {
    if q != [] {
      var n := |q| - 1;
      DistinctCount(q[..n], x);
      assert q == q[..n] + [q[n]];
    }
  }

  /** Under every interleaving there is at most one open invoice per subscription and period. */
  lemma OneOpenInvoicePerPeriod(plans: Plans, steps: seq<Step>, i: Id, j: Id)
    ensures var s := Run(plans, EMPTY, steps);
            (i in s.invs && j in s.invs && s.invs[i].status == Open && s.invs[j].status == Open &&
             s.invs[i].sub == s.invs[j].sub && s.invs[i].periodStart == s.invs[j].periodStart) ==> i == j
  {
    EveryRun(plans, steps);
  }

  /** Under every interleaving a served subscription's period is that of a paid invoice of its own. */
  lemma ServedPeriodWasPaid(plans: Plans, steps: seq<Step>, id: Id)
    ensures var s := Run(plans, EMPTY, steps);
            id in s.subs && s.subs[id].status.IsServed() ==> HasPaidPeriod(s, id)
  {
    EveryRun(plans, steps);
  }

  /** Under every interleaving each reminder is handed out at most once. */
  lemma ReminderAtMostOnce(plans: Plans, steps: seq<Step>, k: nat, l: nat)
    ensures var s := Run(plans, EMPTY, steps);
            k < l < |s.emitted| ==> s.emitted[k] != s.emitted[l]
  {
    EveryRun(plans, steps);
  }

  /** One `on_paid` call left alone from start to finish. */
  function WholeCall(call: nat, inv: Id, now: nat): seq<Step> {
    [Call(call, inv), ReadInvoice(call), ReadSubscription(call), ReadClock(call, now), TopUp(call),
        PayTransaction(call)]
  }

  lemma RunFirst(plans: Plans, s: State, step: Step, rest: seq<Step>)
    ensures Run(plans, s, [step] + rest) == Run(plans, Next(plans, s, step), rest)
  {
    assert ([step] + rest)[1..] == rest;
  }

  lemma CallMoves(plans: Plans, s: State, call: nat, inv: Id, now: nat, row: Invoice, sub: Subscription)
    requires call !in s.calls && inv in s.invs && s.invs[inv] == row && row.status == Open
    requires row.sub in s.subs && s.subs[row.sub] == sub && row.plan in plans
    ensures var start := PeriodStart(row, sub, now);
            var s1 := UpdateCall(s, call, Begun(inv));
            var s2 := UpdateCall(s1, call, HasInvoice(inv, row));
            var s3 := UpdateCall(s2, call, HasSubscription(inv, row, sub));
            && Next(plans, s, Call(call, inv)) == s1
            && Next(plans, s1, ReadInvoice(call)) == s2
            && Next(plans, s2, ReadSubscription(call)) == s3
            && Next(plans, s3, ReadClock(call, now))
               == UpdateCall(s3, call, HasTime(inv, row, sub, start, start + plans[row.plan].cycle))
  {
    hide PeriodStart;
  }

  /** The reads of an undisturbed call, up to the point where it knows its period. */
  lemma ReadsOfCall(plans: Plans, s: State, call: nat, inv: Id, now: nat, rest: seq<Step>)
    requires call !in s.calls && inv in s.invs && s.invs[inv].status == Open
    requires s.invs[inv].sub in s.subs && s.invs[inv].plan in plans
    ensures var row, sub := s.invs[inv], s.subs[s.invs[inv].sub];
            var start := PeriodStart(row, sub, now);
            Run(plans, s, [Call(call, inv), ReadInvoice(call), ReadSubscription(call), ReadClock(call, now)] + rest)
            == Run(plans, UpdateCall(s, call, HasTime(inv, row, sub, start, start + plans[row.plan].cycle)), rest)
  {
    hide PeriodStart, Run;
    var row, sub := s.invs[inv], s.subs[s.invs[inv].sub];
    var start := PeriodStart(row, sub, now);
    CallMoves(plans, s, call, inv, now, row, sub);
    hide Next;
    var s1 := UpdateCall(s, call, Begun(inv));
    var s2 := UpdateCall(s1, call, HasInvoice(inv, row));
    var s3 := UpdateCall(s2, call, HasSubscription(inv, row, sub));
    var s4 := UpdateCall(s3, call, HasTime(inv, row, sub, start, start + plans[row.plan].cycle));
    var r3 := [ReadClock(call, now)] + rest;
    var r2 := [ReadSubscription(call)] + r3;
    var r1 := [ReadInvoice(call)] + r2;
    assert [Call(call, inv), ReadInvoice(call), ReadSubscription(call), ReadClock(call, now)] + rest
           == [Call(call, inv)] + r1;
    RunFirst(plans, s, Call(call, inv), r1);
    RunFirst(plans, s1, ReadInvoice(call), r2);
    RunFirst(plans, s2, ReadSubscription(call), r3);
    RunFirst(plans, s3, ReadClock(call, now), rest);
    assert s4 == UpdateCall(s, call, s4.calls[call]);
  }

  /** The state once an undisturbed call has credited. */
  ghost function AfterTopUp(plans: Plans, s: State, call: nat, inv: Id, now: nat): State
    requires inv in s.invs && s.invs[inv].sub in s.subs && s.invs[inv].plan in plans
  {
    var row, sub := s.invs[inv], s.subs[s.invs[inv].sub];
    var start, credits := PeriodStart(row, sub, now), plans[row.plan].credits;
    var ledger := if credits > 0 then TopUpLedger(s.ledger, Credit(sub.customer, credits, inv)) else s.ledger;
    UpdateCall(s, call, HasCredited(inv, row, sub, start, start + plans[row.plan].cycle)).(ledger := ledger)
  }

  lemma TopUpOfCall(plans: Plans, s: State, call: nat, inv: Id, now: nat, rest: seq<Step>)
    requires call !in s.calls && inv in s.invs && s.invs[inv].status == Open
    requires s.invs[inv].sub in s.subs && s.invs[inv].plan in plans
    ensures Run(plans, s, [Call(call, inv), ReadInvoice(call), ReadSubscription(call), ReadClock(call, now),
            TopUp(call)] + rest)
         == Run(plans, AfterTopUp(plans, s, call, inv, now), rest)
  {
    hide PeriodStart, Run;
    ReadsOfCall(plans, s, call, inv, now, [TopUp(call)] + rest);
    assert [Call(call, inv), ReadInvoice(call), ReadSubscription(call), ReadClock(call, now), TopUp(call)] + rest
        == [Call(call, inv), ReadInvoice(call), ReadSubscription(call), ReadClock(call, now)] + ([TopUp(call)] + rest);
    var row, sub := s.invs[inv], s.subs[s.invs[inv].sub];
    var start := PeriodStart(row, sub, now);
    var s4 := UpdateCall(s, call, HasTime(inv, row, sub, start, start + plans[row.plan].cycle));
    RunFirst(plans, s4, TopUp(call), rest);
    assert Next(plans, s4, TopUp(call)) == AfterTopUp(plans, s, call, inv, now);
  }

  lemma AfterTopUpIsCredited(plans: Plans, s: State, call: nat, inv: Id, now: nat)
    requires inv in s.invs && s.invs[inv].sub in s.subs && s.invs[inv].plan in plans
    ensures PaysCredits(plans, s.invs[inv].plan) ==> Credited(AfterTopUp(plans, s, call, inv, now), inv)
    ensures Credited(s, inv) ==> AfterTopUp(plans, s, call, inv, now).ledger == s.ledger
  {
    hide PeriodStart;
    TopUpCredits(s.ledger, Credit(s.subs[s.invs[inv].sub].customer, plans[s.invs[inv].plan].credits, inv));
  }

  lemma LedgerAfterTopUp(plans: Plans, s: State, call: nat, inv: Id, now: nat)
    requires inv in s.invs && s.invs[inv].sub in s.subs && s.invs[inv].plan in plans
    ensures var plan := plans[s.invs[inv].plan];
            AfterTopUp(plans, s, call, inv, now).ledger
            == if plan.credits > 0 && !Credited(s, inv)
               then s.ledger + [Credit(s.subs[s.invs[inv].sub].customer, plan.credits, inv)] else s.ledger
  {
    hide PeriodStart;
  }

  /** What an undisturbed payment of `inv` leads to. */
  ghost predicate Completed(plans: Plans, s: State, t: State, call: nat, inv: Id, now: nat)
    requires inv in s.invs && s.invs[inv].sub in s.subs && s.invs[inv].plan in plans
  {
    var row, sub := s.invs[inv], s.subs[s.invs[inv].sub];
    var renews := sub.status !in {Pending, Suspended} && row.number != 1 && row.periodStart != 0;
    var start := if renews then row.periodStart else now;
    var end := start + plans[row.plan].cycle;
    && t.invs == s.invs[inv := row.(status := Paid, key := "paid:" + inv, periodStart := start, periodEnd := end)]
    && t.subs == s.subs[row.sub := sub.(status := Active, plan := row.plan, nextPlan := None, periodStart := start,
                                        periodEnd := end)]
    && t.extended == s.extended + [inv] && t.reminders == s.reminders && t.calls.Keys == s.calls.Keys + {call}
    && t.ledger == (if plans[row.plan].credits > 0 && !Credited(s, inv)
                    then s.ledger + [Credit(sub.customer, plans[row.plan].credits, inv)] else s.ledger)
  }

  /**
   A retry completes what a crash left: from any state in which the invoice is
   open, one uninterrupted call pays it and extends its subscription; if the
   credits were already in, it adds none.
   */
  lemma RetryCompletes(plans: Plans, s: State, call: nat, inv: Id, now: nat)
    requires call !in s.calls && inv in s.invs && s.invs[inv].status == Open
    requires s.invs[inv].sub in s.subs && s.invs[inv].plan in plans
    ensures Completed(plans, s, Run(plans, s, WholeCall(call, inv, now)), call, inv, now)
  {
    hide PeriodStart, ClosedKey, TopUpLedger, Run;
    var s5, pay := AfterTopUp(plans, s, call, inv, now), PayTransaction(call);
    TopUpOfCall(plans, s, call, inv, now, [pay] + []);
    LedgerAfterTopUp(plans, s, call, inv, now);
    assert WholeCall(call, inv, now)
        == [Call(call, inv), ReadInvoice(call), ReadSubscription(call), ReadClock(call, now), TopUp(call)]
            + ([pay] + []);
    RunFirst(plans, s5, pay, []);
    NoSteps(plans, NextPay(s5, call, s5.calls[call]));
    StartOf(s.invs[inv], s.subs[s.invs[inv].sub], now);
    ClosedKeys(inv);
  }

  lemma StartOf(row: Invoice, sub: Subscription, now: nat)
    ensures PeriodStart(row, sub, now)
         == if sub.status !in {Pending, Suspended} && row.number != 1 && row.periodStart != 0 then row.periodStart
             else now
  {}

  lemma NoSteps(plans: Plans, s: State)
    ensures Run(plans, s, []) == s
  {}

  /**
   The converse is not kept: a plan change may void the invoice between the
   top-up and the transaction, which leaves credits for an invoice never paid.
   */
  lemma CreditedNeedNotBePaid(plans: Plans, s: State, call: nat, inv: Id, now: nat)
    requires call !in s.calls && inv in s.invs && s.invs[inv].status == Open
    requires s.invs[inv].sub in s.subs && PaysCredits(plans, s.invs[inv].plan)
    ensures var first := [Call(call, inv), ReadInvoice(call), ReadSubscription(call), ReadClock(call, now)];
            var t := Run(plans, s, first + [TopUp(call), CloseInvoice(inv, Void), PayTransaction(call)]);
            inv in t.invs && t.invs[inv].status == Void && Credited(t, inv)
            && call in t.calls && t.calls[call] == Returned(inv, Already)
  {
    hide PeriodStart, ClosedKey, TopUpLedger, Run;
    var s5, close, pay := AfterTopUp(plans, s, call, inv, now), CloseInvoice(inv, Void), PayTransaction(call);
    var s6 := Next(plans, s5, close);
    TopUpOfCall(plans, s, call, inv, now, [close] + ([pay] + []));
    AfterTopUpIsCredited(plans, s, call, inv, now);
    assert [Call(call, inv), ReadInvoice(call), ReadSubscription(call), ReadClock(call, now)]
           + [TopUp(call), close, pay]
        == [Call(call, inv), ReadInvoice(call), ReadSubscription(call), ReadClock(call, now), TopUp(call)]
            + ([close] + ([pay] + []));
    RunFirst(plans, s5, close, [pay] + []);
    RunFirst(plans, s6, pay, []);
    NoSteps(plans, NextPay(s6, call, s6.calls[call]));
  }

  // ----- Which period a call pays for -----

  /** What a call works out: one cycle, for a renewal of a served subscription from where it was raised for. */
  ghost predicate TimeFits(plans: Plans, c: Call) {
    c.HasTime? || c.HasCredited? ==>
      && c.row.plan in plans && c.end == c.start + plans[c.row.plan].cycle
      && (c.sub.status in {Active, Grace} && c.row.number != 1 && c.row.periodStart != 0 ==>
         c.start == c.row.periodStart)
  }

  /** While the invoice is open, the columns that say which period it is for are as the call read them. */
  ghost predicate OpenFits(s: State, c: Call) {
    !c.Begun? && !c.Returned? && c.inv in s.invs && s.invs[c.inv].status == Open ==>
      s.invs[c.inv].periodStart == c.row.periodStart && s.invs[c.inv].number == c.row.number
  }

  ghost predicate PaidForACycle(plans: Plans, s: State) {
    forall i :: i in s.invs && s.invs[i].status == Paid ==>
      s.invs[i].plan in plans && s.invs[i].periodEnd == s.invs[i].periodStart + plans[s.invs[i].plan].cycle
  }

  ghost predicate PeriodsFit(plans: Plans, s: State) {
    (forall c :: c in s.calls ==> TimeFits(plans, s.calls[c]) && OpenFits(s, s.calls[c])) && PaidForACycle(plans, s)
  }

  /** The moment a call reads the clock is the moment its period is fixed. */
  lemma ClockFixesPeriod(plans: Plans, s: State, call: nat, now: nat)
    requires call in s.calls && s.calls[call].HasSubscription? && s.calls[call].row.plan in plans
    ensures var c, t := s.calls[call], Next(plans, s, ReadClock(call, now));
            var renews := c.sub.status !in {Pending, Suspended} && c.row.number != 1 && c.row.periodStart != 0;
            var start := if renews then c.row.periodStart else now;
            t == s.(calls := s.calls[call := HasTime(c.inv, c.row, c.sub, start, start + plans[c.row.plan].cycle)])
  {
    StartOf(s.calls[call].row, s.calls[call].sub, now);
    hide PeriodStart;
  }

  /** A call that moves on, with the tables as they are. */
  lemma MovedCallFits(plans: Plans, s: State, t: State, call: nat)
    requires PeriodsFit(plans, s) && t.invs == s.invs
    requires forall c :: c in t.calls && c != call ==> c in s.calls && t.calls[c] == s.calls[c]
    requires call in t.calls ==> TimeFits(plans, t.calls[call]) && OpenFits(t, t.calls[call])
    ensures PeriodsFit(plans, t)
  {
    hide PaidForACycle, TimeFits;
    SameInvoicesPaid(plans, s, t);
  }

  lemma ReadKeepsPeriods(plans: Plans, s: State, call: nat)
    requires PeriodsFit(plans, s) && call in s.calls
    ensures PeriodsFit(plans, NextReadInvoice(s, call, s.calls[call]))
    ensures PeriodsFit(plans, NextReadSubscription(s, call, s.calls[call]))
  {
    hide PaidForACycle;
    MovedCallFits(plans, s, NextReadInvoice(s, call, s.calls[call]), call);
    MovedCallFits(plans, s, NextReadSubscription(s, call, s.calls[call]), call);
  }

  lemma ClockKeepsPeriods(plans: Plans, s: State, call: nat, now: nat)
    requires PeriodsFit(plans, s) && call in s.calls
    ensures PeriodsFit(plans, NextReadClock(plans, s, call, s.calls[call], now))
  {
    hide PaidForACycle, PeriodStart;
    if s.calls[call].HasSubscription? {
      StartOf(s.calls[call].row, s.calls[call].sub, now);
    }
    MovedCallFits(plans, s, NextReadClock(plans, s, call, s.calls[call], now), call);
  }

  lemma TopUpKeepsPeriods(plans: Plans, s: State, call: nat)
    requires PeriodsFit(plans, s) && call in s.calls
    ensures PeriodsFit(plans, NextTopUp(plans, s, call, s.calls[call]))
  {
    hide PaidForACycle, TopUpLedger;
    MovedCallFits(plans, s, NextTopUp(plans, s, call, s.calls[call]), call);
  }

  /** Statements of a call before the transaction. */
  lemma CallKeepsPeriods(plans: Plans, s: State, step: Step)
    requires PeriodsFit(plans, s) && (step.ReadInvoice? || step.ReadSubscription? || step.ReadClock? || step.TopUp?)
    ensures PeriodsFit(plans, Next(plans, s, step))
  {
    hide PeriodsFit, NextReadInvoice, NextReadSubscription, NextReadClock, NextTopUp;
    if step.call in s.calls {
      match step
      case ReadInvoice(call) => ReadKeepsPeriods(plans, s, call);
      case ReadSubscription(call) => ReadKeepsPeriods(plans, s, call);
      case ReadClock(call, now) => ClockKeepsPeriods(plans, s, call, now);
      case TopUp(call) => TopUpKeepsPeriods(plans, s, call);
    }
  }

  lemma SameInvoicesPaid(plans: Plans, s: State, t: State)
    requires PaidForACycle(plans, s) && t.invs == s.invs
    ensures PaidForACycle(plans, t)
  {}

  /** Statements outside calls: none opens an invoice again, moves an open one to another period, or pays one. */
  ghost predicate MovesNoPeriod(s: State, t: State) {
    && (forall i :: i in s.invs ==> i in t.invs && SamePeriod(s.invs[i], t.invs[i]))
    && (forall i :: i in t.invs && i !in s.invs ==> t.invs[i].status == Open)
    && (forall c :: c in t.calls ==> t.calls[c].Begun? || (c in s.calls && t.calls[c] == s.calls[c]))
  }

  lemma OthersMoveNoPeriod(plans: Plans, s: State, step: Step)
    requires !step.PayTransaction?
    requires !(step.ReadInvoice? || step.ReadSubscription? || step.ReadClock? || step.TopUp?)
    ensures MovesNoPeriod(s, Next(plans, s, step))
  {
    hide ClosedKey, Decimal, NextReadInvoice, NextReadSubscription, NextReadClock, NextTopUp, NextPay, Refused;
    if step.InsertInvoice? {
      InsertIsNew(plans, s, step);
    }
  }

  lemma InsertIsNew(plans: Plans, s: State, step: Step)
    requires step.InsertInvoice?
    ensures MovesNoPeriod(s, Next(plans, s, step))
  {
    hide ClosedKey, Decimal;
  }

  lemma MovingNoPeriodKeeps(plans: Plans, s: State, t: State)
    requires Inv(plans, s) && PeriodsFit(plans, s) && MovesNoPeriod(s, t)
    ensures PeriodsFit(plans, t)
  {
    CallsFitIn(plans, s);
    BegunFits(plans);
    hide Inv, TimeFits;
  }

  lemma BegunFits(plans: Plans)
    ensures forall inv :: TimeFits(plans, Begun(inv))
  {}

  ghost predicate SamePeriod(a: Invoice, b: Invoice) {
    && b.plan == a.plan && b.number == a.number && b.periodStart == a.periodStart && b.periodEnd == a.periodEnd
    && (b.status == Open ==> a.status == Open) && (b.status == Paid <==> a.status == Paid)
  }

  lemma CallsFitIn(plans: Plans, s: State)
    requires Inv(plans, s)
    ensures forall c :: c in s.calls && !s.calls[c].Begun? && !s.calls[c].Returned? ==>
              s.calls[c].inv in s.invs && s.invs[s.calls[c].inv].plan == s.calls[c].row.plan
  {
    forall c | c in s.calls && !s.calls[c].Begun? && !s.calls[c].Returned?
      ensures s.calls[c].inv in s.invs && s.invs[s.calls[c].inv].plan == s.calls[c].row.plan
    {
      CallAt(plans, s, c);
    }
  }

  lemma PayKeepsPeriods(plans: Plans, s: State, call: nat)
    requires Inv(plans, s) && PeriodsFit(plans, s)
    ensures PeriodsFit(plans, Next(plans, s, PayTransaction(call)))
  {
    CallsFitIn(plans, s);
    hide Inv, ClosedKey;
  }

  lemma {:induction false} RunKeepsPeriods(plans: Plans, s: State, steps: seq<Step>)
    requires Inv(plans, s) && PeriodsFit(plans, s)
    ensures PeriodsFit(plans, Run(plans, s, steps))
    decreases |steps|
  {
    hide Inv, Next, PeriodsFit;
    if steps != [] {
      var step := steps[0];
      if step.PayTransaction? {
        PayKeepsPeriods(plans, s, step.call);
      } else if step.ReadInvoice? || step.ReadSubscription? || step.ReadClock? || step.TopUp? {
        CallKeepsPeriods(plans, s, step);
      } else {
        OthersMoveNoPeriod(plans, s, step);
        MovingNoPeriodKeeps(plans, s, Next(plans, s, step));
      }
      StepKeepsInv(plans, s, step);
      RunKeepsPeriods(plans, Next(plans, s, step), steps[1..]);
    }
  }

  /** A payment by a call: for one cycle, and where the call renews a served subscription, for the period raised. */
  ghost predicate PaysRightly(plans: Plans, s: State, t: State, c: Call) {
    && c.HasCredited? && c.inv in s.invs && c.inv in t.invs
    && var a, b := s.invs[c.inv], t.invs[c.inv];
       && a.plan in plans && b == a.(status := Paid, key := "paid:" + c.inv, periodStart := b.periodStart,
                                     periodEnd := b.periodStart + plans[a.plan].cycle)
       && (c.sub.status in {Active, Grace} && a.number != 1 && a.periodStart != 0 ==> b.periodStart == a.periodStart)
       && a.sub in s.subs
       && t.subs == s.subs[a.sub := s.subs[a.sub].(status := Active, plan := a.plan, nextPlan := None,
                                                   periodStart := b.periodStart, periodEnd := b.periodEnd)]
  }

  lemma PayIsRight(plans: Plans, s: State, call: nat)
    requires Inv(plans, s) && PeriodsFit(plans, s) && call in s.calls && s.calls[call].HasCredited?
    requires s.calls[call].inv in s.invs && s.invs[s.calls[call].inv].status == Open
    ensures PaysRightly(plans, s, NextPay(s, call, s.calls[call]), s.calls[call])
  {
    CallAt(plans, s, call);
    ClosedKeys(s.calls[call].inv);
    hide Inv, ClosedKey, PaysCredits;
  }

  /**
   Under every interleaving a paid invoice is for one cycle of its plan; and
   whoever pays a renewal after reading its subscription as served pays for the
   period it was raised for, and moves the subscription to that period and plan.
   */
  lemma PaidForTheRightPeriod(plans: Plans, steps: seq<Step>, call: nat)
    ensures var s := Run(plans, EMPTY, steps);
            var t := Next(plans, s, PayTransaction(call));
            && PaidForACycle(plans, s)
            && (t.extended != s.extended ==> call in s.calls && PaysRightly(plans, s, t, s.calls[call]))
  {
    hide Run, Next, PaysRightly, Inv, TimeFits, OpenFits, PaidForACycle;
    NothingPaidYet(plans);
    EveryRun(plans, steps);
    RunKeepsPeriods(plans, EMPTY, steps);
    ExtendingPays(plans, Run(plans, EMPTY, steps), call);
  }

  lemma NothingPaidYet(plans: Plans)
    ensures Inv(plans, EMPTY) && PeriodsFit(plans, EMPTY)
  {}

  lemma ExtendingPays(plans: Plans, s: State, call: nat)
    requires Inv(plans, s) && PeriodsFit(plans, s)
    ensures var t := Next(plans, s, PayTransaction(call));
            t.extended != s.extended ==> call in s.calls && PaysRightly(plans, s, t, s.calls[call])
  {
    hide Inv, PeriodsFit, PaysRightly, ClosedKey;
    if call in s.calls && s.calls[call].HasCredited? && s.calls[call].inv in s.invs
       && s.invs[s.calls[call].inv].status == Open {
      PayIsRight(plans, s, call);
    }
  }

  // ----- When credits are lost on an invoice -----

  /** Credits are in for an invoice that is closed and was never paid. */
  ghost predicate CreditsLost(s: State, inv: Id) {
    inv in s.invs && s.invs[inv].status in {Void, Expired} && Credited(s, inv)
  }

  /** The statement closes the invoice while it is open and its credits are in already. */
  ghost predicate ClosesCredited(s: State, step: Step, inv: Id) {
    && step.CloseInvoice? && step.inv == inv && step.to in {Void, Expired}
    && inv in s.invs && s.invs[inv].status == Open && Credited(s, inv)
  }

  /** The statement puts in the credits of an invoice that was open when its call read it and is closed by now. */
  predicate CreditsClosed(plans: Plans, s: State, step: Step, inv: Id) {
    && step.TopUp? && step.call in s.calls && s.calls[step.call].HasTime?
    && s.calls[step.call].inv == inv && s.calls[step.call].row.status == Open
       && PaysCredits(plans, s.calls[step.call].row.plan)
    && inv in s.invs && s.invs[inv].status in {Void, Expired}
  }

  ghost predicate LosesCredits(plans: Plans, s: State, step: Step, inv: Id) {
    ClosesCredited(s, step, inv) || CreditsClosed(plans, s, step, inv)
  }

  /** A call under way read its invoice while it was open. */
  predicate ReadOpen(s: State) {
    forall c :: c in s.calls ==>
      match s.calls[c]
      case HasInvoice(_, row) => row.status == Open
      case HasSubscription(_, row, _) => row.status == Open
      case HasTime(_, row, _, _, _) => row.status == Open
      case _ => true
  }

  lemma StepKeepsReadOpen(plans: Plans, s: State, step: Step)
    requires ReadOpen(s)
    ensures ReadOpen(Next(plans, s, step))
  {
    hide ClosedKey, Decimal, PeriodStart, TopUpLedger, Refused;
  }

  lemma {:induction false} RunLast(plans: Plans, s: State, steps: seq<Step>)
    requires steps != []
    ensures Run(plans, s, steps) == Next(plans, Run(plans, s, steps[..|steps| - 1]), steps[|steps| - 1])
    decreases |steps|
  {
    hide Next;
    if |steps| == 1 {
      NoSteps(plans, Next(plans, s, steps[0]));
      assert steps[..0] == [] && steps[1..] == [];
    } else {
      var t := Next(plans, s, steps[0]);
      RunLast(plans, t, steps[1..]);
      assert steps[1..][..|steps| - 2] == steps[..|steps| - 1][1..];
    }
  }

  lemma {:induction false} RunKeepsReadOpen(plans: Plans, steps: seq<Step>)
    ensures ReadOpen(Run(plans, EMPTY, steps))
    decreases |steps|
  {
    hide Next, Run;
    if steps == [] {
      NoSteps(plans, EMPTY);
    } else {
      var n := |steps| - 1;
      RunLast(plans, EMPTY, steps);
      RunKeepsReadOpen(plans, steps[..n]);
      StepKeepsReadOpen(plans, Run(plans, EMPTY, steps[..n]), steps[n]);
    }
  }

  /** Credits once lost stay lost. */
  lemma LostStaysLost(plans: Plans, s: State, step: Step, inv: Id)
    requires CreditsLost(s, inv)
    ensures CreditsLost(Next(plans, s, step), inv)
  {
    StepKeeps(plans, s, step);
    hide Next;
    var k :| 0 <= k < |s.ledger| && s.ledger[k].reference == inv;
    assert Next(plans, s, step).ledger[k] == s.ledger[k];
  }

  /** A statement that touches neither the ledger nor whether the invoice is closed loses nothing. */
  lemma SameStandingLosesNothing(s: State, t: State, inv: Id)
    requires t.ledger == s.ledger
    requires inv in t.invs && t.invs[inv].status in {Void, Expired} ==>
             inv in s.invs && s.invs[inv].status == t.invs[inv].status
    ensures CreditsLost(t, inv) ==> CreditsLost(s, inv)
  {}

  /** New credits are those of the call that put them in. */
  lemma TopUpIsForItsCall(plans: Plans, s: State, call: nat, inv: Id)
    requires call in s.calls && Credited(NextTopUp(plans, s, call, s.calls[call]), inv) && !Credited(s, inv)
    ensures s.calls[call].HasTime? && s.calls[call].inv == inv && PaysCredits(plans, s.calls[call].row.plan)
  {
    assert forall k :: 0 <= k < |s.ledger| ==> s.ledger[k].reference != inv;
  }

  /** One statement loses credits exactly in the two ways. */
  lemma StepLosesCredits(plans: Plans, s: State, step: Step, inv: Id)
    requires ReadOpen(s)
    ensures CreditsLost(Next(plans, s, step), inv) <==> CreditsLost(s, inv) || LosesCredits(plans, s, step, inv)
  {
    hide Next, CreditsLost, ReadOpen;
    if CreditsLost(s, inv) {
      LostStaysLost(plans, s, step, inv);
    } else if step.TopUp? {
      TopUpLosesCredits(plans, s, step.call, inv);
    } else if step.CloseInvoice? {
      CloseLosesCredits(plans, s, step, inv);
    } else {
      OthersLoseNothing(plans, s, step, inv);
    }
  }

  lemma CloseLosesCredits(plans: Plans, s: State, step: Step, inv: Id)
    requires step.CloseInvoice? && !CreditsLost(s, inv)
    ensures CreditsLost(Next(plans, s, step), inv) <==> ClosesCredited(s, step, inv)
  {
    hide ClosedKey, HasCredit;
  }

  lemma TopUpLosesCredits(plans: Plans, s: State, call: nat, inv: Id)
    requires ReadOpen(s) && !CreditsLost(s, inv)
    ensures CreditsLost(Next(plans, s, TopUp(call)), inv) <==> CreditsClosed(plans, s, TopUp(call), inv)
  {
    var t := Next(plans, s, TopUp(call));
    if CreditsLost(t, inv) {
      hide TopUpLedger;
      TopUpIsForItsCall(plans, s, call, inv);
    }
    if CreditsClosed(plans, s, TopUp(call), inv) {
      var c := s.calls[call];
      TopUpCredits(s.ledger, Credit(c.sub.customer, plans[c.row.plan].credits, inv));
    }
  }

  lemma OthersLoseNothing(plans: Plans, s: State, step: Step, inv: Id)
    requires !step.TopUp? && !step.CloseInvoice?
    ensures CreditsLost(Next(plans, s, step), inv) ==> CreditsLost(s, inv)
  {
    hide ClosedKey, Decimal, PeriodStart, Refused, HasCredit;
    SameStandingLosesNothing(s, Next(plans, s, step), inv);
  }

  /**
   In every run credits are in for a closed invoice that was never paid if and
   only if the run closed it while its credits were in, or put them in for a
   call that had read it before it was closed.
   */
  lemma {:induction false} LostExactlyWhen(plans: Plans, steps: seq<Step>, inv: Id)
    ensures CreditsLost(Run(plans, EMPTY, steps), inv) <==>
            exists n :: 0 <= n < |steps| && LosesCredits(plans, Run(plans, EMPTY, steps[..n]), steps[n], inv)
    decreases |steps|
  {
    hide Next, Run, LosesCredits;
    if steps == [] {
      NoSteps(plans, EMPTY);
    } else {
      var n := |steps| - 1;
      var front := steps[..n];
      var s := Run(plans, EMPTY, front);
      RunLast(plans, EMPTY, steps);
      RunKeepsReadOpen(plans, front);
      StepLosesCredits(plans, s, steps[n], inv);
      LostExactlyWhen(plans, front, inv);
      assert forall m :: 0 <= m < n ==> front[..m] == steps[..m] && front[m] == steps[m];
    }
  }

  /** And so every credited invoice is open, paid, or one of those. */
  lemma CreditedIsPaidUnlessLost(plans: Plans, steps: seq<Step>, inv: Id)
    requires Credited(Run(plans, EMPTY, steps), inv)
    ensures var s := Run(plans, EMPTY, steps);
            && inv in s.invs
            && (s.invs[inv].status !in {Open, Paid} <==>
                  exists n :: 0 <= n < |steps| && LosesCredits(plans, Run(plans, EMPTY, steps[..n]), steps[n], inv))
  {
    hide Run, Next, LosesCredits;
    EveryRun(plans, steps);
    LostExactlyWhen(plans, steps, inv);
    var s := Run(plans, EMPTY, steps);
    var k :| 0 <= k < |s.ledger| && s.ledger[k].reference == inv;
    assert CreditFits(plans, s.subs, s.invs, s.ledger[k]);
  }
}
