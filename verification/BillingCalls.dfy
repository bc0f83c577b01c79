/** Serial runs of the billing loop: calls of public methods, and the tables after each of them. */
module BillingCalls {
  import opened Basics
  import opened BillingTypes
  import opened BillingState
  import opened BillingKeeps
  import opened BillingTick
  import opened BillingEffects

  /** A call of a public method, and the time its clock shows. */
  datatype Call =
    | Subscribe(now: nat, customer: Id, plan: Id, charge: Option<Id>)
    | ChangePlan(now: nat, id: Id, plan: Id, charge: Option<Id>)
    | Cancel(now: nat, id: Id)
    | CancelNow(now: nat, id: Id)
    | Renew(now: nat, id: Id, charge: Option<Id>)
    | Reissue(now: nat, inv: Id, charge: Option<Id>)
    | OnPaid(now: nat, inv: Id)
    | OnChargeLost(now: nat, inv: Id)
    | TickAt(now: nat, gateway: Gateway, retry: Gateway)

  /** What a call makes of the tables. */
  ghost predicate Effect(cfg: Config, a: Db, call: Call, b: Db) {
    match call
    case Subscribe(now, customer, plan, _) => exists r, id, i :: Subscribed(cfg, a, b, customer, plan, now, r, id, i)
    case ChangePlan(now, id, plan, _) => exists r :: PlanChanged(cfg, a, b, id, plan, now, r)
    case Cancel(now, id) => exists r :: EndAsked(a, b, id, now, r)
    case CancelNow(now, id) => exists r :: EndedNow(a, b, id, now, r)
    case Renew(now, id, _) => exists r :: Renewed(cfg, a, b, id, now, r)
    case Reissue(now, i, charge) => exists r :: Reissued(a, b, i, now, charge, r)
    case OnPaid(now, i) => exists r :: Settles(cfg, a, b, i, now, r)
    case OnChargeLost(now, i) => ChargeLost(a, b, i, now)
    case TickAt(now, gateway, retry) => exists tick :: TickDone(cfg, a, b, gateway, retry, now, tick)
  }

  /** Clock readings never go back. */
  predicate InTime(calls: seq<Call>) {
    forall k :: 0 < k < |calls| ==> calls[k - 1].now <= calls[k].now
  }

  /** The tables before the first call and after each one. */
  ghost predicate Follows(cfg: Config, calls: seq<Call>, run: seq<Db>) {
    && |run| == |calls| + 1 && run[0] == EMPTY
    && forall k :: 0 <= k < |calls| ==> Effect(cfg, run[k], calls[k], run[k + 1])
  }

  /** At most one of them is open, and no two paid periods overlap. */
  ghost predicate NoTwoAlike(db: Db) {
    forall id, i, j :: id in db.subs && Mine(db, i, id) && Mine(db, j, id) && i != j ==>
      && !(db.invs[i].status == db.invs[j].status == Open)
      && (db.invs[i].status == db.invs[j].status == Paid ==> Disjoint(db.invs[i], db.invs[j]))
  }
}
