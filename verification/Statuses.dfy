/** When the status of a waiting order tells the truth about its stock, over every call and every run. */
module Statuses {
  import opened Schema
  import opened Reservations
  import opened Purchases
  import opened Withdrawals
  import opened Inventory
  import opened Fairness
  import opened Revisions
  import opened Workshop
  import opened Safety
  import opened Families

  /** Every waiting order is "ready to start" exactly when it holds all it asks for, else "awaiting purchase". */
  ghost predicate AllExact(t: Tables) {
    forall x :: 0 <= x < |t.orders| ==> StatusExact(t.orders, t.reservations, x)
  }

  /** The calls that keep statuses exact, told from the state before the call: all of them, except sending a
      revision while its order is ready to start with products, and an override to the wrong waiting status. */
  ghost predicate KeepsExact(t: Tables, step: Step) {
    match step
    case StepSendBudget(b, expires) =>
      (b < |t.budgets| && Sendable(t.budgets[b]) && FindOrder(t.budgets, t.orders, b).Some?) ==>
        var order := t.orders[FindOrder(t.budgets, t.orders, b).value];
        order.status != AguardandoInicio || order.products == []
    case StepOverrideStatus(o, s, reason) =>
      (Overridable(t, o, s, reason) && Waiting(s)) ==> s == Target(t.orders[o], o, t.reservations)
    case _ => true
  }

  /** Statuses stay exact where the waiting orders, their products and their reservations stay. */
  lemma ExactFrame(t: Tables, t': Tables, x: nat)
    requires x < |t.orders| && x < |t'.orders| && StatusExact(t.orders, t.reservations, x)
    requires Waiting(t'.orders[x].status) ==>
               && t'.orders[x].status == t.orders[x].status && t'.orders[x].products == t.orders[x].products
               && forall p :: Qty(t'.reservations, x, p) == Qty(t.reservations, x, p)
    ensures StatusExact(t'.orders, t'.reservations, x)
  {
  }

  lemma ReconcileKeepsExact(t: Tables, o: nat)
    requires RowsSound(t) && Reconcile(t, o).Committed?
    requires forall x :: 0 <= x < |t.orders| && (x != o || !Waiting(t.orders[o].status)) ==> StatusExact(t.orders, t.reservations, x)
    ensures AllExact(Reconcile(t, o).tables)
  {
    var t' := Reconcile(t, o).tables;
    if Waiting(t.orders[o].status) {
      forall x | 0 <= x < |t'.orders| ensures StatusExact(t'.orders, t'.reservations, x) {
        ReconcileStatuses(t, o, x);
      }
    } else {
      ReleaseEffect(t.reservations, o, {});
      forall x | 0 <= x < |t'.orders| ensures StatusExact(t'.orders, t'.reservations, x) {
        ExactFrame(t, t', x);
      }
    }
  }

  lemma ApplyApprovedKeepsExact(t: Tables, b: nat, now: int)
    requires Sound(t) && AllExact(t) && b < |t.budgets| && ApplyApproved(t, b, now).Committed?
    ensures AllExact(ApplyApproved(t, b, now).tables)
  {
    var found := FindOrder(t.budgets, t.orders, b);
    var o := if found.Some? then found.value else |t.orders|;
    var t1 := if found.Some? then t.(orders := t.orders[o := Revise(t.orders[o], t.budgets[b])])
              else t.(orders := t.orders + [NewOrder(t.budgets, b, now)]);
    if found.Some? {
      RevisedOrderIsSoundApart(t, o, t1.orders[o]);
    } else {
      NewOrderIsSoundApart(t, t1.orders[o]);
    }
    forall x | 0 <= x < |t1.orders| && x != o ensures StatusExact(t1.orders, t1.reservations, x) {
      ExactFrame(t, t1, x);
    }
    ReconcileKeepsExact(t1, o);
  }

  lemma ApproveKeepsExact(t: Tables, b: nat, now: int)
    requires Sound(t) && AllExact(t) && b < |t.budgets|
    requires ApplyApproved(MarkDecided(t, b, BudgetStatus.Approved), b, now).Committed?
    ensures AllExact(ApplyApproved(MarkDecided(t, b, BudgetStatus.Approved), b, now).tables)
  {
    var t1 := MarkDecided(t, b, BudgetStatus.Approved);
    BudgetKeepsSound(t, t1.budgets);
    assert AllExact(t1) by {
      forall x | 0 <= x < |t1.orders| ensures StatusExact(t1.orders, t1.reservations, x) { ExactFrame(t, t1, x); }
    }
    ApplyApprovedKeepsExact(t1, b, now);
  }

  /** Only the released order can stop being exact, and it does if it was ready to start and asked for something. */
  lemma ReleaseExactIff(t: Tables, t': Tables, o: nat)
    requires AllExact(t) && o < |t.orders| && |t'.orders| == |t.orders|
    requires t'.reservations == ReleaseExcept(t.reservations, o, {})
    requires forall x :: 0 <= x < |t.orders| && x != o ==> t'.orders[x] == t.orders[x]
    requires t'.orders[o] == t.orders[o].(status := t'.orders[o].status)
    requires Waiting(t'.orders[o].status) ==> t'.orders[o].status == t.orders[o].status
    ensures AllExact(t') <==> t'.orders[o].status != AguardandoInicio || t.orders[o].products == []
  {
    ReleaseEffect(t.reservations, o, {});
    forall x | 0 <= x < |t.orders| && x != o ensures StatusExact(t'.orders, t'.reservations, x) {
      assert StatusExact(t.orders, t.reservations, x);
      ExactFrame(t, t', x);
    }
    var order := t.orders[o];
    assert StatusExact(t.orders, t.reservations, o);
    assert AllExact(t') <==> StatusExact(t'.orders, t'.reservations, o);
    if order.products != [] {
      RequiredIffListed(order.products, order.products[0].item);
      assert !Covered(t'.orders[o], o, t'.reservations);
    } else {
      assert forall p :: Required(order.products, p) == 0;
    }
  }

  lemma SendExactIff(t: Tables, b: nat, expires: int)
    requires Sound(t) && AllExact(t) && Rooted(t.budgets) && SendBudget(t, b, expires).Committed?
    ensures AllExact(SendBudget(t, b, expires).tables) <==> KeepsExact(t, StepSendBudget(b, expires))
  {
    var t1 := MarkSent(t, b, expires);
    var t' := SendBudget(t, b, expires).tables;
    SearchFrame(t.budgets, t1.budgets, t.orders, b);
    var found := FindOrder(t.budgets, t.orders, b);
    if found.Some? {
      ReleaseExactIff(t, t', found.value);
    } else {
      forall x | 0 <= x < |t'.orders| ensures StatusExact(t'.orders, t'.reservations, x) { ExactFrame(t, t', x); }
    }
  }

  lemma OverrideExactIff(t: Tables, o: nat, s: OrderStatus, reason: string)
    requires Sound(t) && AllExact(t) && OverrideStatus(t, o, s, reason).Committed?
    ensures AllExact(OverrideStatus(t, o, s, reason).tables) <==> KeepsExact(t, StepOverrideStatus(o, s, reason))
  {
    var t' := OverrideStatus(t, o, s, reason).tables;
    forall x | 0 <= x < |t'.orders| && x != o ensures StatusExact(t'.orders, t'.reservations, x) { ExactFrame(t, t', x); }
    ShortIsNotCovered(t.orders[o], o, t.reservations);
    assert Covered(t'.orders[o], o, t'.reservations) == Covered(t.orders[o], o, t.reservations);
    assert AllExact(t') <==> StatusExact(t'.orders, t'.reservations, o);
  }

  lemma DecideKeepsExact(t: Tables, b: nat, approve: bool, now: int)
    requires Sound(t) && AllExact(t) && DecideBudget(t, b, approve, now).Committed?
    ensures AllExact(DecideBudget(t, b, approve, now).tables)
  {
    if t.budgets[b].used {
    } else if approve {
      ApproveKeepsExact(t, b, now);
    } else {
      var t' := DecideBudget(t, b, approve, now).tables;
      var found := FindOrder(MarkDecided(t, b, BudgetStatus.Rejected).budgets, t.orders, b);
      if found.Some? {
        ReleaseExactIff(t, t', found.value);
      } else {
        forall x | 0 <= x < |t'.orders| ensures StatusExact(t'.orders, t'.reservations, x) { ExactFrame(t, t', x); }
      }
    }
  }

  lemma FulfillKeepsExact(t: Tables, w: nat)
    requires Sound(t) && AllExact(t) && FulfillWithdrawal(t, w).Committed?
    ensures AllExact(FulfillWithdrawal(t, w).tables)
  {
    var t' := FulfillWithdrawal(t, w).tables;
    var withdrawal := t.withdrawals[w];
    var i := FindActive(t.reservations, withdrawal.order, withdrawal.product).value;
    PendingMeansExecuting(t, w);
    forall x | 0 <= x < |t'.orders| ensures StatusExact(t'.orders, t'.reservations, x) {
      if x != withdrawal.order {
        forall p ensures Qty(t'.reservations, x, p) == Qty(t.reservations, x, p) {
          ConsumeHeld(t.reservations, i, withdrawal.quantity, {x}, true, p);
        }
      }
      ExactFrame(t, t', x);
    }
  }

  lemma FinishKeepsExact(t: Tables, o: nat)
    requires Sound(t) && AllExact(t) && FinishService(t, o).Committed?
    ensures AllExact(FinishService(t, o).tables)
  {
    ReleaseExactIff(t, FinishService(t, o).tables, o);
  }

  /** The rest changes reservations of nobody and leaves waiting orders as they are. */
  lemma OrderCallKeepsExact(t: Tables, step: Step)
    requires Sound(t) && AllExact(t)
    requires step.StepAssignMechanic? || step.StepStartService? || step.StepRecordPayment? || step.StepDeliverOrder?
    ensures AllExact(Next(t, step))
  {
    var t' := Next(t, step);
    forall x | 0 <= x < |t'.orders| ensures StatusExact(t'.orders, t'.reservations, x) { ExactFrame(t, t', x); }
  }

  /** For every call: the statuses are exact afterwards if and only if the call is not one of the two exceptions. */
  lemma EveryCallExactIff(t: Tables, step: Step)
    requires Sound(t) && AllExact(t) && Rooted(t.budgets)
    ensures AllExact(Next(t, step)) <==> KeepsExact(t, step)
  {
    if Call(t, step).Committed? {
      match step
      case StepSendBudget(b, expires) => SendExactIff(t, b, expires);
      case StepApproveBudget(b, now) => ApproveKeepsExact(t, b, now);
      case StepDecideBudget(b, approve, now) => DecideKeepsExact(t, b, approve, now);
      case StepReconcile(o) => ReconcileKeepsExact(t, o);
      case StepReceiveGoods(r, units) =>
        GoodsInKeepsSound(t, r, units);
        if t.requests[r].order.Some? { ReconcileKeepsExact(GoodsIn(t, r, units), t.requests[r].order.value); }
      case StepFulfillWithdrawal(w) => FulfillKeepsExact(t, w);
      case StepFinishService(o) => FinishKeepsExact(t, o);
      case StepOverrideStatus(o, s, reason) => OverrideExactIff(t, o, s, reason);
      case StepAssignMechanic(o, name, reason) => OrderCallKeepsExact(t, step);
      case StepStartService(o) => OrderCallKeepsExact(t, step);
      case StepRecordPayment(i, amount, means, key) => OrderCallKeepsExact(t, step);
      case StepDeliverOrder(o) => OrderCallKeepsExact(t, step);
      case _ =>
    }
  }

  ghost predicate KeepsExactThroughout(steps: seq<Step>) {
    steps != [] ==>
      KeepsExactThroughout(steps[..|steps| - 1]) && KeepsExact(Run(Empty, steps[..|steps| - 1]), steps[|steps| - 1])
  }

  /** In every run without the two exceptions, every status tells the truth in every state reached. */
  lemma {:induction false} EveryRunIsExact(steps: seq<Step>)
    requires KeepsExactThroughout(steps)
    ensures AllExact(Run(Empty, steps))
  {
    if steps != [] {
      var n := |steps| - 1;
      EveryRunIsExact(steps[..n]);
      EveryRunIsSound(steps[..n]);
      EveryRunKeepsFamilies(steps[..n]);
      EveryCallExactIff(Run(Empty, steps[..n]), steps[n]);
    }
  }

  /** While statuses are exact, an order that is ready can always be started: the stock check never refuses it. */
  lemma ReadyMeansStartable(t: Tables, o: nat)
    requires AllExact(t) && o < |t.orders|
    ensures StartService(t, o).Committed? <==> t.orders[o].status == AguardandoInicio && t.orders[o].mechanic.Some?
  {
    ShortIsNotCovered(t.orders[o], o, t.reservations);
    assert StatusExact(t.orders, t.reservations, o);
  }
}
