/** How orders move, over every call and every run. */
module Lifecycle {
  import opened Schema
  import opened Reservations
  import opened Inventory
  import opened Revisions
  import opened Workshop

  /** At most two moves of the matrix: an approval may be followed by the stock check of the same call. */
  ghost predicate Path(s: OrderStatus, s': OrderStatus) {
    s == s' || Allowed(s, s') || exists m :: Allowed(s, m) && Allowed(m, s')
  }

  /** What one call may do to an order that exists. */
  ghost predicate OrderStep(o: Order, o': Order, breakGlass: bool) {
    && o'.budget == o.budget && o'.vehicle == o.vehicle && o'.createdAt == o.createdAt
    && (Path(o.status, o'.status) || (breakGlass && BreakGlass(o.status) && BreakGlass(o'.status)))
    && (o'.products != o.products || o'.services != o.services || o'.total != o.total ==> Revisable(o.status))
    && (Begun(o.status) && o'.status != o.status ==> Allowed(o.status, o'.status))
    && (o'.status == EmExecucao && o.status != EmExecucao ==> o.status == AguardandoInicio && o'.mechanic == o.mechanic && o.mechanic.Some?)
  }

  ghost predicate OrdersStep(orders: seq<Order>, orders': seq<Order>, breakGlass: bool) {
    && |orders| <= |orders'| <= |orders| + 1
    && (forall x :: 0 <= x < |orders| ==> OrderStep(orders[x], orders'[x], breakGlass))
    && (forall x :: |orders| <= x < |orders'| ==> Waiting(orders'[x].status) && orders'[x].mechanic.None?)
  }

  lemma WaitingPaths(s: OrderStatus, s': OrderStatus)
    requires Waiting(s) && Waiting(s')
    ensures Path(s, s') && Path(AguardandoAprovacao, s')
  {
    assert Allowed(AguardandoAprovacao, AguardandoInicio);
  }

  lemma ReconcileSteps(t: Tables, o: nat)
    requires Reconcile(t, o).Committed?
    ensures var t' := Reconcile(t, o).tables;
            && |t'.orders| == |t.orders|
            && forall x :: 0 <= x < |t.orders| ==>
                 && t'.orders[x] == t.orders[x].(status := t'.orders[x].status)
                 && (t'.orders[x].status != t.orders[x].status ==> Waiting(t.orders[x].status) && Waiting(t'.orders[x].status))
  {
  }

  lemma ApplyApprovedSteps(t: Tables, b: nat, now: int)
    requires b < |t.budgets| && ApplyApproved(t, b, now).Committed?
    ensures OrdersStep(t.orders, ApplyApproved(t, b, now).tables.orders, false)
  {
    var t' := ApplyApproved(t, b, now).tables;
    var budget := t.budgets[b];
    match FindOrder(t.budgets, t.orders, b)
    case None =>
      ReconcileSteps(t.(orders := t.orders + [NewOrder(t.budgets, b, now)]), |t.orders|);
      forall x | 0 <= x < |t.orders| ensures OrderStep(t.orders[x], t'.orders[x], false) {
        if Waiting(t.orders[x].status) && Waiting(t'.orders[x].status) { WaitingPaths(t.orders[x].status, t'.orders[x].status); }
      }
    case Some(o) =>
      ReconcileSteps(t.(orders := t.orders[o := Revise(t.orders[o], budget)]), o);
      forall x | 0 <= x < |t.orders| ensures OrderStep(t.orders[x], t'.orders[x], false) {
        if x == o {
          WaitingPaths(Revise(t.orders[o], budget).status, t'.orders[x].status);
        } else if Waiting(t.orders[x].status) && Waiting(t'.orders[x].status) {
          WaitingPaths(t.orders[x].status, t'.orders[x].status);
        }
      }
  }

  lemma ReconcileIsOrdersStep(t: Tables, t1: Tables, o: nat)
    requires t1.orders == t.orders && Reconcile(t1, o).Committed?
    ensures OrdersStep(t.orders, Reconcile(t1, o).tables.orders, false)
  {
    ReconcileSteps(t1, o);
    var t' := Reconcile(t1, o).tables;
    forall x | 0 <= x < |t.orders| ensures OrderStep(t.orders[x], t'.orders[x], false) {
      if Waiting(t.orders[x].status) && Waiting(t'.orders[x].status) { WaitingPaths(t.orders[x].status, t'.orders[x].status); }
    }
  }

  lemma BudgetCallsStep(t: Tables, step: Step)
    requires step.StepSendBudget? || step.StepApproveBudget? || step.StepDecideBudget?
    ensures OrdersStep(t.orders, Next(t, step).orders, false)
  {
    if Call(t, step).Committed? {
      match step
      case StepSendBudget(b, expires) =>
      case StepApproveBudget(b, now) =>
        ApplyApprovedSteps(MarkDecided(t, b, BudgetStatus.Approved), b, now);
      case StepDecideBudget(b, approve, now) =>
        if approve && !t.budgets[b].used {
          ApplyApprovedSteps(MarkDecided(t, b, BudgetStatus.Approved), b, now);
        }
    }
  }

  lemma StockCallsStep(t: Tables, step: Step)
    requires step.StepReconcile? || step.StepReceiveGoods?
    ensures OrdersStep(t.orders, Next(t, step).orders, false)
  {
    if Call(t, step).Committed? {
      match step
      case StepReconcile(o) => ReconcileIsOrdersStep(t, t, o);
      case StepReceiveGoods(r, units) =>
        if t.requests[r].order.Some? { ReconcileIsOrdersStep(t, GoodsIn(t, r, units), t.requests[r].order.value); }
    }
  }

  lemma OneOrderStep(orders: seq<Order>, o: nat, order: Order, breakGlass: bool)
    requires o < |orders| && OrderStep(orders[o], order, breakGlass)
    ensures OrdersStep(orders, orders[o := order], breakGlass)
  {
  }

  lemma MovingCallSteps(t: Tables, step: Step)
    requires step.StepStartService? || step.StepFinishService? || step.StepDeliverOrder?
    ensures OrdersStep(t.orders, Next(t, step).orders, false)
  {
    if Call(t, step).Committed? { OneOrderStep(t.orders, step.order, Next(t, step).orders[step.order], false); }
  }

  lemma OrderCallsStep(t: Tables, step: Step)
    requires step.StepAssignMechanic? || step.StepStartService? || step.StepFinishService?
          || step.StepRecordPayment? || step.StepDeliverOrder? || step.StepOverrideStatus?
    ensures OrdersStep(t.orders, Next(t, step).orders, step.StepOverrideStatus?)
  {
    var t' := Next(t, step);
    if step.StepStartService? || step.StepFinishService? || step.StepDeliverOrder? {
      MovingCallSteps(t, step);
    } else if t'.orders != t.orders {
      var o := if step.StepRecordPayment? then t.invoices[step.invoice].order else step.order;
      assert t'.orders == t.orders[o := t'.orders[o]];
      OneOrderStep(t.orders, o, t'.orders[o], step.StepOverrideStatus?);
    }
  }

  /** The calls that leave the order table alone. */
  predicate TouchesNoOrder(step: Step) {
    step.StepAddProduct? || step.StepAdjustStock? || step.StepCreateBudget? || step.StepEditBudget? || step.StepCreateRevision?
    || step.StepRequestPurchase? || step.StepRequestWithdrawal? || step.StepFulfillWithdrawal? || step.StepCreateInvoice?
  }

  lemma QuietOrders(t: Tables, step: Step)
    requires TouchesNoOrder(step)
    ensures Next(t, step).orders == t.orders
  {
  }

  /** The calls that leave reservations and withdrawals alone. */
  predicate TouchesNoUnits(step: Step) {
    step.StepAddProduct? || step.StepAdjustStock? || step.StepCreateBudget? || step.StepEditBudget? || step.StepCreateRevision?
    || step.StepRequestPurchase? || step.StepAssignMechanic? || step.StepStartService? || step.StepCreateInvoice?
    || step.StepRecordPayment? || step.StepDeliverOrder? || step.StepOverrideStatus?
  }

  lemma QuietUnits(t: Tables, step: Step)
    requires TouchesNoUnits(step)
    ensures Next(t, step).reservations == t.reservations && Next(t, step).withdrawals == t.withdrawals
  {
  }

  /** Every call, whatever its arguments and outcome, moves orders only along the matrix (or, for the
      administrator's override, between the correctable statuses), creates at most one order, and
      changes what an order contains only while it awaits approval or start. */
  lemma EveryCallStepsOrders(t: Tables, step: Step)
    ensures OrdersStep(t.orders, Next(t, step).orders, step.StepOverrideStatus?)
  {
    if step.StepSendBudget? || step.StepApproveBudget? || step.StepDecideBudget? {
      BudgetCallsStep(t, step);
    } else if step.StepReconcile? || step.StepReceiveGoods? {
      StockCallsStep(t, step);
    } else if step.StepAssignMechanic? || step.StepStartService? || step.StepFinishService?
           || step.StepRecordPayment? || step.StepDeliverOrder? || step.StepOverrideStatus? {
      OrderCallsStep(t, step);
    } else {
      QuietOrders(t, step);
    }
  }

  // ---- runs ----

  lemma RunNext(t: Tables, steps: seq<Step>, step: Step)
    ensures Run(t, steps + [step]) == Next(Run(t, steps), step)
  {
    assert (steps + [step])[..|steps|] == steps;
  }

  lemma {:induction false} RunThen(t: Tables, first: seq<Step>, rest: seq<Step>)
    ensures Run(t, first + rest) == Run(Run(t, first), rest)
  {
    if rest == [] {
      assert first + rest == first;
    } else {
      RunThen(t, first, rest[..|rest| - 1]);
      assert (first + rest)[..|first + rest| - 1] == first + rest[..|rest| - 1];
    }
  }

  // ---- frozen once begun ----

  /** An order whose execution has begun: same scope, and never back to a status before. */
  ghost predicate Frozen(o: Order, o': Order) {
    && Begun(o'.status)
    && o'.products == o.products && o'.services == o.services && o'.total == o.total
    && o'.vehicle == o.vehicle && o'.budget == o.budget
    && (Closed(o.status) ==> Closed(o'.status))
    && (o.status == Entregue ==> o'.status == Entregue)
  }

  /** From the moment execution begins, the scope never changes again and the order only goes forward, in every run. */
  lemma {:induction false} ScopeFrozenOnceBegun(t: Tables, steps: seq<Step>, o: nat)
    requires o < |t.orders| && Begun(t.orders[o].status)
    ensures o < |Run(t, steps).orders| && Frozen(t.orders[o], Run(t, steps).orders[o])
  {
    if steps != [] {
      var n := |steps| - 1;
      ScopeFrozenOnceBegun(t, steps[..n], o);
      EveryCallStepsOrders(Run(t, steps[..n]), steps[n]);
    }
  }
}
