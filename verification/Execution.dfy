/** Orders in execution: what starts them, what finishes them, and what makes finishing impossible. */
module Execution {
  import opened Schema
  import opened Reservations
  import opened Purchases
  import opened Withdrawals
  import opened AgeQueue
  import opened Inventory
  import opened Fairness
  import opened Revisions
  import opened Workshop
  import opened Lifecycle
  import opened Safety
  import opened Stock
  import opened Statuses

  // ---- entering and leaving ----

  /** Only starting an order puts it into execution, and then every product is reserved in full, no more and no less. */
  lemma EntersFullyReserved(t: Tables, step: Step, o: nat)
    requires Sound(t) && o < |t.orders| && t.orders[o].status != EmExecucao
    requires o < |Next(t, step).orders| && Next(t, step).orders[o].status == EmExecucao
    ensures step == StepStartService(o)
    ensures forall p :: Qty(Next(t, step).reservations, o, p) == Required(t.orders[o].products, p)
  {
    EveryCallStepsOrders(t, step);
    OnlyStartEnters(t, step, o);
    ShortIsNotCovered(t.orders[o], o, t.reservations);
    forall p ensures Qty(t.reservations, o, p) == Required(t.orders[o].products, p) {
      assert Fits(t.orders[o], o, p, t.reservations, t.withdrawals);
    }
  }

  lemma OnlyStartEnters(t: Tables, step: Step, o: nat)
    requires Sound(t) && o < |t.orders| && t.orders[o].status == AguardandoInicio
    requires o < |Next(t, step).orders| && Next(t, step).orders[o].status == EmExecucao
    ensures step == StepStartService(o)
  {
    if TouchesNoOrder(step) {
      QuietOrders(t, step);
    } else if step.StepReconcile? || step.StepReceiveGoods? {
      StockCallEntersNothing(t, step, o);
    } else if step.StepApproveBudget? || step.StepDecideBudget? {
      DecisionEntersNothing(t, step, o);
    }
  }

  lemma StockCallEntersNothing(t: Tables, step: Step, o: nat)
    requires step.StepReconcile? || step.StepReceiveGoods?
    requires o < |t.orders| && t.orders[o].status != EmExecucao
    ensures o < |Next(t, step).orders| && Next(t, step).orders[o].status != EmExecucao
  {
  }

  lemma DecisionEntersNothing(t: Tables, step: Step, o: nat)
    requires step.StepApproveBudget? || step.StepDecideBudget?
    requires o < |t.orders| && t.orders[o].status != EmExecucao
    ensures o < |Next(t, step).orders| && Next(t, step).orders[o].status != EmExecucao
  {
    if Call(t, step).Committed? && !(step.StepDecideBudget? && (!step.approve || t.budgets[step.budget].used)) {
      ApprovalEntersNothing(MarkDecided(t, step.budget, BudgetStatus.Approved), step.budget, step.now, o);
    }
  }

  lemma ApprovalEntersNothing(t: Tables, b: nat, now: int, o: nat)
    requires b < |t.budgets| && ApplyApproved(t, b, now).Committed?
    requires o < |t.orders| && t.orders[o].status != EmExecucao
    ensures o < |ApplyApproved(t, b, now).tables.orders| && ApplyApproved(t, b, now).tables.orders[o].status != EmExecucao
  {
    match FindOrder(t.budgets, t.orders, b)
    case None => ReconcileEntersNothing(t.(orders := t.orders + [NewOrder(t.budgets, b, now)]), |t.orders|, o);
    case Some(x) => ReconcileEntersNothing(t.(orders := t.orders[x := Revise(t.orders[x], t.budgets[b])]), x, o);
  }

  lemma ReconcileEntersNothing(t: Tables, x: nat, o: nat)
    requires Reconcile(t, x).Committed? && o < |t.orders| && t.orders[o].status != EmExecucao
    ensures var t' := Reconcile(t, x).tables; o < |t'.orders| && t'.orders[o].status != EmExecucao
  {
  }

  /** A withdrawal may be asked for exactly when the order executes, something is asked for, and what has then been
      asked for stays within the scope; the request is filed and nothing else changes. */
  lemma RequestIff(t: Tables, o: nat, p: nat, quantity: int)
    requires Sound(t)
    ensures RequestWithdrawal(t, o, p, quantity).Committed? <==>
            && o < |t.orders| && t.orders[o].status == EmExecucao
            && 0 < quantity <= Required(t.orders[o].products, p) - Asked(t.withdrawals, o, p)
    ensures RequestWithdrawal(t, o, p, quantity).Committed? ==>
              var t' := RequestWithdrawal(t, o, p, quantity).tables;
              && t' == t.(withdrawals := t'.withdrawals)
              && (forall x, q :: Asked(t'.withdrawals, x, q) == Asked(t.withdrawals, x, q) + (if x == o && q == p then quantity else 0))
              && (forall x, q :: Taken(t'.withdrawals, x, q) == Taken(t.withdrawals, x, q))
  {
    if RequestWithdrawal(t, o, p, quantity).Committed? {
      var t' := RequestWithdrawal(t, o, p, quantity).tables;
      forall x: nat, q: nat
        ensures Asked(t'.withdrawals, x, q) == Asked(t.withdrawals, x, q) + (if x == o && q == p then quantity else 0)
        ensures Taken(t'.withdrawals, x, q) == Taken(t.withdrawals, x, q)
      {
        SumsAppend(t.withdrawals, Withdrawal(o, p, quantity, Unfulfilled), x, q);
      }
    }
  }

  lemma PartGoesThrough(t: Tables, o: nat, p: nat, quantity: Pos)
    requires Sound(t) && o < |t.orders| && t.orders[o].status == EmExecucao
    requires Asked(t.withdrawals, o, p) + quantity <= Required(t.orders[o].products, p)
    ensures var step := StepRequestWithdrawal(o, p, quantity);
            && Call(t, step).Committed? && Sound(Next(t, step)) && Next(t, step).orders == t.orders
            && Asked(Next(t, step).withdrawals, o, p) == Asked(t.withdrawals, o, p) + quantity
  {
    RequestIff(t, o, p, quantity);
    RequestWithdrawalKeepsSound(t, o, p, quantity);
  }

  function Requests(o: nat, p: nat, parts: seq<Pos>): seq<Step> {
    seq(|parts|, i requires 0 <= i < |parts| => StepRequestWithdrawal(o, p, parts[i]))
  }

  function PartsSum(parts: seq<Pos>): nat {
    if parts == [] then 0 else PartsSum(parts[..|parts| - 1]) + parts[|parts| - 1]
  }

  /** An executing order, of which this much of p has been asked for. */
  ghost predicate AskedSoFar(t: Tables, orders: seq<Order>, o: nat, p: nat, units: int) {
    Sound(t) && t.orders == orders && o < |orders| && orders[o].status == EmExecucao && Asked(t.withdrawals, o, p) == units
  }

  lemma {:induction false} PartsAddUp(t: Tables, o: nat, p: nat, parts: seq<Pos>)
    requires AskedSoFar(t, t.orders, o, p, Asked(t.withdrawals, o, p))
    requires Asked(t.withdrawals, o, p) + PartsSum(parts) <= Required(t.orders[o].products, p)
    ensures AskedSoFar(Run(t, Requests(o, p, parts)), t.orders, o, p, Asked(t.withdrawals, o, p) + PartsSum(parts))
  {
    if parts != [] {
      var n := |parts| - 1;
      PartsAddUp(t, o, p, parts[..n]);
      assert Requests(o, p, parts) == Requests(o, p, parts[..n]) + [StepRequestWithdrawal(o, p, parts[n])];
      RunNext(t, Requests(o, p, parts[..n]), StepRequestWithdrawal(o, p, parts[n]));
      PartGoesThrough(Run(t, Requests(o, p, parts[..n])), o, p, parts[n]);
    }
  }

  lemma {:induction false} PrefixSum(parts: seq<Pos>, k: nat)
    requires k < |parts|
    ensures PartsSum(parts[..k]) + parts[k] <= PartsSum(parts)
  {
    var n := |parts| - 1;
    if k < n {
      PrefixSum(parts[..n], k);
      assert parts[..n][..k] == parts[..k];
    }
  }

  /** What is left of an executing order's scope may be asked for in any positive parts: each part goes through, and
      together they are asked for. */
  lemma AnySplitGoesThrough(t: Tables, o: nat, p: nat, parts: seq<Pos>)
    requires Sound(t) && o < |t.orders| && t.orders[o].status == EmExecucao
    requires Asked(t.withdrawals, o, p) + PartsSum(parts) <= Required(t.orders[o].products, p)
    ensures forall k :: 0 <= k < |parts| ==>
              Call(Run(t, Requests(o, p, parts[..k])), StepRequestWithdrawal(o, p, parts[k])).Committed?
    ensures Asked(Run(t, Requests(o, p, parts)).withdrawals, o, p) == Asked(t.withdrawals, o, p) + PartsSum(parts)
  {
    PartsAddUp(t, o, p, parts);
    forall k: nat | k < |parts| ensures Call(Run(t, Requests(o, p, parts[..k])), StepRequestWithdrawal(o, p, parts[k])).Committed? {
      PrefixSum(parts, k);
      PartsAddUp(t, o, p, parts[..k]);
      PartGoesThrough(Run(t, Requests(o, p, parts[..k])), o, p, parts[k]);
    }
  }

  ghost predicate AllTaken(t: Tables, o: nat)
    requires o < |t.orders|
  {
    forall p :: Taken(t.withdrawals, o, p) == Required(t.orders[o].products, p)
  }

  /** An order can be finished exactly when it is in execution and every product was taken out in full. */
  lemma FinishIff(t: Tables, o: nat)
    requires Sound(t) && o < |t.orders|
    ensures FinishService(t, o).Committed? <==>
            t.orders[o].status == EmExecucao
            && AllTaken(t, o)
  {
    if t.orders[o].status == EmExecucao {
      forall p ensures Taken(t.withdrawals, o, p) <= Required(t.orders[o].products, p) {
        assert Fits(t.orders[o], o, p, t.reservations, t.withdrawals);
        RequiredIffListed(t.orders[o].products, p);
      }
      if Untaken(t, o) {
        var k :| 0 <= k < |t.orders[o].products| &&
          Taken(t.withdrawals, o, t.orders[o].products[k].item) < Required(t.orders[o].products, t.orders[o].products[k].item);
        var p := t.orders[o].products[k].item;
        assert Taken(t.withdrawals, o, p) != Required(t.orders[o].products, p);
      } else {
        forall p ensures Taken(t.withdrawals, o, p) == Required(t.orders[o].products, p) {
          RequiredIffListed(t.orders[o].products, p);
          assert Taken(t.withdrawals, o, p) <= Required(t.orders[o].products, p);
        }
      }
    }
  }

  /** In every reachable state: requests of an executing order stay within its scope; a finished order has
      had exactly its scope taken out, has no request pending and holds no reservation. */
  lemma ExecutionIsExact(steps: seq<Step>, o: nat, p: nat)
    requires o < |Run(Empty, steps).orders|
    ensures var t := Run(Empty, steps);
            var order := t.orders[o];
            && (order.status == EmExecucao ==> Asked(t.withdrawals, o, p) <= Required(order.products, p))
            && (Closed(order.status) ==>
                  && Taken(t.withdrawals, o, p) == Required(order.products, p)
                  && (forall w :: 0 <= w < |t.withdrawals| && t.withdrawals[w].order == o && t.withdrawals[w].product == p ==>
                        t.withdrawals[w].status != Unfulfilled)
                  && forall r :: 0 <= r < |t.reservations| ==> !IsActive(t.reservations[r], o, p))
  {
    var t := Run(Empty, steps);
    EveryRunIsSound(steps);
    assert Fits(t.orders[o], o, p, t.reservations, t.withdrawals);
    NonePending(t.withdrawals, o, p);
    QtyZero(t.reservations, o, p);
  }

  // ---- released while executing ----

  /** What the order still holds and what has been taken for it do not add up to what it asks for. */
  ghost predicate Stranded(t: Tables, o: nat, p: nat) {
    && o < |t.orders| && t.orders[o].status == EmExecucao
    && Qty(t.reservations, o, p) + Taken(t.withdrawals, o, p) < Required(t.orders[o].products, p)
  }

  /** The calls that release an executing order's reservations, told from the state before the call. */
  predicate Releases(t: Tables, step: Step, o: nat) {
    match step
    case StepReconcile(x) => x == o
    case StepReceiveGoods(r, units) => Receivable(t, r, units) && t.requests[r].order == Some(o)
    case StepSendBudget(b, expires) => b < |t.budgets| && Sendable(t.budgets[b]) && FindOrder(t.budgets, t.orders, b) == Some(o)
    case _ => false
  }

  lemma ReconcileLeavesExecuting(t: Tables, x: nat, o: nat, p: nat)
    requires RowsSound(t) && Reconcile(t, x).Committed? && o < |t.orders| && t.orders[o].status == EmExecucao
    ensures Qty(Reconcile(t, x).tables.reservations, o, p) == if x == o then 0 else Qty(t.reservations, o, p)
  {
    if Waiting(t.orders[x].status) {
      OthersKeepTheirs(t, x, o, p);
    } else {
      ReleaseHeld(t.reservations, x, {}, {o}, true, p);
    }
  }

  lemma ApprovalLeavesExecuting(t: Tables, b: nat, now: int, o: nat, p: nat)
    requires Sound(t) && b < |t.budgets| && ApplyApproved(t, b, now).Committed?
    requires o < |t.orders| && t.orders[o].status == EmExecucao
    ensures Qty(ApplyApproved(t, b, now).tables.reservations, o, p) == Qty(t.reservations, o, p)
    ensures ApplyApproved(t, b, now).tables.withdrawals == t.withdrawals
  {
    ApplyApprovedGrows(t, b, now);
    match FindOrder(t.budgets, t.orders, b)
    case None =>
      NewOrderIsSoundApart(t, NewOrder(t.budgets, b, now));
      ReconcileLeavesExecuting(t.(orders := t.orders + [NewOrder(t.budgets, b, now)]), |t.orders|, o, p);
    case Some(x) =>
      RevisedOrderIsSoundApart(t, x, Revise(t.orders[x], t.budgets[b]));
      ReconcileLeavesExecuting(t.(orders := t.orders[x := Revise(t.orders[x], t.budgets[b])]), x, o, p);
  }

  lemma FulfillMovesUnits(t: Tables, w: nat, o: nat, p: nat)
    requires FulfillWithdrawal(t, w).Committed?
    ensures var t' := FulfillWithdrawal(t, w).tables;
            Qty(t'.reservations, o, p) + Taken(t'.withdrawals, o, p) == Qty(t.reservations, o, p) + Taken(t.withdrawals, o, p)
  {
    var withdrawal := t.withdrawals[w];
    var i := FindActive(t.reservations, withdrawal.order, withdrawal.product).value;
    ConsumeHeld(t.reservations, i, withdrawal.quantity, {o}, true, p);
    SumsUpdate(t.withdrawals, w, withdrawal.(status := Fulfilled), o, p);
  }

  /** While an order executes, what it holds plus what was taken for it moves only when a call releases it. */
  lemma SendLeavesExecuting(t: Tables, b: nat, expires: int, o: nat, p: nat)
    requires SendBudget(t, b, expires).Committed?
    ensures var t' := SendBudget(t, b, expires).tables;
            && t'.withdrawals == t.withdrawals
            && Qty(t'.reservations, o, p) == if FindOrder(t.budgets, t.orders, b) == Some(o) then 0 else Qty(t.reservations, o, p)
  {
    SearchFrame(t.budgets, MarkSent(t, b, expires).budgets, t.orders, b);
    var found := FindOrder(t.budgets, t.orders, b);
    if found.Some? { ReleaseHeld(t.reservations, found.value, {}, {o}, true, p); }
  }

  lemma ExecutingUnits(t: Tables, step: Step, o: nat, p: nat)
    requires Sound(t) && Rooted(t.budgets) && o < |t.orders| && t.orders[o].status == EmExecucao
    requires step != StepFinishService(o)
    ensures var t' := Next(t, step);
            Qty(t'.reservations, o, p) + Taken(t'.withdrawals, o, p) ==
            (if Releases(t, step, o) then 0 else Qty(t.reservations, o, p)) + Taken(t.withdrawals, o, p)
  {
    if TouchesNoUnits(step) {
      QuietUnits(t, step);
    } else if step.StepSendBudget? || step.StepApproveBudget? || step.StepDecideBudget? {
      BudgetCallUnits(t, step, o, p);
    } else if Call(t, step).Committed? {
      match step
      case StepReconcile(x) =>
        ReconcileGrows(t, x);
        ReconcileLeavesExecuting(t, x, o, p);
      case StepReceiveGoods(r, units) => ReceiveLeavesExecuting(t, r, units, o, p);
      case StepRequestWithdrawal(x, q, units) => SumsAppend(t.withdrawals, Withdrawal(x, q, units, Unfulfilled), o, p);
      case StepFulfillWithdrawal(w) => FulfillMovesUnits(t, w, o, p);
      case StepFinishService(x) => ReleaseHeld(t.reservations, x, {}, {o}, true, p);
    }
  }

  lemma BudgetCallUnits(t: Tables, step: Step, o: nat, p: nat)
    requires Sound(t) && Rooted(t.budgets) && o < |t.orders| && t.orders[o].status == EmExecucao
    requires step.StepSendBudget? || step.StepApproveBudget? || step.StepDecideBudget?
    ensures var t' := Next(t, step);
            Qty(t'.reservations, o, p) + Taken(t'.withdrawals, o, p) ==
            (if Releases(t, step, o) then 0 else Qty(t.reservations, o, p)) + Taken(t.withdrawals, o, p)
  {
    if Call(t, step).Committed? {
      match step
      case StepSendBudget(b, expires) =>
        SendLeavesExecuting(t, b, expires, o, p);
      case StepApproveBudget(b, now) =>
        BudgetKeepsSound(t, MarkDecided(t, b, BudgetStatus.Approved).budgets);
        ApprovalLeavesExecuting(MarkDecided(t, b, BudgetStatus.Approved), b, now, o, p);
      case StepDecideBudget(b, approve, now) =>
        if !t.budgets[b].used { DecideLeavesExecuting(t, b, approve, now, o, p); }
    }
  }

  lemma DecideLeavesExecuting(t: Tables, b: nat, approve: bool, now: int, o: nat, p: nat)
    requires Sound(t) && DecideBudget(t, b, approve, now).Committed? && !t.budgets[b].used
    requires o < |t.orders| && t.orders[o].status == EmExecucao
    ensures var t' := DecideBudget(t, b, approve, now).tables;
            Qty(t'.reservations, o, p) == Qty(t.reservations, o, p) && t'.withdrawals == t.withdrawals
  {
    if approve {
      BudgetKeepsSound(t, MarkDecided(t, b, BudgetStatus.Approved).budgets);
      ApprovalLeavesExecuting(MarkDecided(t, b, BudgetStatus.Approved), b, now, o, p);
    } else {
      var found := FindOrder(MarkDecided(t, b, BudgetStatus.Rejected).budgets, t.orders, b);
      if found.Some? { ReleaseHeld(t.reservations, found.value, {}, {o}, true, p); }
    }
  }

  lemma ReceiveLeavesExecuting(t: Tables, r: nat, units: int, o: nat, p: nat)
    requires Sound(t) && ReceiveGoods(t, r, units).Committed? && o < |t.orders| && t.orders[o].status == EmExecucao
    ensures var t' := ReceiveGoods(t, r, units).tables;
            && t'.withdrawals == t.withdrawals
            && Qty(t'.reservations, o, p) == if t.requests[r].order == Some(o) then 0 else Qty(t.reservations, o, p)
  {
    GoodsInKeepsSound(t, r, units);
    if t.requests[r].order.Some? {
      ReconcileGrows(GoodsIn(t, r, units), t.requests[r].order.value);
      ReconcileLeavesExecuting(GoodsIn(t, r, units), t.requests[r].order.value, o, p);
    }
  }

  lemma StrandedStays(t: Tables, step: Step, o: nat, p: nat)
    requires Sound(t) && Rooted(t.budgets) && Stranded(t, o, p)
    ensures Stranded(Next(t, step), o, p)
  {
    EveryCallStepsOrders(t, step);
    FinishIff(t, o);
    if step != StepFinishService(o) { ExecutingUnits(t, step, o, p); }
    OnlyFinishLeaves(t, step, o);
  }

  lemma OnlyFinishLeaves(t: Tables, step: Step, o: nat)
    requires o < |t.orders| && t.orders[o].status == EmExecucao
    ensures o < |Next(t, step).orders|
    ensures Next(t, step).orders[o].status != EmExecucao ==> step == StepFinishService(o) && FinishService(t, o).Committed?
  {
    if TouchesNoOrder(step) {
      QuietOrders(t, step);
    } else if step.StepReconcile? || step.StepReceiveGoods? {
      StockCallKeepsBegun(t, step, o);
    } else if step.StepApproveBudget? || step.StepDecideBudget? {
      DecisionKeepsBegun(t, step, o);
    } else if step.StepFinishService? {
      FinishLeaves(t, step.order, o);
    } else {
      OtherCallKeepsExecuting(t, step, o);
    }
  }

  lemma FinishLeaves(t: Tables, x: nat, o: nat)
    requires o < |t.orders| && t.orders[o].status == EmExecucao
    ensures var t' := Next(t, StepFinishService(x));
            && o < |t'.orders|
            && (t'.orders[o].status != EmExecucao ==> x == o && FinishService(t, o).Committed?)
  {
  }

  lemma OtherCallKeepsExecuting(t: Tables, step: Step, o: nat)
    requires step.StepSendBudget? || step.StepAssignMechanic? || step.StepOverrideStatus?
          || step.StepStartService? || step.StepRecordPayment? || step.StepDeliverOrder?
    requires o < |t.orders| && t.orders[o].status == EmExecucao
    ensures o < |Next(t, step).orders| && Next(t, step).orders[o].status == EmExecucao
  {
  }

  lemma StockCallKeepsBegun(t: Tables, step: Step, o: nat)
    requires step.StepReconcile? || step.StepReceiveGoods?
    requires o < |t.orders| && t.orders[o].status == EmExecucao
    ensures o < |Next(t, step).orders| && Next(t, step).orders[o] == t.orders[o]
  {
    if Call(t, step).Committed? {
      if step.StepReconcile? {
        ReconcileSteps(t, step.order);
      } else if t.requests[step.request].order.Some? {
        ReconcileSteps(GoodsIn(t, step.request, step.units), t.requests[step.request].order.value);
      }
    }
  }

  lemma DecisionKeepsBegun(t: Tables, step: Step, o: nat)
    requires step.StepApproveBudget? || step.StepDecideBudget?
    requires o < |t.orders| && t.orders[o].status == EmExecucao
    ensures o < |Next(t, step).orders| && Next(t, step).orders[o].status == EmExecucao
  {
    if Call(t, step).Committed? && !(step.StepDecideBudget? && (!step.approve || t.budgets[step.budget].used)) {
      ApprovalKeepsBegun(MarkDecided(t, step.budget, BudgetStatus.Approved), step.budget, step.now, o);
    }
  }

  lemma ApprovalKeepsBegun(t: Tables, b: nat, now: int, o: nat)
    requires b < |t.budgets| && ApplyApproved(t, b, now).Committed?
    requires o < |t.orders| && t.orders[o].status == EmExecucao
    ensures o < |ApplyApproved(t, b, now).tables.orders| && ApplyApproved(t, b, now).tables.orders[o] == t.orders[o]
  {
    match FindOrder(t.budgets, t.orders, b)
    case None => ReconcileSteps(t.(orders := t.orders + [NewOrder(t.budgets, b, now)]), |t.orders|);
    case Some(x) => ReconcileSteps(t.(orders := t.orders[x := Revise(t.orders[x], t.budgets[b])]), x);
  }
}
