/** What every reachable state of stock, reservations and withdrawals satisfies. */
module Safety {
  import opened Schema
  import opened Reservations
  import opened Purchases
  import opened Withdrawals
  import opened AgeQueue
  import opened Inventory
  import opened Fairness
  import opened Revisions
  import opened Workshop

  // ---- the invariant ----

  /** Order x and its units of one product, by phase. Before execution nothing has been asked out and the
      reservation stays within the scope; during execution requests stay within the scope, and what is
      reserved and what is taken share it; once finished, all of it has been taken and nothing is held. */
  ghost predicate Fits(o: Order, x: nat, p: nat, rs: seq<Reservation>, ws: seq<Withdrawal>) {
    var need := Required(o.products, p);
    if Closed(o.status) then Qty(rs, x, p) == 0 && Asked(ws, x, p) == need && Taken(ws, x, p) == need
    else if o.status == EmExecucao then Asked(ws, x, p) <= need && Qty(rs, x, p) + Taken(ws, x, p) <= need
    else Asked(ws, x, p) == 0 && Qty(rs, x, p) <= need
  }

  ghost predicate OrderFits(o: Order, x: nat, rs: seq<Reservation>, ws: seq<Withdrawal>) {
    forall p :: Fits(o, x, p, rs, ws)
  }

  ghost predicate OrdersFit(t: Tables) {
    forall x :: 0 <= x < |t.orders| ==> OrderFits(t.orders[x], x, t.reservations, t.withdrawals)
  }

  ghost predicate RefsSound(t: Tables) {
    && (forall p :: 0 <= p < |t.stock| ==> t.stock[p] >= 0)
    && (forall w :: 0 <= w < |t.withdrawals| ==>
          t.withdrawals[w].order < |t.orders| && t.withdrawals[w].product < |t.stock|)
    && (forall g :: 0 <= g < |t.receipts| ==> t.receipts[g].request < |t.requests|)
    && (forall x :: 0 <= x < |t.orders| ==> ItemsExist(t.orders[x].products, |t.stock|))
    && (forall b :: 0 <= b < |t.budgets| ==> ItemsExist(t.budgets[b].products, |t.stock|))
  }

  ghost predicate Sound(t: Tables) {
    RowsSound(t) && RefsSound(t) && OrdersFit(t)
  }

  // ---- orders across a change of rows ----

  /** An order keeps fitting when its phase and products stay and it holds no more than before. */
  lemma FitsWithLess(o: Order, o': Order, x: nat, rs: seq<Reservation>, rs': seq<Reservation>, ws: seq<Withdrawal>)
    requires OrderFits(o, x, rs, ws)
    requires o'.products == o.products
    requires Closed(o'.status) == Closed(o.status) && (o'.status == EmExecucao) == (o.status == EmExecucao)
    requires forall p :: Qty(rs', x, p) <= Qty(rs, x, p)
    ensures OrderFits(o', x, rs', ws)
  {
    forall p ensures Fits(o', x, p, rs', ws) { assert Fits(o, x, p, rs, ws); }
  }

  lemma ReleaseKeepsOrder(t: Tables, o: nat, x: nat)
    requires x < |t.orders| && OrderFits(t.orders[x], x, t.reservations, t.withdrawals)
    ensures OrderFits(t.orders[x], x, ReleaseExcept(t.reservations, o, {}), t.withdrawals)
  {
    var rs' := ReleaseExcept(t.reservations, o, {});
    forall p ensures Qty(rs', x, p) <= Qty(t.reservations, x, p) { ReleaseHeld(t.reservations, o, {}, {x}, true, p); }
    FitsWithLess(t.orders[x], t.orders[x], x, t.reservations, rs', t.withdrawals);
  }

  lemma ReleaseKeepsSound(t: Tables, o: nat)
    requires Sound(t)
    ensures Sound(ReleaseOrder(t, o))
  {
    ReleaseEffect(t.reservations, o, {});
    CancelAllEffect(t.requests, o);
    forall x | 0 <= x < |t.orders|
      ensures OrderFits(t.orders[x], x, ReleaseOrder(t, o).reservations, t.withdrawals)
    {
      ReleaseKeepsOrder(t, o, x);
    }
  }

  // ---- reconciling ----

  /** Everything is sound except that order o, which waits and has nothing asked out, may hold any reservations. */
  ghost predicate SoundApart(t: Tables, o: nat) {
    && RowsSound(t) && RefsSound(t) && o < |t.orders|
    && Waiting(t.orders[o].status)
    && (forall p :: Asked(t.withdrawals, o, p) == 0)
    && forall x :: 0 <= x < |t.orders| && x != o ==> OrderFits(t.orders[x], x, t.reservations, t.withdrawals)
  }

  lemma ReconcileKeepsOrder(t: Tables, o: nat, x: nat)
    requires SoundApart(t, o) && x < |t.orders|
    ensures var t' := ReconcileWaiting(t, o);
            x < |t'.orders| && OrderFits(t'.orders[x], x, t'.reservations, t.withdrawals)
  {
    var t' := ReconcileWaiting(t, o);
    ReconcileRows(t, o);
    if Begun(t.orders[x].status) {
      forall p ensures Qty(t'.reservations, x, p) <= Qty(t.reservations, x, p) { OthersKeepTheirs(t, o, x, p); }
      FitsWithLess(t.orders[x], t'.orders[x], x, t.reservations, t'.reservations, t.withdrawals);
    } else {
      forall p ensures Fits(t'.orders[x], x, p, t'.reservations, t.withdrawals) { UnbegunKeepsFitting(t, o, x, p); }
    }
  }

  lemma UnbegunKeepsFitting(t: Tables, o: nat, x: nat, p: nat)
    requires SoundApart(t, o) && x < |t.orders| && !Begun(t.orders[x].status)
    ensures var t' := ReconcileWaiting(t, o);
            x < |t'.orders| && Fits(t'.orders[x], x, p, t'.reservations, t.withdrawals)
  {
    ReconcileRows(t, o);
    if x != o { assert Fits(t.orders[x], x, p, t.reservations, t.withdrawals); }
    ReservedWithinScope(t, o, x, p);
  }

  lemma ReconcileWaitingKeepsSound(t: Tables, o: nat)
    requires SoundApart(t, o)
    ensures Sound(ReconcileWaiting(t, o))
  {
    var t' := ReconcileWaiting(t, o);
    ReconcileRows(t, o);
    forall x | 0 <= x < |t'.orders| ensures OrderFits(t'.orders[x], x, t'.reservations, t'.withdrawals) {
      ReconcileKeepsOrder(t, o, x);
    }
  }

  lemma ReconcileKeepsSound(t: Tables, o: nat)
    requires Sound(t) && Reconcile(t, o).Committed?
    ensures Sound(Reconcile(t, o).tables)
  {
    if Waiting(t.orders[o].status) {
      forall p ensures Asked(t.withdrawals, o, p) == 0 { assert Fits(t.orders[o], o, p, t.reservations, t.withdrawals); }
      ReconcileWaitingKeepsSound(t, o);
    } else {
      ReleaseKeepsSound(t, o);
    }
  }

  // ---- approving ----

  lemma NewOrderIsSoundApart(t: Tables, order: Order)
    requires Sound(t) && Waiting(order.status) && ItemsExist(order.products, |t.stock|)
    ensures SoundApart(t.(orders := t.orders + [order]), |t.orders|)
  {
    var n := |t.orders|;
    forall p ensures Asked(t.withdrawals, n, p) == 0 { NothingAsked(t.withdrawals, n, p); }
    forall x | 0 <= x < n + 1 && x != n
      ensures OrderFits((t.orders + [order])[x], x, t.reservations, t.withdrawals)
    {
      assert OrderFits(t.orders[x], x, t.reservations, t.withdrawals);
    }
  }

  lemma RevisedOrderIsSoundApart(t: Tables, o: nat, order: Order)
    requires Sound(t) && o < |t.orders| && Revisable(t.orders[o].status)
    requires Waiting(order.status) && ItemsExist(order.products, |t.stock|)
    ensures SoundApart(t.(orders := t.orders[o := order]), o)
  {
    forall p ensures Asked(t.withdrawals, o, p) == 0 { assert Fits(t.orders[o], o, p, t.reservations, t.withdrawals); }
    var orders := t.orders[o := order];
    forall x | 0 <= x < |orders| && x != o ensures OrderFits(orders[x], x, t.reservations, t.withdrawals)
    {
      assert OrderFits(t.orders[x], x, t.reservations, t.withdrawals);
    }
  }

  lemma ApplyApprovedKeepsSound(t: Tables, b: nat, now: int)
    requires Sound(t) && b < |t.budgets| && ApplyApproved(t, b, now).Committed?
    ensures Sound(ApplyApproved(t, b, now).tables)
  {
    var budget := t.budgets[b];
    match FindOrder(t.budgets, t.orders, b)
    case None =>
      var order := NewOrder(t.budgets, b, now);
      NewOrderIsSoundApart(t, order);
      ReconcileWaitingKeepsSound(t.(orders := t.orders + [order]), |t.orders|);
    case Some(o) =>
      var revised := Revise(t.orders[o], budget);
      RevisedOrderIsSoundApart(t, o, revised);
      ReconcileWaitingKeepsSound(t.(orders := t.orders[o := revised]), o);
  }

  // ---- calls that move an order and nothing else ----

  /** Any change of one order that keeps its products and its phase. */
  lemma SamePhaseKeepsSound(t: Tables, o: nat, order: Order)
    requires Sound(t) && o < |t.orders| && order.products == t.orders[o].products
    requires Closed(order.status) == Closed(t.orders[o].status)
    requires (order.status == EmExecucao) == (t.orders[o].status == EmExecucao)
    ensures Sound(t.(orders := t.orders[o := order]))
  {
    FitsWithLess(t.orders[o], order, o, t.reservations, t.reservations, t.withdrawals);
    var orders := t.orders[o := order];
    forall x | 0 <= x < |orders| ensures OrderFits(orders[x], x, t.reservations, t.withdrawals)
    {
      assert OrderFits(t.orders[x], x, t.reservations, t.withdrawals);
    }
  }

  lemma BudgetKeepsSound(t: Tables, budgets: seq<Budget>)
    requires Sound(t)
    requires forall b :: 0 <= b < |budgets| ==> ItemsExist(budgets[b].products, |t.stock|)
    ensures Sound(t.(budgets := budgets))
  {
  }

  lemma SendKeepsSound(t: Tables, b: nat, expires: int)
    requires Sound(t) && SendBudget(t, b, expires).Committed?
    ensures Sound(SendBudget(t, b, expires).tables)
  {
    var t1 := MarkSent(t, b, expires);
    BudgetKeepsSound(t, t1.budgets);
    var found := FindOrder(t1.budgets, t1.orders, b);
    if found.Some? {
      var o := found.value;
      var t2 := if t1.orders[o].status == EmDiagnostico then WithStatus(t1, o, AguardandoAprovacao) else t1;
      if t1.orders[o].status == EmDiagnostico {
        SamePhaseKeepsSound(t1, o, t1.orders[o].(status := AguardandoAprovacao));
      }
      ReleaseKeepsSound(t2, o);
    }
  }

  lemma ApproveKeepsSound(t: Tables, b: nat, now: int)
    requires Sound(t) && b < |t.budgets|
    requires var t1 := MarkDecided(t, b, BudgetStatus.Approved);
             ApplyApproved(t1, b, now).Committed?
    ensures var t1 := MarkDecided(t, b, BudgetStatus.Approved);
            Sound(ApplyApproved(t1, b, now).tables)
  {
    var t1 := MarkDecided(t, b, BudgetStatus.Approved);
    BudgetKeepsSound(t, t1.budgets);
    ApplyApprovedKeepsSound(t1, b, now);
  }

  lemma DecideKeepsSound(t: Tables, b: nat, approve: bool, now: int)
    requires Sound(t) && DecideBudget(t, b, approve, now).Committed?
    ensures Sound(DecideBudget(t, b, approve, now).tables)
  {
    var budget := t.budgets[b];
    if budget.used {
    } else if approve {
      ApproveKeepsSound(t, b, now);
    } else {
      var t1 := MarkDecided(t, b, BudgetStatus.Rejected);
      BudgetKeepsSound(t, t1.budgets);
      var found := FindOrder(t1.budgets, t1.orders, b);
      if found.Some? {
        SamePhaseKeepsSound(t1, found.value, t1.orders[found.value].(status := EmDiagnostico));
        ReleaseKeepsSound(WithStatus(t1, found.value, EmDiagnostico), found.value);
      }
    }
  }

  // ---- execution ----

  lemma StartKeepsSound(t: Tables, o: nat)
    requires Sound(t) && StartService(t, o).Committed?
    ensures Sound(StartService(t, o).tables)
  {
    var order := t.orders[o].(status := EmExecucao);
    forall p ensures Fits(order, o, p, t.reservations, t.withdrawals) {
      assert Fits(t.orders[o], o, p, t.reservations, t.withdrawals);
      TakenWithinAsked(t.withdrawals, o, p);
    }
    var orders := t.orders[o := order];
    forall x | 0 <= x < |orders| ensures OrderFits(orders[x], x, t.reservations, t.withdrawals) {
      assert OrderFits(t.orders[x], x, t.reservations, t.withdrawals);
    }
  }

  lemma RequestWithdrawalKeepsSound(t: Tables, o: nat, p: nat, quantity: int)
    requires Sound(t) && RequestWithdrawal(t, o, p, quantity).Committed?
    ensures Sound(RequestWithdrawal(t, o, p, quantity).tables)
  {
    var w := Withdrawal(o, p, quantity, Unfulfilled);
    RequiredIffListed(t.orders[o].products, p);
    forall x, q | 0 <= x < |t.orders| ensures Fits(t.orders[x], x, q, t.reservations, t.withdrawals + [w]) {
      assert OrderFits(t.orders[x], x, t.reservations, t.withdrawals);
      assert Fits(t.orders[x], x, q, t.reservations, t.withdrawals);
      SumsAppend(t.withdrawals, w, x, q);
    }
  }

  /** A withdrawal still pending belongs to an order in execution. */
  lemma PendingMeansExecuting(t: Tables, w: nat)
    requires Sound(t) && w < |t.withdrawals| && t.withdrawals[w].status == Unfulfilled
    ensures t.orders[t.withdrawals[w].order].status == EmExecucao
  {
    var x, p := t.withdrawals[w].order, t.withdrawals[w].product;
    assert Fits(t.orders[x], x, p, t.reservations, t.withdrawals);
    PendingCounts(t.withdrawals, w);
  }

  lemma FulfillKeepsOrder(t: Tables, w: nat, x: nat)
    requires Sound(t) && FulfillWithdrawal(t, w).Committed? && x < |t.orders|
    ensures var t' := FulfillWithdrawal(t, w).tables; OrderFits(t.orders[x], x, t'.reservations, t'.withdrawals)
  {
    var withdrawal := t.withdrawals[w];
    var i := FindActive(t.reservations, withdrawal.order, withdrawal.product).value;
    PendingMeansExecuting(t, w);
    var t' := FulfillWithdrawal(t, w).tables;
    forall q ensures Fits(t.orders[x], x, q, t'.reservations, t'.withdrawals) {
      assert Fits(t.orders[x], x, q, t.reservations, t.withdrawals);
      ConsumeHeld(t.reservations, i, withdrawal.quantity, {x}, true, q);
      SumsUpdate(t.withdrawals, w, withdrawal.(status := Fulfilled), x, q);
    }
  }

  lemma FulfillKeepsSound(t: Tables, w: nat)
    requires Sound(t) && FulfillWithdrawal(t, w).Committed?
    ensures Sound(FulfillWithdrawal(t, w).tables)
  {
    forall x | 0 <= x < |t.orders|
      ensures var t' := FulfillWithdrawal(t, w).tables; OrderFits(t'.orders[x], x, t'.reservations, t'.withdrawals)
    {
      FulfillKeepsOrder(t, w, x);
    }
  }

  lemma FinishKeepsOrder(t: Tables, o: nat)
    requires Sound(t) && FinishService(t, o).Committed?
    ensures OrderFits(t.orders[o].(status := Finalizada), o, ReleaseExcept(t.reservations, o, {}), t.withdrawals)
  {
    ReleaseEffect(t.reservations, o, {});
    forall p ensures Fits(t.orders[o].(status := Finalizada), o, p, ReleaseExcept(t.reservations, o, {}), t.withdrawals) {
      assert Fits(t.orders[o], o, p, t.reservations, t.withdrawals);
      TakenWithinAsked(t.withdrawals, o, p);
      RequiredIffListed(t.orders[o].products, p);
    }
  }

  lemma FinishKeepsSound(t: Tables, o: nat)
    requires Sound(t) && FinishService(t, o).Committed?
    ensures Sound(FinishService(t, o).tables)
  {
    ReleaseEffect(t.reservations, o, {});
    FinishKeepsOrder(t, o);
    forall x | 0 <= x < |t.orders|
      ensures var t' := FinishService(t, o).tables; OrderFits(t'.orders[x], x, t'.reservations, t'.withdrawals)
    {
      ReleaseKeepsOrder(t, o, x);
    }
  }

  // ---- purchasing ----

  lemma RequestPurchaseKeepsSound(t: Tables, p: nat, quantity: int, order: Option<nat>)
    requires Sound(t) && RequestPurchase(t, p, quantity, order).Committed?
    ensures Sound(RequestPurchase(t, p, quantity, order).tables)
  {
  }

  lemma StockKeepsSound(t: Tables, stock: seq<int>)
    requires Sound(t) && |t.stock| <= |stock| && forall p :: 0 <= p < |stock| ==> stock[p] >= 0
    ensures Sound(t.(stock := stock))
  {
  }

  lemma GoodsInKeepsSound(t: Tables, r: nat, quantity: Pos)
    requires Sound(t) && r < |t.requests| && t.requests[r].product < |t.stock|
    ensures Sound(GoodsIn(t, r, quantity))
  {
  }

  lemma ReceiveKeepsSound(t: Tables, r: nat, quantity: int)
    requires Sound(t) && ReceiveGoods(t, r, quantity).Committed?
    ensures Sound(ReceiveGoods(t, r, quantity).tables)
  {
    GoodsInKeepsSound(t, r, quantity);
    if t.requests[r].order.Some? { ReconcileKeepsSound(GoodsIn(t, r, quantity), t.requests[r].order.value); }
  }

  // ---- every call, every run ----

  lemma PaymentKeepsSound(t: Tables, i: nat, amount: int, means: PaymentMethod, key: string)
    requires Sound(t) && RecordPayment(t, i, amount, means, key).Committed?
    ensures Sound(RecordPayment(t, i, amount, means, key).tables)
  {
    var t' := RecordPayment(t, i, amount, means, key).tables;
    InvoicesDoNotMatter(t, t'.invoices);
    if t'.orders != t.orders {
      var o := t'.invoices[i].order;
      PaymentDelivers(t, i, amount, means, key);
      SamePhaseKeepsSound(t.(invoices := t'.invoices), o, t.orders[o].(status := Entregue));
    }
  }

  lemma InvoicesDoNotMatter(t: Tables, invoices: seq<Invoice>)
    requires Sound(t)
    ensures Sound(t.(invoices := invoices))
  {
  }

  lemma PaymentDelivers(t: Tables, i: nat, amount: int, means: PaymentMethod, key: string)
    requires RecordPayment(t, i, amount, means, key).Committed?
    requires RecordPayment(t, i, amount, means, key).tables.orders != t.orders
    ensures var t' := RecordPayment(t, i, amount, means, key).tables;
            && i < |t'.invoices|
            && var o := t'.invoices[i].order;
            && o < |t.orders| && t.orders[o].status == Finalizada && t' == WithStatus(t.(invoices := t'.invoices), o, Entregue)
  {
  }

  lemma OverrideKeepsSound(t: Tables, o: nat, s: OrderStatus, reason: string)
    requires Sound(t) && OverrideStatus(t, o, s, reason).Committed?
    ensures Sound(OverrideStatus(t, o, s, reason).tables)
  {
    var budgets := OverrideStatus(t, o, s, reason).tables.budgets;
    BudgetKeepsSound(t, budgets);
    SamePhaseKeepsSound(t.(budgets := budgets), o, t.orders[o].(status := s));
  }

  lemma CatalogueCallKeepsSound(t: Tables, step: Step)
    requires Sound(t)
    requires step.StepAddProduct? || step.StepAdjustStock? || step.StepCreateBudget? || step.StepEditBudget? || step.StepCreateRevision?
    ensures Sound(Next(t, step))
  {
    if step.StepAddProduct? || step.StepAdjustStock? {
      StockKeepsSound(t, Next(t, step).stock);
    } else {
      BudgetKeepsSound(t, Next(t, step).budgets);
    }
  }

  lemma EveryCallKeepsSound(t: Tables, step: Step)
    requires Sound(t)
    ensures Sound(Next(t, step))
  {
    if step.StepSendBudget? || step.StepApproveBudget? || step.StepDecideBudget? {
      BudgetCallKeepsSound(t, step);
    } else if step.StepAssignMechanic? || step.StepRecordPayment? || step.StepDeliverOrder? || step.StepOverrideStatus? {
      StatusCallKeepsSound(t, step);
    } else if Call(t, step).Committed? {
      match step
      case StepReconcile(o) => ReconcileKeepsSound(t, o);
      case StepRequestPurchase(p, units, order) => RequestPurchaseKeepsSound(t, p, units, order);
      case StepReceiveGoods(r, units) => ReceiveKeepsSound(t, r, units);
      case StepStartService(o) => StartKeepsSound(t, o);
      case StepRequestWithdrawal(o, p, units) => RequestWithdrawalKeepsSound(t, o, p, units);
      case StepFulfillWithdrawal(w) => FulfillKeepsSound(t, w);
      case StepFinishService(o) => FinishKeepsSound(t, o);
      case StepCreateInvoice(o) => InvoicesDoNotMatter(t, Next(t, step).invoices);
      case _ => CatalogueCallKeepsSound(t, step);
    }
  }

  lemma BudgetCallKeepsSound(t: Tables, step: Step)
    requires Sound(t) && (step.StepSendBudget? || step.StepApproveBudget? || step.StepDecideBudget?)
    ensures Sound(Next(t, step))
  {
    if Call(t, step).Committed? {
      match step
      case StepSendBudget(b, expires) => SendKeepsSound(t, b, expires);
      case StepApproveBudget(b, now) => ApproveKeepsSound(t, b, now);
      case StepDecideBudget(b, approve, now) => DecideKeepsSound(t, b, approve, now);
    }
  }

  lemma StatusCallKeepsSound(t: Tables, step: Step)
    requires Sound(t) && (step.StepAssignMechanic? || step.StepRecordPayment? || step.StepDeliverOrder? || step.StepOverrideStatus?)
    ensures Sound(Next(t, step))
  {
    if Call(t, step).Committed? {
      if step.StepAssignMechanic? {
        AssignmentKeepsSound(t, step.order, step.name, step.reason);
      } else if step.StepDeliverOrder? {
        DeliveryKeepsSound(t, step.order);
      } else if step.StepRecordPayment? {
        PaymentKeepsSound(t, step.invoice, step.amount, step.means, step.key);
      } else {
        OverrideKeepsSound(t, step.order, step.status, step.reason);
      }
    }
  }

  lemma AssignmentKeepsSound(t: Tables, o: nat, name: string, reason: string)
    requires Sound(t) && AssignMechanic(t, o, name, reason).Committed?
    ensures Sound(AssignMechanic(t, o, name, reason).tables)
  {
    SamePhaseKeepsSound(t, o, AssignMechanic(t, o, name, reason).tables.orders[o]);
  }

  lemma DeliveryKeepsSound(t: Tables, o: nat)
    requires Sound(t) && DeliverOrder(t, o).Committed?
    ensures Sound(DeliverOrder(t, o).tables)
  {
    SamePhaseKeepsSound(t, o, t.orders[o].(status := Entregue));
  }

  lemma {:induction false} EveryRunIsSound(steps: seq<Step>)
    ensures Sound(Run(Empty, steps))
  {
    if steps != [] {
      EveryRunIsSound(steps[..|steps| - 1]);
      EveryCallKeepsSound(Run(Empty, steps[..|steps| - 1]), steps[|steps| - 1]);
    }
  }
}
