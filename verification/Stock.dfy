/** No overselling, the stock ledger, and what follows for withdrawals. */
module Stock {
  import opened Schema
  import opened Reservations
  import opened Purchases
  import opened Withdrawals
  import opened AgeQueue
  import opened Inventory
  import opened Fairness
  import opened Revisions
  import opened Workshop
  import opened Safety
  import opened Lifecycle

  // ---- no overselling ----

  /** Active reservations of p never add up to more than is in stock. */
  ghost predicate InStock(t: Tables, p: nat) {
    p < |t.stock| ==> Total(t.reservations, p) <= t.stock[p]
  }

  ghost predicate NoOverselling(t: Tables) {
    forall p :: InStock(t, p)
  }

  lemma ReconcileKeepsInStock(t: Tables, o: nat, p: nat)
    requires RowsSound(t) && Reconcile(t, o).Committed? && InStock(t, p)
    ensures InStock(Reconcile(t, o).tables, p)
  {
    if Waiting(t.orders[o].status) {
      ReconcileRows(t, o);
      if p in Items(t.orders[o].products) {
        if p < |t.stock| {
          TotalAfterReconcile(t, o, p);
          HeldMonotone(t.reservations, Members(Queue(t.orders, p)), p);
        }
      } else {
        ReallocateHeld(t, o, {}, false, p);
      }
    } else {
      ReleaseEffect(t.reservations, o, {});
    }
  }

  lemma ReleaseKeepsInStock(t: Tables, o: nat, p: nat)
    requires InStock(t, p)
    ensures InStock(ReleaseOrder(t, o), p)
  {
    ReleaseEffect(t.reservations, o, {});
  }

  lemma ApplyApprovedKeepsInStock(t: Tables, b: nat, now: int, p: nat)
    requires Sound(t) && b < |t.budgets| && ApplyApproved(t, b, now).Committed? && InStock(t, p)
    ensures InStock(ApplyApproved(t, b, now).tables, p)
  {
    var found := FindOrder(t.budgets, t.orders, b);
    if found.Some? {
      var order := Revise(t.orders[found.value], t.budgets[b]);
      RevisedOrderIsSoundApart(t, found.value, order);
      ReconcileKeepsInStock(t.(orders := t.orders[found.value := order]), found.value, p);
    } else {
      NewOrderIsSoundApart(t, NewOrder(t.budgets, b, now));
      ReconcileKeepsInStock(t.(orders := t.orders + [NewOrder(t.budgets, b, now)]), |t.orders|, p);
    }
  }

  lemma BudgetCallKeepsInStock(t: Tables, step: Step, p: nat)
    requires Sound(t) && InStock(t, p)
    requires step.StepSendBudget? || step.StepApproveBudget? || step.StepDecideBudget?
    ensures InStock(Next(t, step), p)
  {
    if Call(t, step).Committed? {
      match step
      case StepSendBudget(b, expires) =>
        var t1 := MarkSent(t, b, expires);
        var found := FindOrder(t1.budgets, t1.orders, b);
        if found.Some? { ReleaseKeepsInStock(t1, found.value, p); }
      case StepApproveBudget(b, now) =>
        BudgetKeepsSound(t, MarkDecided(t, b, BudgetStatus.Approved).budgets);
        ApplyApprovedKeepsInStock(MarkDecided(t, b, BudgetStatus.Approved), b, now, p);
      case StepDecideBudget(b, approve, now) =>
        if !t.budgets[b].used {
          if approve {
            BudgetKeepsSound(t, MarkDecided(t, b, BudgetStatus.Approved).budgets);
            ApplyApprovedKeepsInStock(MarkDecided(t, b, BudgetStatus.Approved), b, now, p);
          } else {
            var t1 := MarkDecided(t, b, BudgetStatus.Rejected);
            var found := FindOrder(t1.budgets, t1.orders, b);
            if found.Some? { ReleaseKeepsInStock(t1, found.value, p); }
          }
        }
    }
  }

  lemma FulfillKeepsInStock(t: Tables, w: nat, p: nat)
    requires Sound(t) && InStock(t, p) && FulfillWithdrawal(t, w).Committed?
    ensures InStock(FulfillWithdrawal(t, w).tables, p)
  {
    var withdrawal := t.withdrawals[w];
    var i := FindActive(t.reservations, withdrawal.order, withdrawal.product).value;
    ConsumeHeld(t.reservations, i, withdrawal.quantity, {}, false, p);
  }

  lemma AddProductKeepsInStock(t: Tables, quantity: int, p: nat)
    requires Sound(t) && InStock(t, p) && AddProduct(t, quantity).Committed?
    ensures InStock(AddProduct(t, quantity).tables, p)
  {
    if p == |t.stock| { NothingHeld(t.reservations, p, |t.orders|); }
  }

  lemma {:induction false} NothingHeld(rs: seq<Reservation>, p: nat, n: nat)
    requires RowsRefer(rs, n, p)
    ensures Total(rs, p) == 0
  {
    if rs != [] { NothingHeld(rs[..|rs| - 1], p, n); }
  }

  /** A correction that leaves less of p than is reserved, though not less than nothing. */
  predicate Oversells(t: Tables, step: Step, p: nat) {
    step.StepAdjustStock? && step.product == p && p < |t.stock| && 0 <= t.stock[p] + step.delta < Total(t.reservations, p)
  }

  /** For every call and every product: reservations stay within the stock if and only if the call is not a correction
      that leaves less than is reserved. */
  lemma EveryCallKeepsInStockIff(t: Tables, step: Step, p: nat)
    requires Sound(t) && InStock(t, p)
    ensures InStock(Next(t, step), p) <==> !Oversells(t, step, p)
  {
    if step.StepSendBudget? || step.StepApproveBudget? || step.StepDecideBudget? {
      BudgetCallKeepsInStock(t, step, p);
    } else if TouchesNoUnits(step) {
      QuietCallKeepsInStock(t, step, p);
    } else if Call(t, step).Committed? {
      match step
      case StepReconcile(o) => ReconcileKeepsInStock(t, o, p);
      case StepReceiveGoods(r, units) =>
        GoodsInKeepsSound(t, r, units);
        if t.requests[r].order.Some? { ReconcileKeepsInStock(GoodsIn(t, r, units), t.requests[r].order.value, p); }
      case StepFulfillWithdrawal(w) => FulfillKeepsInStock(t, w, p);
      case StepFinishService(o) => ReleaseEffect(t.reservations, o, {});
      case StepRequestWithdrawal(o, q, units) =>
    }
  }

  lemma QuietCallKeepsInStock(t: Tables, step: Step, p: nat)
    requires Sound(t) && InStock(t, p) && TouchesNoUnits(step)
    ensures InStock(Next(t, step), p) <==> !Oversells(t, step, p)
  {
    QuietUnits(t, step);
    if step.StepAddProduct? {
      if Call(t, step).Committed? { AddProductKeepsInStock(t, step.quantity, p); }
    } else if !step.StepAdjustStock? {
      QuietStock(t, step);
    }
  }

  lemma QuietStock(t: Tables, step: Step)
    requires TouchesNoUnits(step) && !step.StepAddProduct? && !step.StepAdjustStock?
    ensures Next(t, step).stock == t.stock
  {
  }

  /** Every downward correction of the run leaves at least what is reserved when it is made. */
  ghost predicate SparesReserved(steps: seq<Step>) {
    steps != [] ==>
      var n := |steps| - 1;
      && SparesReserved(steps[..n])
      && (steps[n].StepAdjustStock? && steps[n].delta < 0 ==> !Oversells(Run(Empty, steps[..n]), steps[n], steps[n].product))
  }

  /** Over any run whose downward corrections leave what is reserved, no product is ever oversold. */
  lemma {:induction false} NeverOversold(steps: seq<Step>)
    requires SparesReserved(steps)
    ensures NoOverselling(Run(Empty, steps))
  {
    if steps != [] {
      var n := |steps| - 1;
      NeverOversold(steps[..n]);
      EveryRunIsSound(steps[..n]);
      forall p ensures InStock(Run(Empty, steps), p) {
        assert InStock(Run(Empty, steps[..n]), p);
        EveryCallKeepsInStockIff(Run(Empty, steps[..n]), steps[n], p);
      }
    }
  }

  /** A run without downward corrections is such a run. */
  lemma {:induction false} UpwardCorrectionsSpare(steps: seq<Step>)
    requires forall i :: 0 <= i < |steps| && steps[i].StepAdjustStock? ==> steps[i].delta >= 0
    ensures SparesReserved(steps)
  {
    if steps != [] { UpwardCorrectionsSpare(steps[..|steps| - 1]); }
  }

  /** So the guarded decrement of the stock never fails: a withdrawal is fulfilled exactly when it is
      pending and its order still holds enough of the product. */
  lemma FulfillNeedsOnlyItsReservation(t: Tables, w: nat)
    requires Sound(t) && w < |t.withdrawals| && InStock(t, t.withdrawals[w].product)
    ensures FulfillWithdrawal(t, w).Committed? <==>
            t.withdrawals[w].status == Unfulfilled
            && t.withdrawals[w].quantity <= Qty(t.reservations, t.withdrawals[w].order, t.withdrawals[w].product)
  {
    var o, p := t.withdrawals[w].order, t.withdrawals[w].product;
    QtyIsFirst(t.reservations, o, p);
    HeldSplit(t.reservations, {}, o, p);
  }

  // ---- the ledger ----

  /** Stock of p net of everything received and everything taken out. */
  function Ledger(t: Tables, p: nat): int
    requires p < |t.stock|
  {
    t.stock[p] - Arrived(t.receipts, t.requests, p) + Shipped(t.withdrawals, p)
  }

  /** What a manual correction adds; a refused one adds nothing. */
  function Correction(t: Tables, step: Step, p: nat): int {
    if step.StepAdjustStock? && step.product == p && AdjustStock(t, p, step.delta).Committed? then step.delta else 0
  }

  lemma LedgerFrame(t: Tables, t': Tables, p: nat)
    requires RefsSound(t) && p < |t.stock| && t'.stock == t.stock && t'.withdrawals == t.withdrawals
    requires t'.receipts == t.receipts && RequestsGrow(t.requests, t'.requests)
    ensures Ledger(t', p) == Ledger(t, p)
  {
    ArrivedFrame(t.receipts, t.requests, t'.requests, p);
  }

  lemma ReconcileGrows(t: Tables, o: nat)
    requires RowsSound(t) && Reconcile(t, o).Committed?
    ensures var t' := Reconcile(t, o).tables;
            && t'.stock == t.stock && t'.withdrawals == t.withdrawals && t'.receipts == t.receipts
            && t'.budgets == t.budgets && t'.invoices == t.invoices && |t'.orders| == |t.orders|
            && RequestsGrow(t.requests, t'.requests)
  {
    if Waiting(t.orders[o].status) {
      ReconcileRows(t, o);
    } else {
      CancelAllEffect(t.requests, o);
    }
  }

  lemma GoodsInLedger(t: Tables, r: nat, quantity: Pos, p: nat)
    requires Sound(t) && r < |t.requests| && p < |t.stock|
    ensures RefsSound(GoodsIn(t, r, quantity)) && Ledger(GoodsIn(t, r, quantity), p) == Ledger(t, p)
  {
    var t1 := GoodsIn(t, r, quantity);
    ArrivedFrame(t.receipts, t.requests, t1.requests, p);
    assert t1.receipts[..|t.receipts|] == t.receipts;
  }

  lemma ApplyApprovedGrows(t: Tables, b: nat, now: int)
    requires Sound(t) && b < |t.budgets| && ApplyApproved(t, b, now).Committed?
    ensures var t' := ApplyApproved(t, b, now).tables;
            && t'.stock == t.stock && t'.withdrawals == t.withdrawals && t'.receipts == t.receipts
            && t'.budgets == t.budgets && t'.invoices == t.invoices
            && RequestsGrow(t.requests, t'.requests)
  {
    var found := FindOrder(t.budgets, t.orders, b);
    if found.Some? {
      var order := Revise(t.orders[found.value], t.budgets[b]);
      RevisedOrderIsSoundApart(t, found.value, order);
      ReconcileGrows(t.(orders := t.orders[found.value := order]), found.value);
    } else {
      NewOrderIsSoundApart(t, NewOrder(t.budgets, b, now));
      ReconcileGrows(t.(orders := t.orders + [NewOrder(t.budgets, b, now)]), |t.orders|);
    }
  }

  lemma BudgetCallLedger(t: Tables, step: Step, p: nat)
    requires Sound(t) && p < |t.stock|
    requires step.StepSendBudget? || step.StepApproveBudget? || step.StepDecideBudget?
    ensures |Next(t, step).stock| == |t.stock| && Ledger(Next(t, step), p) == Ledger(t, p)
  {
    if Call(t, step).Committed? {
      var t' := Next(t, step);
      if step.StepApproveBudget? || (step.StepDecideBudget? && step.approve && !t.budgets[step.budget].used) {
        var t1 := MarkDecided(t, step.budget, BudgetStatus.Approved);
        BudgetKeepsSound(t, t1.budgets);
        ApplyApprovedGrows(t1, step.budget, step.now);
        LedgerFrame(t, t', p);
      } else {
        ReleasingCallLedger(t, step, p);
      }
    }
  }

  lemma ReleasingCallLedger(t: Tables, step: Step, p: nat)
    requires Sound(t) && p < |t.stock| && Call(t, step).Committed?
    requires step.StepSendBudget? || (step.StepDecideBudget? && (!step.approve || t.budgets[step.budget].used))
    ensures |Next(t, step).stock| == |t.stock| && Ledger(Next(t, step), p) == Ledger(t, p)
  {
    var t' := Next(t, step);
    var found := FindOrder(t'.budgets, t.orders, step.budget);
    if found.Some? { CancelAllEffect(t.requests, found.value); }
    LedgerFrame(t, t', p);
  }

  lemma ReconcileBalances(t: Tables, o: nat, p: nat)
    requires Sound(t) && p < |t.stock| && Reconcile(t, o).Committed?
    ensures var t' := Reconcile(t, o).tables;
            |t'.stock| == |t.stock| && Ledger(t', p) == Ledger(t, p)
  {
    ReconcileGrows(t, o);
    LedgerFrame(t, Reconcile(t, o).tables, p);
  }

  /** A fulfilled withdrawal takes from the stock exactly what it adds to the units taken out. */
  lemma FulfillBalances(t: Tables, w: nat, p: nat)
    requires p < |t.stock| && FulfillWithdrawal(t, w).Committed?
    ensures var t' := FulfillWithdrawal(t, w).tables;
            |t'.stock| == |t.stock| && Ledger(t', p) == Ledger(t, p)
  {
    SumsUpdate(t.withdrawals, w, t.withdrawals[w].(status := Fulfilled), 0, p);
  }

  lemma ReceiveBalances(t: Tables, r: nat, units: int, p: nat)
    requires Sound(t) && p < |t.stock| && ReceiveGoods(t, r, units).Committed?
    ensures var t' := ReceiveGoods(t, r, units).tables;
            |t'.stock| == |t.stock| && Ledger(t', p) == Ledger(t, p)
  {
    var t1 := GoodsIn(t, r, units);
    GoodsInLedger(t, r, units, p);
    GoodsInKeepsSound(t, r, units);
    if t.requests[r].order.Some? {
      ReconcileGrows(t1, t.requests[r].order.value);
      LedgerFrame(t1, ReceiveGoods(t, r, units).tables, p);
    }
  }

  /** Calls about budgets, order statuses and invoices touch none of the ledger's tables. */
  lemma QuietCallBalances(t: Tables, step: Step, p: nat)
    requires p < |t.stock|
    requires step.StepCreateBudget? || step.StepEditBudget? || step.StepCreateRevision? || step.StepAssignMechanic?
          || step.StepStartService? || step.StepFinishService? || step.StepCreateInvoice? || step.StepRecordPayment?
          || step.StepDeliverOrder? || step.StepOverrideStatus?
    ensures Next(t, step).stock == t.stock && Ledger(Next(t, step), p) == Ledger(t, p)
  {
  }

  /** Every call conserves every product: stock moves by receipts, fulfilled withdrawals and corrections only. */
  lemma EveryCallBalances(t: Tables, step: Step, p: nat)
    requires Sound(t) && p < |t.stock|
    ensures |t.stock| <= |Next(t, step).stock|
    ensures Ledger(Next(t, step), p) == Ledger(t, p) + Correction(t, step, p)
  {
    if Call(t, step).Committed? {
      match step
      case StepAddProduct(quantity) =>
      case StepAdjustStock(q, delta) =>
      case StepSendBudget(b, expires) => BudgetCallLedger(t, step, p);
      case StepApproveBudget(b, now) => BudgetCallLedger(t, step, p);
      case StepDecideBudget(b, approve, now) => BudgetCallLedger(t, step, p);
      case StepReconcile(o) => ReconcileBalances(t, o, p);
      case StepRequestPurchase(q, units, order) => LedgerFrame(t, Next(t, step), p);
      case StepReceiveGoods(r, units) => ReceiveBalances(t, r, units, p);
      case StepRequestWithdrawal(o, q, units) =>
        SumsAppend(t.withdrawals, Withdrawal(o, q, units, Unfulfilled), o, p);
      case StepFulfillWithdrawal(w) => FulfillBalances(t, w, p);
      case _ => QuietCallBalances(t, step, p);
    }
  }

  function Corrections(t: Tables, steps: seq<Step>, p: nat): int {
    if steps == [] then 0
    else
      var n := |steps| - 1;
      Corrections(t, steps[..n], p) + Correction(Run(t, steps[..n]), steps[n], p)
  }

  /** The ledger over any run: what is in stock is what was there, plus received, minus taken out, plus corrections. */
  lemma {:induction false} StockIsAccountedFor(t: Tables, steps: seq<Step>, p: nat)
    requires Sound(t) && p < |t.stock|
    ensures Sound(Run(t, steps)) && p < |Run(t, steps).stock|
    ensures Ledger(Run(t, steps), p) == Ledger(t, p) + Corrections(t, steps, p)
  {
    if steps != [] {
      var n := |steps| - 1;
      StockIsAccountedFor(t, steps[..n], p);
      EveryCallKeepsSound(Run(t, steps[..n]), steps[n]);
      EveryCallBalances(Run(t, steps[..n]), steps[n], p);
    }
  }
}
