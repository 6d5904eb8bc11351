/** When the calls of the shop floor go through, and what they do. */
module Outcomes {
  import opened Schema
  import opened Reservations
  import opened Purchases
  import opened Withdrawals
  import opened AgeQueue
  import opened Inventory
  import opened Fairness
  import opened Revisions
  import opened Workshop
  import opened Safety
  import opened Lifecycle
  import Billing
  import opened Deliveries
  import opened Decisions
  import opened Text

  // ---- stock and purchasing ----

  /** A correction goes through exactly when it leaves no less than nothing, and changes that product's stock alone. */
  lemma CorrectionDoes(t: Tables, p: nat, delta: int)
    requires Sound(t)
    ensures AdjustStock(t, p, delta).Committed? <==> p < |t.stock| && t.stock[p] + delta >= 0
    ensures AdjustStock(t, p, delta).Committed? ==> AdjustStock(t, p, delta).tables == t.(stock := t.stock[p := t.stock[p] + delta])
  {
  }

  /** A product is added with any quantity that is not negative. */
  lemma ProductDoes(t: Tables, quantity: int)
    ensures AddProduct(t, quantity) == if quantity >= 0 then Committed(t.(stock := t.stock + [quantity])) else RolledBack(Invalid)
  {
  }

  /** A purchase for an order adds to what is on order for it, which must come to something and, where nothing is on order
      yet, needs the order to exist; nothing else changes. */
  lemma PurchaseForOrderDoes(t: Tables, p: nat, quantity: int, o: nat)
    requires Sound(t)
    ensures var outcome := RequestPurchase(t, p, quantity, Some(o));
            var units := OnOrder(t.requests, o, p);
            && (outcome.Committed? <==> p < |t.stock| && units + quantity > 0 && (units == 0 ==> o < |t.orders|))
            && (outcome.Committed? ==>
                  && outcome.tables == t.(requests := outcome.tables.requests)
                  && OneOpen(outcome.tables.requests) && RequestsGrow(t.requests, outcome.tables.requests)
                  && forall x, q :: OnOrder(outcome.tables.requests, x, q) == OnOrder(t.requests, x, q) + (if x == o && q == p then quantity else 0))
  {
    var outcome := RequestPurchase(t, p, quantity, Some(o));
    OnOrderIsFirst(t.requests, o, p);
    var found := FindOpen(t.requests, o, p);
    if found.None? { NothingOnOrder(t.requests, o, p); }
    if outcome.Committed? {
      RequestPurchaseKeepsSound(t, p, quantity, Some(o));
      forall x: nat, q: nat ensures OnOrder(outcome.tables.requests, x, q) == OnOrder(t.requests, x, q) + (if x == o && q == p then quantity else 0) {
        PurchaseUnits(t, p, quantity, o, x, q);
      }
    }
  }

  lemma PurchaseUnits(t: Tables, p: nat, quantity: int, o: nat, x: nat, q: nat)
    requires RequestPurchase(t, p, quantity, Some(o)).Committed?
    ensures OnOrder(RequestPurchase(t, p, quantity, Some(o)).tables.requests, x, q) ==
            OnOrder(t.requests, x, q) + (if x == o && q == p then quantity else 0)
  {
    var found, requests' := FindOpen(t.requests, o, p), RequestPurchase(t, p, quantity, Some(o)).tables.requests;
    if found.Some? {
      OnOrderUpdate(t.requests, found.value, requests'[found.value], x, q);
    } else {
      OnOrderAppend(t.requests, PurchaseRequest(p, Some(o), quantity, Pending), x, q);
    }
  }

  /** A purchase for no order files one more request, and puts nothing on order for any. */
  lemma PurchaseForStockDoes(t: Tables, p: nat, quantity: int)
    ensures RequestPurchase(t, p, quantity, None).Committed? <==> p < |t.stock| && quantity > 0
    ensures RequestPurchase(t, p, quantity, None).Committed? ==>
              var t' := RequestPurchase(t, p, quantity, None).tables;
              && t' == t.(requests := t.requests + [PurchaseRequest(p, None, quantity, Pending)])
              && forall x, q :: OnOrder(t'.requests, x, q) == OnOrder(t.requests, x, q)
  {
    if RequestPurchase(t, p, quantity, None).Committed? {
      forall x: nat, q: nat
        ensures OnOrder(RequestPurchase(t, p, quantity, None).tables.requests, x, q) == OnOrder(t.requests, x, q)
      {
        OnOrderAppend(t.requests, PurchaseRequest(p, None, quantity, Pending), x, q);
      }
    }
  }

  /** Reconciling an order that does not wait takes from it all it holds and has on order, and nothing from anyone else. */
  lemma ReconcileElsewhere(t: Tables, o: nat)
    requires o < |t.orders| && t.orders[o].status != AguardandoInicio && t.orders[o].status != AguardandoCompra
    ensures Reconcile(t, o).Committed?
    ensures var t' := Reconcile(t, o).tables;
            t' == t.(reservations := t'.reservations, requests := t'.requests) && GivenUp(t, t', o)
  {
    ReleasedGivesUp(t, Reconcile(t, o).tables, o);
  }

  // ---- mechanics ----

  /** A mechanic is named, blanks aside: the first one while the order is new, which then goes to diagnosis, or waits;
      a change needs a reason and an order that is not closed; naming the same one again changes nothing. */
  lemma AssignmentDoes(t: Tables, o: nat, text: string, reason: string)
    ensures var outcome, name := AssignMechanic(t, o, text, reason), Strip(text);
            outcome.Committed? <==>
              && o < |t.orders| && name != ""
              && match t.orders[o].mechanic
                 case None => t.orders[o].status == Recebida || t.orders[o].status == AguardandoInicio || t.orders[o].status == AguardandoCompra
                 case Some(before) =>
                   name == before || (t.orders[o].status != Finalizada && t.orders[o].status != Entregue && Strip(reason) != "")
    ensures var outcome, name := AssignMechanic(t, o, text, reason), Strip(text);
            outcome.Committed? ==>
              outcome.tables == t.(orders := t.orders[o := t.orders[o].(mechanic := Some(name),
                status := if t.orders[o].mechanic.None? && t.orders[o].status == Recebida then EmDiagnostico else t.orders[o].status)])
  {
    if o < |t.orders| {
      assert t.orders[o := t.orders[o]] == t.orders;
    }
  }

  // ---- execution ----

  /** An order is started exactly when it is ready, has a mechanic and holds every product in full; only its status changes. */
  lemma StartDoes(t: Tables, o: nat)
    ensures StartService(t, o).Committed? <==>
            && o < |t.orders| && t.orders[o].status == AguardandoInicio && t.orders[o].mechanic.Some?
            && forall p :: Required(t.orders[o].products, p) <= Qty(t.reservations, o, p)
    ensures StartService(t, o).Committed? ==> StartService(t, o).tables == t.(orders := t.orders[o := t.orders[o].(status := EmExecucao)])
  {
    if o < |t.orders| { ShortIsNotCovered(t.orders[o], o, t.reservations); }
  }

  /** A fulfilled withdrawal takes its units out of the stock and out of its order's reservation, counts as taken, and
      changes no other quantity. */
  lemma FulfilmentDoes(t: Tables, w: nat)
    requires Sound(t) && FulfillWithdrawal(t, w).Committed?
    ensures var t', taken := FulfillWithdrawal(t, w).tables, t.withdrawals[w];
            && taken.product < |t.stock| && taken.status == Unfulfilled
            && t'.stock == t.stock[taken.product := t.stock[taken.product] - taken.quantity]
            && t'.withdrawals == t.withdrawals[w := taken.(status := Fulfilled)]
            && t' == t.(stock := t'.stock, withdrawals := t'.withdrawals, reservations := t'.reservations)
            && forall x, p :: Qty(t'.reservations, x, p) ==
                              Qty(t.reservations, x, p) - (if x == taken.order && p == taken.product then taken.quantity else 0)
  {
    var t', taken := FulfillWithdrawal(t, w).tables, t.withdrawals[w];
    var i := FindActive(t.reservations, taken.order, taken.product).value;
    forall x: nat, p: nat
      ensures Qty(t'.reservations, x, p) ==
              Qty(t.reservations, x, p) - (if x == taken.order && p == taken.product then taken.quantity else 0)
    {
      ConsumeHeld(t.reservations, i, taken.quantity, {x}, true, p);
    }
  }

  /** A finished order is closed and holds nothing; no other order loses a unit. */
  lemma FinishDoes(t: Tables, o: nat)
    requires FinishService(t, o).Committed?
    ensures var t' := FinishService(t, o).tables;
            && t' == t.(orders := t.orders[o := t.orders[o].(status := Finalizada)], reservations := t'.reservations)
            && forall x, p :: Qty(t'.reservations, x, p) == if x == o then 0 else Qty(t.reservations, x, p)
  {
    ReleaseEffect(t.reservations, o, {});
  }

  // ---- refusals ----

  /** The call names a row that does not exist; a customer's link that has run out counts as none. */
  predicate NamesNothing(t: Tables, step: Step) {
    match step
    case StepAddProduct(_) => false
    case StepAdjustStock(p, _) => p >= |t.stock|
    case StepCreateBudget(_) => false
    case StepEditBudget(b, _, products, _) =>
      b >= |t.budgets| || (t.budgets[b].status == Draft && exists k :: 0 <= k < |products| && products[k].item >= |t.stock|)
    case StepCreateRevision(b) => b >= |t.budgets|
    case StepSendBudget(b, _) => b >= |t.budgets|
    case StepApproveBudget(b, _) => b >= |t.budgets|
    case StepDecideBudget(b, _, now) =>
      b >= |t.budgets| || (!t.budgets[b].used && (t.budgets[b].expires.None? || t.budgets[b].expires.value <= now))
    case StepRequestPurchase(p, _, _) => p >= |t.stock|
    case StepReceiveGoods(r, _) => r >= |t.requests|
    case StepFulfillWithdrawal(w) => w >= |t.withdrawals|
    case StepRecordPayment(i, amount, _, key) => Billing.Acceptable(amount, key) && i >= |t.invoices|
    case _ => step.order >= |t.orders|
  }

  /** The call comes up against a row that is there already, or binds to one that is not: an approval that would give the
      vehicle a second undelivered order, a purchase for an order that does not exist, another payment under a used key. */
  predicate Clashes(t: Tables, step: Step) {
    match step
    case StepApproveBudget(b, _) => b < |t.budgets| && Approvable(t.budgets[b]) && OpensSecond(t, b)
    case StepDecideBudget(b, approve, now) =>
      && b < |t.budgets| && approve && Approvable(t.budgets[b]) && OpensSecond(t, b)
      && t.budgets[b].expires.Some? && now < t.budgets[b].expires.value
    case StepRequestPurchase(p, units, order) => p < |t.stock| && units > 0 && order.Some? && order.value >= |t.orders|
    case StepRecordPayment(i, amount, means, key) =>
      && Billing.Acceptable(amount, key) && i < |t.invoices|
      && exists k :: 0 <= k < |t.invoices[i].payments| && t.invoices[i].payments[k].key == Strip(key)
                     && (t.invoices[i].payments[k].amount != amount || t.invoices[i].payments[k].means != means)
    case _ => false
  }

  predicate OpensSecond(t: Tables, b: nat)
    requires b < |t.budgets|
  {
    && FindOrder(t.budgets, t.orders, b).None?
    && exists x :: 0 <= x < |t.orders| && t.orders[x].vehicle == t.budgets[b].vehicle && t.orders[x].status != Entregue
  }

  ghost predicate SaysWhy(t: Tables, step: Step) {
    && (Call(t, step) == RolledBack(NotFound) <==> NamesNothing(t, step))
    && (Call(t, step) == RolledBack(Conflict) <==> Clashes(t, step))
  }

  lemma ApprovalSaysWhy(t: Tables, b: nat, now: int)
    requires b < |t.budgets|
    ensures ApplyApproved(MarkDecided(t, b, BudgetStatus.Approved), b, now) == RolledBack(Conflict) <==> OpensSecond(t, b)
    ensures ApplyApproved(MarkDecided(t, b, BudgetStatus.Approved), b, now) != RolledBack(NotFound)
  {
    SearchFrame(t.budgets, MarkDecided(t, b, BudgetStatus.Approved).budgets, t.orders, b);
  }

  lemma BudgetRefusals(t: Tables, step: Step)
    requires Sound(t)
    requires step.StepEditBudget? || step.StepCreateRevision? || step.StepSendBudget? || step.StepCreateBudget?
    ensures SaysWhy(t, step)
  {
  }

  lemma DecisionRefusals(t: Tables, step: Step)
    requires Sound(t) && (step.StepApproveBudget? || step.StepDecideBudget?)
    ensures SaysWhy(t, step)
  {
    if step.budget < |t.budgets| { ApprovalSaysWhy(t, step.budget, step.now); }
  }

  lemma StockRefusals(t: Tables, step: Step)
    requires Sound(t)
    requires step.StepAddProduct? || step.StepAdjustStock? || step.StepRequestPurchase? || step.StepReceiveGoods?
    ensures SaysWhy(t, step)
  {
  }

  lemma WorkRefusals(t: Tables, step: Step)
    requires Sound(t)
    requires step.StepReconcile? || step.StepAssignMechanic? || step.StepStartService? || step.StepRequestWithdrawal?
             || step.StepFulfillWithdrawal? || step.StepFinishService?
    ensures SaysWhy(t, step)
  {
  }

  lemma ClosingRefusals(t: Tables, step: Step)
    requires Sound(t)
    requires step.StepCreateInvoice? || step.StepDeliverOrder? || step.StepOverrideStatus?
    ensures SaysWhy(t, step)
  {
  }

  lemma PaymentRefusals(t: Tables, step: Step)
    requires BillingSound(t) && step.StepRecordPayment?
    ensures SaysWhy(t, step)
  {
    if step.invoice < |t.invoices| { PaymentClashes(t.invoices[step.invoice], step.amount, step.means, step.key); }
  }

  /** A payment conflicts exactly with another one under its own key. */
  lemma PaymentClashes(inv: Invoice, amount: int, means: PaymentMethod, header: string)
    requires Billing.InvoiceSound(inv)
    ensures Billing.Submit(inv, amount, means, header) != Billing.Refused(NotFound)
    ensures Billing.Submit(inv, amount, means, header) == Billing.Refused(Conflict) <==>
            && Billing.Acceptable(amount, header)
            && exists k :: 0 <= k < |inv.payments| && inv.payments[k].key == Strip(header)
                           && (inv.payments[k].amount != amount || inv.payments[k].means != means)
  {
    if Billing.Acceptable(amount, header) {
      var found := Billing.FindPayment(inv.payments, Strip(header));
      if found.Some? { Billing.RetryIsAnswered(inv, found.value, amount, means, header); }
    }
  }

  /** Every call that fails says why: "not found" exactly when it names what does not exist, "conflict" exactly when it
      clashes with what does, "invalid" otherwise. */
  lemma EveryRefusalSaysWhy(t: Tables, step: Step)
    requires Sound(t) && BillingSound(t)
    ensures SaysWhy(t, step)
  {
    match step
    case StepEditBudget(_, _, _, _) => BudgetRefusals(t, step);
    case StepCreateRevision(_) => BudgetRefusals(t, step);
    case StepSendBudget(_, _) => BudgetRefusals(t, step);
    case StepCreateBudget(_) => BudgetRefusals(t, step);
    case StepApproveBudget(_, _) => DecisionRefusals(t, step);
    case StepDecideBudget(_, _, _) => DecisionRefusals(t, step);
    case StepAddProduct(_) => StockRefusals(t, step);
    case StepAdjustStock(_, _) => StockRefusals(t, step);
    case StepRequestPurchase(_, _, _) => StockRefusals(t, step);
    case StepReceiveGoods(_, _) => StockRefusals(t, step);
    case StepCreateInvoice(_) => ClosingRefusals(t, step);
    case StepDeliverOrder(_) => ClosingRefusals(t, step);
    case StepOverrideStatus(_, _, _) => ClosingRefusals(t, step);
    case StepRecordPayment(_, _, _, _) => PaymentRefusals(t, step);
    case _ => WorkRefusals(t, step);
  }
}
