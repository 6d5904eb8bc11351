/** Invoices, payments and delivery over every call and every run. */
module Deliveries {
  import opened Schema
  import opened Inventory
  import opened Revisions
  import Text
  import opened Money
  import opened Workshop
  import opened Lifecycle
  import opened Billing
  import opened Safety
  import opened Families
  import opened Stock

  // ---- what an order costs ----

  /** The totals of budgets and orders are close to their lines. */
  ghost predicate CostsSound(t: Tables) {
    && (forall b :: 0 <= b < |t.budgets| ==> Close(t.budgets[b].services, t.budgets[b].products, t.budgets[b].total))
    && (forall x :: 0 <= x < |t.orders| ==> Close(t.orders[x].services, t.orders[x].products, t.orders[x].total))
  }

  /** No order is empty. */
  ghost predicate ScopesSound(t: Tables) {
    forall x :: 0 <= x < |t.orders| ==> t.orders[x].services != [] || t.orders[x].products != []
  }

  /** Scopes and totals are the same, order by order. */
  ghost predicate SameScopes(orders: seq<Order>, orders': seq<Order>) {
    && |orders'| == |orders|
    && forall x :: 0 <= x < |orders| ==>
         orders'[x].total == orders[x].total && orders'[x].services == orders[x].services && orders'[x].products == orders[x].products
  }

  /** The orders once an approved budget has been applied, before they are reconciled. */
  function AppliedTo(t: Tables, b: nat, now: int): seq<Order>
    requires b < |t.budgets|
  {
    match FindOrder(t.budgets, t.orders, b)
    case None => t.orders + [NewOrder(t.budgets, b, now)]
    case Some(o) => t.orders[o := Revise(t.orders[o], t.budgets[b])]
  }

  lemma ApplyApprovedScopes(t: Tables, b: nat, now: int)
    requires b < |t.budgets| && ApplyApproved(t, b, now).Committed?
    ensures SameScopes(AppliedTo(t, b, now), ApplyApproved(t, b, now).tables.orders)
  {
    var found := FindOrder(t.budgets, t.orders, b);
    ReconcileSteps(t.(orders := AppliedTo(t, b, now)), if found.Some? then found.value else |t.orders|);
  }

  lemma ApplyApprovedCosts(t: Tables, b: nat, now: int)
    requires Sound(t) && CostsSound(t) && b < |t.budgets| && ApplyApproved(t, b, now).Committed?
    ensures CostsSound(ApplyApproved(t, b, now).tables)
  {
    ApplyApprovedGrows(t, b, now);
    ApplyApprovedScopes(t, b, now);
    var orders := AppliedTo(t, b, now);
    assert forall x :: 0 <= x < |orders| ==> Close(orders[x].services, orders[x].products, orders[x].total);
  }

  lemma ApproveCosts(t: Tables, b: nat, now: int)
    requires Sound(t) && CostsSound(t) && b < |t.budgets|
    requires ApplyApproved(MarkDecided(t, b, BudgetStatus.Approved), b, now).Committed?
    ensures CostsSound(ApplyApproved(MarkDecided(t, b, BudgetStatus.Approved), b, now).tables)
  {
    BudgetKeepsSound(t, MarkDecided(t, b, BudgetStatus.Approved).budgets);
    ApplyApprovedCosts(MarkDecided(t, b, BudgetStatus.Approved), b, now);
  }

  /** The same lines and totals as before, in budgets and orders. */
  lemma CostsFrame(t: Tables, t': Tables)
    requires CostsSound(t) && SameScopes(t.orders, t'.orders) && SameMoney(t.budgets, t'.budgets)
    ensures CostsSound(t')
  {
  }

  ghost predicate SameMoney(budgets: seq<Budget>, budgets': seq<Budget>) {
    && |budgets'| == |budgets|
    && forall b :: 0 <= b < |budgets| ==>
         && budgets'[b].total == budgets[b].total
         && budgets'[b].services == budgets[b].services && budgets'[b].products == budgets[b].products
  }

  predicate OrderOnly(step: Step) {
    step.StepAssignMechanic? || step.StepStartService? || step.StepFinishService? || step.StepRecordPayment? || step.StepDeliverOrder?
  }

  lemma OrderCallScopes(t: Tables, step: Step)
    requires OrderOnly(step)
    ensures SameScopes(t.orders, Next(t, step).orders) && Next(t, step).budgets == t.budgets
  {
  }

  lemma OrderCallCosts(t: Tables, step: Step)
    requires CostsSound(t) && OrderOnly(step)
    ensures CostsSound(Next(t, step))
  {
    OrderCallScopes(t, step);
    CostsFrame(t, Next(t, step));
  }

  lemma BudgetStatusCallScopes(t: Tables, step: Step)
    requires step.StepOverrideStatus? || step.StepSendBudget?
    ensures SameScopes(t.orders, Next(t, step).orders) && SameMoney(t.budgets, Next(t, step).budgets)
  {
  }

  lemma BudgetStatusCallCosts(t: Tables, step: Step)
    requires CostsSound(t) && (step.StepOverrideStatus? || step.StepSendBudget?)
    ensures CostsSound(Next(t, step))
  {
    BudgetStatusCallScopes(t, step);
    CostsFrame(t, Next(t, step));
  }

  /** An edit records what its float sum came to; every other call passes totals on. */
  predicate RecordsItsSum(step: Step) {
    step.StepEditBudget? ==> Close(step.services, step.products, step.total)
  }

  /** A new draft is empty, a revision copies lines and total together, and an edit records a total close to its lines. */
  lemma DraftCallCosts(t: Tables, step: Step)
    requires CostsSound(t) && (step.StepCreateBudget? || step.StepEditBudget? || step.StepCreateRevision?) && RecordsItsSum(step)
    ensures CostsSound(Next(t, step))
  {
  }

  lemma QuietCallCosts(t: Tables, step: Step)
    requires CostsSound(t) && TouchesNoOrder(step)
    requires !step.StepCreateBudget? && !step.StepEditBudget? && !step.StepCreateRevision?
    ensures CostsSound(Next(t, step))
  {
  }

  lemma EveryCallKeepsCosts(t: Tables, step: Step)
    requires Sound(t) && CostsSound(t) && RecordsItsSum(step)
    ensures CostsSound(Next(t, step))
  {
    if step.StepCreateBudget? || step.StepEditBudget? || step.StepCreateRevision? {
      DraftCallCosts(t, step);
    } else if TouchesNoOrder(step) {
      QuietCallCosts(t, step);
    } else if OrderOnly(step) {
      OrderCallCosts(t, step);
    } else if step.StepSendBudget? || step.StepOverrideStatus? {
      BudgetStatusCallCosts(t, step);
    } else {
      ScopeCallCosts(t, step);
    }
  }

  lemma ScopeCallCosts(t: Tables, step: Step)
    requires Sound(t) && CostsSound(t)
    requires step.StepApproveBudget? || step.StepDecideBudget? || step.StepReconcile? || step.StepReceiveGoods?
    ensures CostsSound(Next(t, step))
  {
    if step.StepReconcile? || step.StepReceiveGoods? {
      StockCallScopes(t, step);
      StockCallBudgets(t, step);
      CostsFrame(t, Next(t, step));
    } else {
      DecisionCosts(t, step);
    }
  }

  lemma DecisionCosts(t: Tables, step: Step)
    requires Sound(t) && CostsSound(t) && (step.StepApproveBudget? || step.StepDecideBudget?)
    ensures CostsSound(Next(t, step))
  {
    if Call(t, step).Committed? && (step.StepApproveBudget? || (step.approve && !t.budgets[step.budget].used)) {
      ApproveCosts(t, step.budget, step.now);
    }
  }

  lemma ScopesFrame(t: Tables, t': Tables)
    requires ScopesSound(t) && SameScopes(t.orders, t'.orders)
    ensures ScopesSound(t')
  {
  }

  lemma StockCallScopes(t: Tables, step: Step)
    requires step.StepReconcile? || step.StepReceiveGoods?
    ensures SameScopes(t.orders, Next(t, step).orders)
  {
    if Call(t, step).Committed? {
      if step.StepReconcile? {
        ReconcileSteps(t, step.order);
      } else if t.requests[step.request].order.Some? {
        ReconcileSteps(GoodsIn(t, step.request, step.units), t.requests[step.request].order.value);
      }
    }
  }

  lemma ApprovalKeepsScopes(t: Tables, b: nat, now: int)
    requires ScopesSound(t) && b < |t.budgets| && (t.budgets[b].services != [] || t.budgets[b].products != [])
    requires ApplyApproved(t, b, now).Committed?
    ensures ScopesSound(ApplyApproved(t, b, now).tables)
  {
    ApplyApprovedScopes(t, b, now);
    var orders := AppliedTo(t, b, now);
    assert forall x :: 0 <= x < |orders| ==> orders[x].services != [] || orders[x].products != [];
  }

  lemma DecisionKeepsScopes(t: Tables, step: Step)
    requires ScopesSound(t) && (step.StepApproveBudget? || step.StepDecideBudget?)
    ensures ScopesSound(Next(t, step))
  {
    if Call(t, step).Committed? {
      if step.StepApproveBudget? || (step.approve && !t.budgets[step.budget].used) {
        ApprovalKeepsScopes(MarkDecided(t, step.budget, BudgetStatus.Approved), step.budget, step.now);
      }
    }
  }

  /** No call ever leaves an order without lines: an empty budget cannot be approved. */
  lemma EveryCallKeepsScopes(t: Tables, step: Step)
    requires ScopesSound(t)
    ensures ScopesSound(Next(t, step))
  {
    if step.StepApproveBudget? || step.StepDecideBudget? {
      DecisionKeepsScopes(t, step);
    } else {
      if TouchesNoOrder(step) {
        QuietOrders(t, step);
      } else if OrderOnly(step) {
        OrderCallScopes(t, step);
      } else if step.StepSendBudget? || step.StepOverrideStatus? {
        BudgetStatusCallScopes(t, step);
      } else {
        StockCallScopes(t, step);
      }
      ScopesFrame(t, Next(t, step));
    }
  }

  // ---- invoices ----

  /** Every invoice is sound and belongs to an order that is finished; an order has at most one; a delivered
      order has one, and it is paid in full. */
  ghost predicate BillingSound(t: Tables) {
    && (forall i :: 0 <= i < |t.invoices| ==>
          InvoiceSound(t.invoices[i]) && t.invoices[i].order < |t.orders| && Closed(t.orders[t.invoices[i].order].status))
    && (forall i, j :: 0 <= i < j < |t.invoices| ==> t.invoices[i].order != t.invoices[j].order)
    && (forall x :: 0 <= x < |t.orders| && t.orders[x].status == Entregue ==> PaidInFull(t.invoices, x))
  }

  ghost predicate PaidInFull(invoices: seq<Invoice>, x: nat) {
    exists i :: 0 <= i < |invoices| && invoices[i].order == x && SumPaid(invoices[i].payments) == invoices[i].amount
  }

  /** Invoices stay, and delivered orders only come from delivered orders: billing stays sound. */
  lemma BillingFrame(t: Tables, t': Tables)
    requires BillingSound(t) && t'.invoices == t.invoices && |t.orders| <= |t'.orders|
    requires forall x :: 0 <= x < |t.orders| && Closed(t.orders[x].status) ==> Closed(t'.orders[x].status)
    requires forall x :: 0 <= x < |t'.orders| && t'.orders[x].status == Entregue ==> x < |t.orders| && t.orders[x].status == Entregue
    ensures BillingSound(t')
  {
  }

  /** Outside the two billing calls no order becomes delivered. */
  lemma OnlyBillingDelivers(t: Tables, step: Step, x: nat)
    requires !step.StepRecordPayment? && !step.StepDeliverOrder? && !step.StepCreateInvoice?
    requires x < |Next(t, step).orders| && Next(t, step).orders[x].status == Entregue
    ensures x < |t.orders| && t.orders[x].status == Entregue
  {
    if TouchesNoOrder(step) {
      QuietOrders(t, step);
    } else if step.StepApproveBudget? || step.StepDecideBudget? {
      DecisionDeliversNothing(t, step, x);
    } else if step.StepReconcile? || step.StepReceiveGoods? {
      StockCallDeliversNothing(t, step, x);
    } else {
      OrderCallDeliversNothing(t, step, x);
    }
  }

  lemma OrderCallDeliversNothing(t: Tables, step: Step, x: nat)
    requires step.StepAssignMechanic? || step.StepStartService? || step.StepFinishService? || step.StepSendBudget? || step.StepOverrideStatus?
    requires x < |Next(t, step).orders| && Next(t, step).orders[x].status == Entregue
    ensures x < |t.orders| && t.orders[x].status == Entregue
  {
  }

  lemma DecisionDeliversNothing(t: Tables, step: Step, x: nat)
    requires step.StepApproveBudget? || step.StepDecideBudget?
    requires x < |Next(t, step).orders| && Next(t, step).orders[x].status == Entregue
    ensures x < |t.orders| && t.orders[x].status == Entregue
  {
    if Call(t, step).Committed? && !(step.StepDecideBudget? && (!step.approve || t.budgets[step.budget].used)) {
      ApprovalDeliversNothing(MarkDecided(t, step.budget, BudgetStatus.Approved), step.budget, step.now, x);
    }
  }

  lemma StockCallDeliversNothing(t: Tables, step: Step, x: nat)
    requires step.StepReconcile? || step.StepReceiveGoods?
    requires x < |Next(t, step).orders| && Next(t, step).orders[x].status == Entregue
    ensures x < |t.orders| && t.orders[x].status == Entregue
  {
  }

  lemma ReconcileDeliversNothing(t: Tables, o: nat, x: nat)
    requires Reconcile(t, o).Committed?
    requires x < |Reconcile(t, o).tables.orders| && Reconcile(t, o).tables.orders[x].status == Entregue
    ensures x < |t.orders| && t.orders[x].status == Entregue
  {
  }

  lemma ApprovalDeliversNothing(t: Tables, b: nat, now: int, x: nat)
    requires b < |t.budgets| && ApplyApproved(t, b, now).Committed?
    requires x < |ApplyApproved(t, b, now).tables.orders| && ApplyApproved(t, b, now).tables.orders[x].status == Entregue
    ensures x < |t.orders| && t.orders[x].status == Entregue
  {
    match FindOrder(t.budgets, t.orders, b)
    case None => ReconcileDeliversNothing(t.(orders := t.orders + [NewOrder(t.budgets, b, now)]), |t.orders|, x);
    case Some(o) => ReconcileDeliversNothing(t.(orders := t.orders[o := Revise(t.orders[o], t.budgets[b])]), o, x);
  }

  lemma InvoicesKept(t: Tables, step: Step)
    requires Sound(t) && !step.StepRecordPayment? && !step.StepCreateInvoice?
    ensures Next(t, step).invoices == t.invoices
  {
    if step.StepApproveBudget? || step.StepDecideBudget? {
      DecisionKeepsInvoices(t, step);
    } else if step.StepReconcile? || step.StepReceiveGoods? {
      StockCallKeepsInvoices(t, step);
    }
  }

  lemma DecisionKeepsInvoices(t: Tables, step: Step)
    requires Sound(t) && (step.StepApproveBudget? || step.StepDecideBudget?)
    ensures Next(t, step).invoices == t.invoices
  {
    if Call(t, step).Committed? && !(step.StepDecideBudget? && (!step.approve || t.budgets[step.budget].used)) {
      var t1 := MarkDecided(t, step.budget, BudgetStatus.Approved);
      BudgetKeepsSound(t, t1.budgets);
      ApplyApprovedGrows(t1, step.budget, step.now);
    }
  }

  lemma StockCallKeepsInvoices(t: Tables, step: Step)
    requires Sound(t) && (step.StepReconcile? || step.StepReceiveGoods?)
    ensures Next(t, step).invoices == t.invoices
  {
    if Call(t, step).Committed? {
      if step.StepReconcile? {
        ReconcileGrows(t, step.order);
      } else {
        GoodsInKeepsSound(t, step.request, step.units);
        if t.requests[step.request].order.Some? {
          ReconcileGrows(GoodsIn(t, step.request, step.units), t.requests[step.request].order.value);
        }
      }
    }
  }

  lemma OtherCallKeepsBilling(t: Tables, step: Step)
    requires Sound(t) && BillingSound(t)
    requires !step.StepRecordPayment? && !step.StepDeliverOrder? && !step.StepCreateInvoice?
    ensures BillingSound(Next(t, step))
  {
    var t' := Next(t, step);
    EveryCallStepsOrders(t, step);
    InvoicesKept(t, step);
    forall x | 0 <= x < |t.orders| ensures Closed(t.orders[x].status) ==> Closed(t'.orders[x].status) {
      assert OrderStep(t.orders[x], t'.orders[x], step.StepOverrideStatus?);
    }
    forall x | 0 <= x < |t'.orders| && t'.orders[x].status == Entregue ensures x < |t.orders| && t.orders[x].status == Entregue {
      OnlyBillingDelivers(t, step, x);
    }
    BillingFrame(t, t');
  }

  lemma NewInvoiceIsSound(t: Tables, o: nat)
    requires BillingSound(t) && ScopesSound(t) && CreateInvoice(t, o).Committed?
    ensures BillingSound(CreateInvoice(t, o).tables)
  {
    PricedLinesAddUp(t.orders[o].services);
    PricedLinesAddUp(t.orders[o].products);
    InvoiceAdded(t, CreateInvoice(t, o).tables.invoices[|t.invoices|]);
  }

  lemma InvoiceAdded(t: Tables, inv: Invoice)
    requires BillingSound(t) && InvoiceSound(inv) && inv.order < |t.orders| && Closed(t.orders[inv.order].status)
    requires forall i :: 0 <= i < |t.invoices| ==> t.invoices[i].order != inv.order
    ensures BillingSound(t.(invoices := t.invoices + [inv]))
  {
    var invoices' := t.invoices + [inv];
    forall x | 0 <= x < |t.orders| && t.orders[x].status == Entregue ensures PaidInFull(invoices', x) {
      assert PaidInFull(t.invoices, x);
      var i :| 0 <= i < |t.invoices| && t.invoices[i].order == x && SumPaid(t.invoices[i].payments) == t.invoices[i].amount;
      assert invoices'[i] == t.invoices[i];
    }
  }

  /** Replacing an invoice by one that has at least its payments keeps every fully paid order fully paid. */
  lemma PaidStaysPaid(invoices: seq<Invoice>, i: nat, inv: Invoice, x: nat)
    requires i < |invoices| && inv.order == invoices[i].order
    requires SumPaid(invoices[i].payments) == invoices[i].amount ==> SumPaid(inv.payments) == inv.amount
    requires PaidInFull(invoices, x)
    ensures PaidInFull(invoices[i := inv], x)
  {
    var j :| 0 <= j < |invoices| && invoices[j].order == x && SumPaid(invoices[j].payments) == invoices[j].amount;
    assert invoices[i := inv][j].order == x;
  }

  lemma PaymentInvoices(t: Tables, i: nat, amount: int, means: PaymentMethod, key: string)
    requires BillingSound(t) && i < |t.invoices| && Submit(t.invoices[i], amount, means, key).Recorded?
    ensures var inv := Submit(t.invoices[i], amount, means, key).invoice;
            && BillingSound(t.(invoices := t.invoices[i := inv]))
            && (inv.status == Paid ==> PaidInFull(t.invoices[i := inv], inv.order))
  {
    var inv := Submit(t.invoices[i], amount, means, key).invoice;
    SubmitKeepsSound(t.invoices[i], amount, means, key);
    if SumPaid(t.invoices[i].payments) == t.invoices[i].amount { PaidInvoicesStay(t.invoices[i], amount, means, key); }
    InvoiceReplaced(t, i, inv);
    assert t.invoices[i := inv][i] == inv;
  }

  lemma PaidInvoicesStay(inv: Invoice, amount: int, means: PaymentMethod, key: string)
    requires InvoiceSound(inv) && Submit(inv, amount, means, key).Recorded? && SumPaid(inv.payments) == inv.amount
    ensures SumPaid(Submit(inv, amount, means, key).invoice.payments) == inv.amount
  {
  }

  lemma InvoiceReplaced(t: Tables, i: nat, inv: Invoice)
    requires BillingSound(t) && i < |t.invoices| && InvoiceSound(inv) && inv.order == t.invoices[i].order
    requires SumPaid(t.invoices[i].payments) == t.invoices[i].amount ==> SumPaid(inv.payments) == inv.amount
    ensures BillingSound(t.(invoices := t.invoices[i := inv]))
  {
    forall x | 0 <= x < |t.orders| && t.orders[x].status == Entregue ensures PaidInFull(t.invoices[i := inv], x) {
      PaidStaysPaid(t.invoices, i, inv, x);
    }
  }

  lemma OneMoreDelivered(t: Tables, o: nat)
    requires BillingSound(t) && o < |t.orders| && PaidInFull(t.invoices, o)
    ensures BillingSound(WithStatus(t, o, Entregue))
  {
  }

  /** A payment keeps billing sound, and delivers the order only if it completes the amount. */
  lemma PaymentKeepsBilling(t: Tables, i: nat, amount: int, means: PaymentMethod, key: string)
    requires BillingSound(t) && RecordPayment(t, i, amount, means, key).Committed?
    ensures BillingSound(RecordPayment(t, i, amount, means, key).tables)
  {
    PaymentInvoices(t, i, amount, means, key);
    var inv := Submit(t.invoices[i], amount, means, key).invoice;
    if inv.status == Paid { OneMoreDelivered(t.(invoices := t.invoices[i := inv]), inv.order); }
  }

  lemma DeliveryKeepsBilling(t: Tables, o: nat)
    requires BillingSound(t) && DeliverOrder(t, o).Committed?
    ensures BillingSound(DeliverOrder(t, o).tables)
  {
  }

  lemma EveryCallKeepsBilling(t: Tables, step: Step)
    requires Sound(t) && ScopesSound(t) && BillingSound(t)
    ensures BillingSound(Next(t, step))
  {
    if step.StepRecordPayment? || step.StepDeliverOrder? || step.StepCreateInvoice? {
      if Call(t, step).Committed? {
        match step
        case StepRecordPayment(i, amount, means, key) => PaymentKeepsBilling(t, i, amount, means, key);
        case StepDeliverOrder(o) => DeliveryKeepsBilling(t, o);
        case StepCreateInvoice(o) => NewInvoiceIsSound(t, o);
      }
    } else {
      OtherCallKeepsBilling(t, step);
    }
  }

  /** In every reachable state payments are positive, carry distinct keys and add up to at most the amount,
      the status says how far they go, and every delivered order has been paid in full. */
  lemma {:induction false} EveryRunKeepsBilling(steps: seq<Step>)
    ensures ScopesSound(Run(Empty, steps)) && BillingSound(Run(Empty, steps))
  {
    if steps != [] {
      var t := Run(Empty, steps[..|steps| - 1]);
      EveryRunKeepsBilling(steps[..|steps| - 1]);
      EveryRunIsSound(steps[..|steps| - 1]);
      EveryCallKeepsScopes(t, steps[|steps| - 1]);
      EveryCallKeepsBilling(t, steps[|steps| - 1]);
    }
  }

  ghost predicate RecordsItsSums(steps: seq<Step>) {
    forall i :: 0 <= i < |steps| ==> RecordsItsSum(steps[i])
  }

  /** In every run whose edits record their float sums, all totals stay close to their lines. */
  lemma {:induction false} EveryRunKeepsCosts(steps: seq<Step>)
    requires RecordsItsSums(steps)
    ensures CostsSound(Run(Empty, steps))
  {
    if steps != [] {
      EveryRunKeepsCosts(steps[..|steps| - 1]);
      EveryRunIsSound(steps[..|steps| - 1]);
      EveryCallKeepsCosts(Run(Empty, steps[..|steps| - 1]), steps[|steps| - 1]);
    }
  }

  /** The order is finished, priced and not invoiced, and everything that must convert to cents does. */
  predicate Invoiceable(t: Tables, o: nat) {
    && o < |t.orders| && t.orders[o].status == Finalizada && FindInvoice(t.invoices, o).None?
    && Priced(t.orders[o].services) && Priced(t.orders[o].products)
    && InCents(t.orders[o].services) && InCents(t.orders[o].products) && WholeCents(t.orders[o].total)
  }

  /** When an invoice is created, in any state: the order is invoiceable and its recorded total is at most a cent off its lines. */
  lemma InvoiceIff(t: Tables, o: nat)
    ensures CreateInvoice(t, o).Committed? <==>
            Invoiceable(t, o) && Abs(t.orders[o].total - (Cost(t.orders[o].services) + Cost(t.orders[o].products))) <= 0.01
  {
    if o < |t.orders| {
      var order := t.orders[o];
      AmountIsExact(order.services);
      AmountIsExact(order.products);
      if Invoiceable(t, o) {
        CentsApart(Amount(order.services).value + Amount(order.products).value, ToMoney(order.total).value,
                   Cost(order.services) + Cost(order.products), order.total);
      }
    }
  }

  /** The invoice created is for exactly what the lines come to, unpaid, and nothing else changes. */
  lemma InvoiceIsForTheLines(t: Tables, o: nat)
    requires CreateInvoice(t, o).Committed?
    ensures var t' := CreateInvoice(t, o).tables;
            && t' == t.(invoices := t'.invoices) && |t'.invoices| == |t.invoices| + 1 && t'.invoices[..|t.invoices|] == t.invoices
            && var inv := t'.invoices[|t.invoices|];
            && inv.order == o && inv.status == Unpaid && inv.payments == []
            && inv.amount as real == (Cost(t.orders[o].services) + Cost(t.orders[o].products)) * 100.0
  {
    AmountIsExact(t.orders[o].services);
    AmountIsExact(t.orders[o].products);
  }

  /** A payment that goes through under a new key is added to its invoice, and delivers the order exactly when it is
      finished and now paid in full; a repeated one changes nothing. */
  lemma PaymentDoes(t: Tables, i: nat, amount: int, means: PaymentMethod, header: string)
    requires BillingSound(t) && RecordPayment(t, i, amount, means, header).Committed?
    ensures var t' := RecordPayment(t, i, amount, means, header).tables;
            var inv, key := t.invoices[i], Text.Strip(header);
            if exists k :: 0 <= k < |inv.payments| && inv.payments[k].key == key then t' == t
            else
              && |t'.invoices| == |t.invoices| && t'.invoices == t.invoices[i := t'.invoices[i]]
              && t'.invoices[i].payments == inv.payments + [Payment(amount, means, key)]
              && t'.invoices[i].amount == inv.amount && t'.invoices[i].order == inv.order
              && (t'.invoices[i].status == Paid <==> SumPaid(inv.payments) + amount == inv.amount)
              && t' == t.(invoices := t'.invoices, orders :=
                   if SumPaid(inv.payments) + amount == inv.amount && t.orders[inv.order].status == Finalizada
                   then t.orders[inv.order := t.orders[inv.order].(status := Entregue)] else t.orders)
  {
    var inv := t.invoices[i];
    SubmitAdds(inv, amount, means, header);
    if forall k :: 0 <= k < |inv.payments| ==> inv.payments[k].key != Text.Strip(header) {
      NewPaymentDoes(t, i, amount, means, header, Submit(inv, amount, means, header).invoice);
    }
  }

  lemma NewPaymentDoes(t: Tables, i: nat, amount: int, means: PaymentMethod, header: string, inv: Invoice)
    requires i < |t.invoices| && Submit(t.invoices[i], amount, means, header) == Recorded(inv)
    requires forall k :: 0 <= k < |t.invoices[i].payments| ==> t.invoices[i].payments[k].key != Text.Strip(header)
    requires inv.order == t.invoices[i].order < |t.orders|
    ensures RecordPayment(t, i, amount, means, header) == Committed(t.(invoices := t.invoices[i := inv], orders :=
              if inv.status == Paid && t.orders[inv.order].status == Finalizada
              then t.orders[inv.order := t.orders[inv.order].(status := Entregue)] else t.orders))
  {
    assert FindPayment(t.invoices[i].payments, Text.Strip(header)).None?;
  }

  /** A payment is taken exactly when the route accepts it, its invoice exists and takes it. */
  lemma PaymentIff(t: Tables, i: nat, amount: int, means: PaymentMethod, header: string)
    requires BillingSound(t)
    ensures RecordPayment(t, i, amount, means, header).Committed? <==>
            && i < |t.invoices| && 0 < amount < 1_000_000_000_000 && 0 < |Text.Strip(header)| <= 128
            && var inv, key := t.invoices[i], Text.Strip(header);
            if exists k :: 0 <= k < |inv.payments| && inv.payments[k].key == key
            then exists k :: 0 <= k < |inv.payments| && inv.payments[k] == Payment(amount, means, key)
            else SumPaid(inv.payments) + amount <= inv.amount
  {
    if i < |t.invoices| && Acceptable(amount, header) { SubmitIff(t.invoices[i], amount, means, header); }
  }

  /** An order is delivered by hand exactly when it is finished and its invoice is paid in full. */
  lemma DeliveryIff(t: Tables, o: nat)
    requires BillingSound(t)
    ensures DeliverOrder(t, o).Committed? <==> o < |t.orders| && t.orders[o].status == Finalizada && PaidInFull(t.invoices, o)
    ensures DeliverOrder(t, o).Committed? ==> DeliverOrder(t, o).tables == t.(orders := t.orders[o := t.orders[o].(status := Entregue)])
  {
  }

  lemma CentsApart(amount: int, shown: int, cost: real, total: real)
    requires amount as real == cost * 100.0 && shown as real == total * 100.0
    ensures -1 <= amount - shown <= 1 <==> Abs(total - cost) <= 0.01
  {
    assert (amount - shown) as real == (cost - total) * 100.0;
  }

  /** In every run whose edits record their float sums, and up to the size at which roundings could add up to two
      cents, the comparison of the total with the lines never refuses: what refuses an invoice of a finished, priced
      order is a price, or a recorded total, that is not in whole cents. */
  lemma InvoiceNeedsWholeCents(steps: seq<Step>, o: nat)
    requires RecordsItsSums(steps) && o < |Run(Empty, steps).orders|
    requires var order := Run(Empty, steps).orders[o]; Modest(order.services, order.products)
    ensures CreateInvoice(Run(Empty, steps), o).Committed? <==> Invoiceable(Run(Empty, steps), o)
  {
    EveryRunKeepsCosts(steps);
    InvoiceOfCloseTotal(Run(Empty, steps), o);
  }

  lemma InvoiceOfCloseTotal(t: Tables, o: nat)
    requires CostsSound(t) && o < |t.orders| && Modest(t.orders[o].services, t.orders[o].products)
    ensures CreateInvoice(t, o).Committed? <==> Invoiceable(t, o)
  {
    if Invoiceable(t, o) { CloseWithinACent(t.orders[o].services, t.orders[o].products, t.orders[o].total); }
    AmountsConvert(t.orders[o]);
  }

  lemma AmountsConvert(order: Order)
    ensures Amount(order.services).Some? <==> InCents(order.services)
    ensures Amount(order.products).Some? <==> InCents(order.products)
  {
    AmountIsExact(order.services);
    AmountIsExact(order.products);
  }
}
