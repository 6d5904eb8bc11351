/** Short runs from the empty tables that reach the states in which a promise fails. */
module Witnesses {
  import opened Schema
  import opened Reservations
  import opened Purchases
  import opened Withdrawals
  import opened AgeQueue
  import opened Greedy
  import opened Money
  import opened Inventory
  import opened Fairness
  import opened Revisions
  import opened Workshop
  import opened Safety
  import opened Stock
  import opened Statuses
  import opened Execution
  import opened Finishing
  import opened Families
  import opened Deliveries
  import Text
  import OrderEntity
  import History

  lemma RunSnoc(steps: seq<Step>, step: Step)
    ensures Run(Empty, steps + [step]) == Next(Run(Empty, steps), step)
  {
    assert (steps + [step])[..|steps|] == steps;
  }

  lemma RunStep(steps: seq<Step>, step: Step, outcome: Outcome)
    requires Call(Run(Empty, steps), step) == outcome && outcome.Committed?
    ensures Run(Empty, steps + [step]) == outcome.tables
  {
    RunSnoc(steps, step);
  }

  // ---- one order for three units of one product ----

  function Scope(price: real): seq<Line> {
    [Line(0, 3, price)]
  }

  function Drafted(stock: int, price: real, total: real): seq<Step> {
    [] + [StepAddProduct(stock)] + [StepCreateBudget(0)] + [StepEditBudget(0, [], Scope(price), total)]
  }

  /** A product in stock, a budget for three of it, sent and approved. */
  function Opening(stock: int, price: real, total: real): seq<Step> {
    Drafted(stock, price, total) + [StepSendBudget(0, 100)] + [StepApproveBudget(0, 1)]
  }

  function TheBudget(status: BudgetStatus, price: real, total: real, used: bool, expires: Option<int>): Budget {
    Budget(0, status, total, [], Scope(price), 1, None, used, expires)
  }

  function TheOrder(status: OrderStatus, mechanic: Option<string>, price: real, total: real): Order {
    Order(0, 0, status, mechanic, total, 1, [], Scope(price))
  }

  function Empties(stock: seq<int>, budgets: seq<Budget>): Tables {
    Tables(stock, budgets, [], [], [], [], [], [])
  }

  lemma Drafting(stock: nat, price: real, total: real)
    ensures var t1 := Empties([stock], []);
            var t2 := Empties([stock], [Budget(0, Draft, 0.0, [], [], 1, None, false, None)]);
            && AddProduct(Empty, stock) == Committed(t1)
            && CreateBudget(t1, 0) == Committed(t2)
            && EditBudget(t2, 0, [], Scope(price), total) == Committed(Empties([stock], [TheBudget(Draft, price, total, false, None)]))
  {
  }

  lemma Sending(stock: nat, price: real, total: real)
    ensures SendBudget(Empties([stock], [TheBudget(Draft, price, total, false, None)]), 0, 100)
            == Committed(Empties([stock], [TheBudget(BudgetStatus.Sent, price, total, false, Some(100))]))
  {
    var t := MarkSent(Empties([stock], [TheBudget(Draft, price, total, false, None)]), 0, 100);
    assert t.budgets == [TheBudget(BudgetStatus.Sent, price, total, false, Some(100))];
    assert FindOrder(t.budgets, t.orders, 0).None?;
  }

  /** The tables just before the new order is reconciled. */
  function Unreconciled(stock: nat, price: real, total: real): Tables {
    Tables([stock], [TheBudget(BudgetStatus.Approved, price, total, true, Some(100))],
           [TheOrder(AguardandoInicio, None, price, total)], [], [], [], [], [])
  }

  lemma Approving(stock: nat, price: real, total: real)
    ensures var t := Empties([stock], [TheBudget(BudgetStatus.Sent, price, total, false, Some(100))]);
            ApproveBudget(t, 0, 1) == Reconcile(Unreconciled(stock, price, total), 0)
  {
    var t := Empties([stock], [TheBudget(BudgetStatus.Sent, price, total, false, Some(100))]);
    var t1 := MarkDecided(t, 0, BudgetStatus.Approved);
    assert t1.budgets == [TheBudget(BudgetStatus.Approved, price, total, true, Some(100))];
    assert FindOrder(t1.budgets, t1.orders, 0).None?;
    assert !VehicleBusy(t1.orders, 0);
    assert t1.orders + [NewOrder(t1.budgets, 0, 1)] == [TheOrder(AguardandoInicio, None, price, total)];
  }

  lemma DraftedRuns(stock: nat, price: real, total: real)
    ensures Run(Empty, Drafted(stock, price, total)) == Empties([stock], [TheBudget(Draft, price, total, false, None)])
  {
    var none: seq<Step> := [];
    Drafting(stock, price, total);
    RunStep(none, StepAddProduct(stock), AddProduct(Empty, stock));
    var one := none + [StepAddProduct(stock)];
    RunStep(one, StepCreateBudget(0), CreateBudget(Empties([stock], []), 0));
    var two := one + [StepCreateBudget(0)];
    var t2 := Empties([stock], [Budget(0, Draft, 0.0, [], [], 1, None, false, None)]);
    RunStep(two, StepEditBudget(0, [], Scope(price), total), EditBudget(t2, 0, [], Scope(price), total));
  }

  lemma SentRuns(stock: nat, price: real, total: real)
    ensures Run(Empty, Drafted(stock, price, total) + [StepSendBudget(0, 100)]) ==
            Empties([stock], [TheBudget(BudgetStatus.Sent, price, total, false, Some(100))])
  {
    DraftedRuns(stock, price, total);
    Sending(stock, price, total);
    RunStep(Drafted(stock, price, total), StepSendBudget(0, 100),
            Committed(Empties([stock], [TheBudget(BudgetStatus.Sent, price, total, false, Some(100))])));
  }

  /** The opening, step by step. */
  lemma OpeningRuns(stock: nat, price: real, total: real)
    ensures Run(Empty, Opening(stock, price, total)) == ReconcileWaiting(Unreconciled(stock, price, total), 0)
  {
    SentRuns(stock, price, total);
    Approving(stock, price, total);
    RunStep(Drafted(stock, price, total) + [StepSendBudget(0, 100)], StepApproveBudget(0, 1),
            Committed(ReconcileWaiting(Unreconciled(stock, price, total), 0)));
  }

  lemma OneInQueue(order: Order)
    requires Queued(order, 0)
    ensures Queue([order], 0) == [0]
  {
    assert Queue([order], 0) == Insert([order], [], 0);
  }

  lemma OpeningUnits(stock: nat, price: real, total: real)
    requires RowsSound(Unreconciled(stock, price, total))
    ensures var t' := ReconcileWaiting(Unreconciled(stock, price, total), 0);
            Qty(t'.reservations, 0, 0) == Min(3, stock) && OnOrder(t'.requests, 0, 0) == 3 - Min(3, stock)
  {
    var t := Unreconciled(stock, price, total);
    assert Scope(price)[0].item in Items(Scope(price));
    RequiredOfScope(price);
    OneInQueue(t.orders[0]);
    assert Demands(t.orders, 0)[..0] == [];
    FirstComeFirstServed(t, 0, 0, 0);
  }

  /** One order for three units, of which it holds so many while the rest is on order. */
  ghost predicate Opened(t: Tables, stock: nat, price: real, total: real) {
    && Sound(t) && t.stock == [stock] && t.withdrawals == [] && t.invoices == []
    && t.budgets == [TheBudget(BudgetStatus.Approved, price, total, true, Some(100))]
    && t.orders == [TheOrder(if stock >= 3 then AguardandoInicio else AguardandoCompra, None, price, total)]
    && Qty(t.reservations, 0, 0) == Min(3, stock) && OnOrder(t.requests, 0, 0) == 3 - Min(3, stock)
  }

  lemma OpeningOpens(stock: nat, price: real, total: real)
    ensures Opened(Run(Empty, Opening(stock, price, total)), stock, price, total)
  {
    OpeningRuns(stock, price, total);
    EveryRunIsSound(Opening(stock, price, total));
    OpeningUnits(stock, price, total);
    OpeningStatus(stock, price, total);
    OpeningRest(stock, price, total);
  }

  lemma OpeningRest(stock: nat, price: real, total: real)
    ensures var t, t' := Unreconciled(stock, price, total), ReconcileWaiting(Unreconciled(stock, price, total), 0);
            && t'.stock == t.stock && t'.withdrawals == t.withdrawals && t'.invoices == t.invoices && t'.budgets == t.budgets
            && |t'.orders| == 1 && t'.orders[0] == t.orders[0].(status := t'.orders[0].status)
  {
    ReconcileRows(Unreconciled(stock, price, total), 0);
  }

  lemma OpeningStatus(stock: nat, price: real, total: real)
    requires var t' := ReconcileWaiting(Unreconciled(stock, price, total), 0); Qty(t'.reservations, 0, 0) == Min(3, stock)
    ensures var t' := ReconcileWaiting(Unreconciled(stock, price, total), 0);
            |t'.orders| == 1 && t'.orders[0].status == if stock >= 3 then AguardandoInicio else AguardandoCompra
  {
    var t' := ReconcileWaiting(Unreconciled(stock, price, total), 0);
    ReconcileStatuses(Unreconciled(stock, price, total), 0, 0);
    OpeningRest(stock, price, total);
    RequiredOfScope(price);
  }

  lemma RequiredOfScope(price: real)
    ensures forall p :: Required(Scope(price), p) == if p == 0 then 3 else 0
  {
    assert Scope(price)[..0] == [];
  }

  // ---- an executing order is reconciled ----

  function Started(price: real, total: real): seq<Step> {
    Opening(10, price, total) + [StepAssignMechanic(0, "Ana", "")] + [StepStartService(0)]
  }

  ghost predicate Working(t: Tables, status: OrderStatus, price: real, total: real) {
    && Sound(t) && t.stock == [10] && t.withdrawals == [] && t.invoices == []
    && t.orders == [TheOrder(status, Some("Ana"), price, total)] && Qty(t.reservations, 0, 0) == 3
  }

  lemma Assigning(t: Tables, price: real, total: real)
    requires Opened(t, 10, price, total) && Sound(Next(t, StepAssignMechanic(0, "Ana", "")))
    ensures Working(Next(t, StepAssignMechanic(0, "Ana", "")), AguardandoInicio, price, total)
  {
    assert Text.Strip("Ana") == "Ana";
  }

  lemma Starting(t: Tables, price: real, total: real)
    requires Working(t, AguardandoInicio, price, total) && Sound(Next(t, StepStartService(0)))
    ensures Working(Next(t, StepStartService(0)), EmExecucao, price, total)
  {
    RequiredOfScope(price);
    assert !Short(t.orders[0], 0, t.reservations);
  }

  lemma StartedExecutes(price: real, total: real)
    ensures Working(Run(Empty, Started(price, total)), EmExecucao, price, total)
  {
    var steps := Opening(10, price, total);
    var staffed := steps + [StepAssignMechanic(0, "Ana", "")];
    OpeningOpens(10, price, total);
    RunSnoc(steps, StepAssignMechanic(0, "Ana", ""));
    EveryRunIsSound(staffed);
    Assigning(Run(Empty, steps), price, total);
    RunSnoc(staffed, StepStartService(0));
    EveryRunIsSound(Started(price, total));
    Starting(Run(Empty, staffed), price, total);
  }

  lemma Releasing(t: Tables, price: real, total: real)
    requires Working(t, EmExecucao, price, total)
    ensures Stranded(Next(t, StepReconcile(0)), 0, 0)
  {
    ReleaseEffect(t.reservations, 0, {});
    RequiredOfScope(price);
  }

  /** Opened, staffed, started and reconciled, the order executes and holds nothing of what it asks for; no later run
      ever finishes it. */
  lemma ReconciledWhileExecuting(later: seq<Step>)
    ensures var t := Run(Empty, Started(1.10, 3.30) + [StepReconcile(0)]);
            && Stranded(t, 0, 0)
            && |Run(t, later).orders| > 0 && Run(t, later).orders[0].status == EmExecucao
  {
    var steps := Started(1.10, 3.30) + [StepReconcile(0)];
    StartedExecutes(1.10, 3.30);
    RunSnoc(Started(1.10, 3.30), StepReconcile(0));
    Releasing(Run(Empty, Started(1.10, 3.30)), 1.10, 3.30);
    EveryRunIsSound(steps);
    EveryRunKeepsFamilies(steps);
    StrandedForever(Run(Empty, steps), later, 0, 0);
  }

  // ---- a revision of a ready order is sent ----

  function Revised(): seq<Step> {
    Opening(10, 1.10, 3.30) + [StepCreateRevision(0)] + [StepSendBudget(1, 100)]
  }

  /** t1 is t with a draft revision of its one budget. */
  ghost predicate Cloned(t: Tables, t1: Tables) {
    && |t.budgets| == 1
    && var b := t.budgets[0];
       t1 == t.(budgets := [b, b.(status := Draft, revision := 2, supersedes := Some(0), used := false, expires := None)])
  }

  lemma Cloning(t: Tables, stock: nat)
    requires Opened(t, stock, 1.10, 3.30)
    ensures CreateRevision(t, 0).Committed? && Cloned(t, CreateRevision(t, 0).tables)
  {
    var root := RootOf(t.budgets, 0);
    assert Latest(t.budgets, root, BudgetStatus.Approved, 1) == Some(0);
    assert HighestNumber(t.budgets, root, 1, 1) == 1;
  }

  lemma ClonedRuns(stock: nat)
    ensures var steps := Opening(stock, 1.10, 3.30); Cloned(Run(Empty, steps), Run(Empty, steps + [StepCreateRevision(0)]))
  {
    var steps := Opening(stock, 1.10, 3.30);
    OpeningOpens(stock, 1.10, 3.30);
    Cloning(Run(Empty, steps), stock);
    RunStep(steps, StepCreateRevision(0), CreateRevision(Run(Empty, steps), 0));
  }

  lemma SendingRevision(t: Tables)
    requires t.orders == [TheOrder(AguardandoInicio, None, 1.10, 3.30)] && |t.budgets| == 2
    requires t.budgets[0].supersedes.None? && t.budgets[1].supersedes == Some(0) && t.budgets[1].status == Draft
    ensures !AllExact(Next(t, StepSendBudget(1, 100)))
  {
    var t1 := MarkSent(t, 1, 100);
    var t' := Next(t, StepSendBudget(1, 100));
    FoundFromRevision(t1.budgets, t1.orders);
    assert t' == ReleaseOrder(t1, 0);
    ReleaseEffect(t.reservations, 0, {});
    RequiredOfScope(1.10);
    assert Qty(t'.reservations, 0, 0) < Required(t'.orders[0].products, 0);
    assert !Covered(t'.orders[0], 0, t'.reservations);
    assert !StatusExact(t'.orders, t'.reservations, 0);
  }

  lemma FoundFromRevision(budgets: seq<Budget>, orders: seq<Order>)
    requires |budgets| == 2 && budgets[0].supersedes.None? && budgets[1].supersedes == Some(0)
    requires |orders| == 1 && orders[0].budget == 0
    ensures FindOrder(budgets, orders, 1) == Some(0)
  {
    assert OrderOf(orders[..0], 0).None? && OrderOf(orders[..0], 1).None?;
    assert OrderOf(orders, 0) == Some(0);
    assert OrderOf(orders, 1).None?;
    assert FindOrder(budgets, orders, 0) == Some(0);
  }

  /** Opened with enough stock, revised and the revision sent: the order still says it is ready, and holds nothing. */
  lemma RevisionSentWhileReady()
    ensures !AllExact(Run(Empty, Revised()))
  {
    var cloned := Opening(10, 1.10, 3.30) + [StepCreateRevision(0)];
    OpeningOpens(10, 1.10, 3.30);
    ClonedRuns(10);
    RunSnoc(cloned, StepSendBudget(1, 100));
    SendingRevision(Run(Empty, cloned));
  }

  // ---- stock is corrected below what is reserved ----

  lemma Correcting(t: Tables)
    requires Opened(t, 10, 1.10, 3.30)
    ensures !InStock(Next(t, StepAdjustStock(0, -8)), 0)
  {
    HeldSplit(t.reservations, {}, 0, 0);
  }

  /** Opened, then eight of the ten in stock are written off: three are reserved, two are there. */
  lemma CorrectedBelowReserved()
    ensures !InStock(Run(Empty, Opening(10, 1.10, 3.30) + [StepAdjustStock(0, -8)]), 0)
  {
    OpeningOpens(10, 1.10, 3.30);
    RunSnoc(Opening(10, 1.10, 3.30), StepAdjustStock(0, -8));
    Correcting(Run(Empty, Opening(10, 1.10, 3.30)));
  }

  // ---- a revision drops a product ----

  const LABOUR: seq<Line> := [Line(0, 1, 5.00)]

  function Redrafted(): seq<Step> {
    Opening(0, 1.10, 3.30) + [StepCreateRevision(0)] + [StepEditBudget(1, LABOUR, [], 5.00)]
  }

  /** The revision is sent, the order is reconciled while the customer thinks, and the revision is approved. */
  function Dropped(): seq<Step> {
    Redrafted() + [StepSendBudget(1, 100)] + [StepReconcile(0)] + [StepApproveBudget(1, 2)]
  }

  ghost predicate Wanting(t: Tables, status: BudgetStatus) {
    && Sound(t) && t.stock == [0] && t.withdrawals == []
    && t.orders == [TheOrder(AguardandoCompra, None, 1.10, 3.30)]
    && |t.budgets| == 2 && t.budgets[0].supersedes.None? && t.budgets[1].supersedes == Some(0)
    && t.budgets[1].status == status && !t.budgets[1].used && t.budgets[1].services == LABOUR && t.budgets[1].products == []
  }

  lemma RedraftedWants()
    ensures Wanting(Run(Empty, Redrafted()), Draft)
  {
    var cloned := Opening(0, 1.10, 3.30) + [StepCreateRevision(0)];
    OpeningOpens(0, 1.10, 3.30);
    ClonedRuns(0);
    RunSnoc(cloned, StepEditBudget(1, LABOUR, [], 5.00));
    EveryRunIsSound(Redrafted());
    Redrafting(Run(Empty, Opening(0, 1.10, 3.30)), Run(Empty, cloned));
  }

  lemma Redrafting(t: Tables, t1: Tables)
    requires Opened(t, 0, 1.10, 3.30) && Cloned(t, t1) && Sound(Next(t1, StepEditBudget(1, LABOUR, [], 5.00)))
    ensures Wanting(Next(t1, StepEditBudget(1, LABOUR, [], 5.00)), Draft)
  {
  }

  lemma SendingWanted(t: Tables)
    requires Wanting(t, Draft) && Sound(Next(t, StepSendBudget(1, 100)))
    ensures Wanting(Next(t, StepSendBudget(1, 100)), BudgetStatus.Sent)
  {
    var t1 := MarkSent(t, 1, 100);
    FoundFromRevision(t1.budgets, t1.orders);
    assert Next(t, StepSendBudget(1, 100)) == ReleaseOrder(t1, 0);
  }

  lemma ReorderedUnits(t: Tables)
    requires Wanting(t, BudgetStatus.Sent)
    ensures var t' := ReconcileWaiting(t, 0); Qty(t'.reservations, 0, 0) == 0 && OnOrder(t'.requests, 0, 0) == 3
  {
    assert Scope(1.10)[0].item in Items(Scope(1.10));
    RequiredOfScope(1.10);
    OneInQueue(t.orders[0]);
    assert Demands(t.orders, 0)[..0] == [];
    FirstComeFirstServed(t, 0, 0, 0);
  }

  lemma ReorderedStatus(t: Tables)
    requires RowsSound(t) && t.orders == [TheOrder(AguardandoCompra, None, 1.10, 3.30)]
    requires Qty(ReconcileWaiting(t, 0).reservations, 0, 0) == 0
    ensures ReconcileWaiting(t, 0).orders == t.orders
  {
    ReorderedOrder(t);
    ReconcileStatuses(t, 0, 0);
    ShortMeansWanting(t.orders, ReconcileWaiting(t, 0).orders, ReconcileWaiting(t, 0).reservations);
  }

  lemma ReorderedOrder(t: Tables)
    requires RowsSound(t) && |t.orders| == 1 && Waiting(t.orders[0].status)
    ensures OnlyWaitingMoves(ReconcileWaiting(t, 0).orders, t.orders)
  {
    ReconcileRows(t, 0);
  }

  lemma ShortMeansWanting(orders: seq<Order>, orders': seq<Order>, rs: seq<Reservation>)
    requires orders == [TheOrder(AguardandoCompra, None, 1.10, 3.30)] && OnlyWaitingMoves(orders', orders)
    requires StatusExact(orders', rs, 0) && Qty(rs, 0, 0) == 0
    ensures orders' == orders
  {
    RequiredOfScope(1.10);
    assert Qty(rs, 0, 0) < Required(orders'[0].products, 0);
    assert orders' == [orders'[0]];
  }

  lemma WantingFrame(t: Tables, t': Tables)
    requires Wanting(t, BudgetStatus.Sent) && Sound(t') && t' == t.(reservations := t'.reservations, requests := t'.requests)
    ensures Wanting(t', BudgetStatus.Sent)
  {
  }

  lemma Reordering(t: Tables)
    requires Wanting(t, BudgetStatus.Sent) && Sound(ReconcileWaiting(t, 0))
    ensures Wanting(ReconcileWaiting(t, 0), BudgetStatus.Sent) && OnOrder(ReconcileWaiting(t, 0).requests, 0, 0) == 3
  {
    ReorderedUnits(t);
    ReorderedStatus(t);
    ReconcileRows(t, 0);
    WantingFrame(t, ReconcileWaiting(t, 0));
  }

  lemma Dropping(t: Tables)
    requires Wanting(t, BudgetStatus.Sent)
    ensures var t' := Next(t, StepApproveBudget(1, 2));
            |t'.orders| == 1 && t'.orders[0].products == [] && OnOrder(t'.requests, 0, 0) == OnOrder(t.requests, 0, 0)
  {
    var t1 := MarkDecided(t, 1, BudgetStatus.Approved);
    FoundFromRevision(t1.budgets, t1.orders);
    var t2 := t1.(orders := t1.orders[0 := Revise(t1.orders[0], t1.budgets[1])]);
    assert Next(t, StepApproveBudget(1, 2)) == ReconcileWaiting(t2, 0);
    DroppedProducts(t2, 0, 0);
    ReconcileRows(t2, 0);
  }

  lemma SentWants()
    ensures Wanting(Run(Empty, Redrafted() + [StepSendBudget(1, 100)]), BudgetStatus.Sent)
  {
    RedraftedWants();
    RunSnoc(Redrafted(), StepSendBudget(1, 100));
    EveryRunIsSound(Redrafted() + [StepSendBudget(1, 100)]);
    SendingWanted(Run(Empty, Redrafted()));
  }

  lemma ReconciledWants()
    ensures var t := Run(Empty, Redrafted() + [StepSendBudget(1, 100)] + [StepReconcile(0)]);
            Wanting(t, BudgetStatus.Sent) && OnOrder(t.requests, 0, 0) == 3
  {
    var sent := Redrafted() + [StepSendBudget(1, 100)];
    SentWants();
    RunSnoc(sent, StepReconcile(0));
    EveryRunIsSound(sent + [StepReconcile(0)]);
    Reconciling(Run(Empty, sent));
  }

  lemma Reconciling(t: Tables)
    requires Wanting(t, BudgetStatus.Sent) && Sound(Next(t, StepReconcile(0)))
    ensures Wanting(Next(t, StepReconcile(0)), BudgetStatus.Sent) && OnOrder(Next(t, StepReconcile(0)).requests, 0, 0) == 3
  {
    WantingIsWaiting(t);
    Reordering(t);
  }

  lemma WantingIsWaiting(t: Tables)
    requires t.orders != [] && Waiting(t.orders[0].status)
    ensures Next(t, StepReconcile(0)) == ReconcileWaiting(t, 0)
  {
  }

  /** Opened without stock, then revised to labour only: the order asks for no product, and three units are on order for it. */
  lemma DroppedProductStaysOnOrder()
    ensures var t := Run(Empty, Dropped());
            |t.orders| == 1 && t.orders[0].products == [] && OnOrder(t.requests, 0, 0) == 3
  {
    var reconciled := Redrafted() + [StepSendBudget(1, 100)] + [StepReconcile(0)];
    ReconciledWants();
    RunSnoc(reconciled, StepApproveBudget(1, 2));
    Dropping(Run(Empty, reconciled));
  }

  // ---- finished, priced, and refused an invoice ----

  function Finished(price: real, total: real): seq<Step> {
    Started(price, total) + [StepRequestWithdrawal(0, 0, 3)] + [StepFulfillWithdrawal(0)] + [StepFinishService(0)]
  }

  /** The order with its one withdrawal. */
  ghost predicate Withdrawing(t: Tables, withdrawal: WithdrawalStatus, status: OrderStatus, price: real, total: real) {
    && Sound(t) && t.invoices == [] && t.stock != []
    && t.withdrawals == [Withdrawal(0, 0, 3, withdrawal)] && t.orders == [TheOrder(status, Some("Ana"), price, total)]
  }

  lemma Asking(t: Tables, price: real, total: real)
    requires Working(t, EmExecucao, price, total) && Sound(Next(t, StepRequestWithdrawal(0, 0, 3)))
    ensures var t' := Next(t, StepRequestWithdrawal(0, 0, 3));
            Withdrawing(t', Unfulfilled, EmExecucao, price, total) && Qty(t'.reservations, 0, 0) == 3
  {
    RequiredOfScope(price);
  }

  lemma Fulfilling(t: Tables, price: real, total: real)
    requires Withdrawing(t, Unfulfilled, EmExecucao, price, total) && Qty(t.reservations, 0, 0) == 3 && InStock(t, 0)
    requires Sound(Next(t, StepFulfillWithdrawal(0)))
    ensures Withdrawing(Next(t, StepFulfillWithdrawal(0)), Fulfilled, EmExecucao, price, total)
  {
    FulfillNeedsOnlyItsReservation(t, 0);
  }

  lemma Closing(t: Tables, price: real, total: real)
    requires Withdrawing(t, Fulfilled, EmExecucao, price, total) && Sound(Next(t, StepFinishService(0)))
    ensures Withdrawing(Next(t, StepFinishService(0)), Fulfilled, Finalizada, price, total)
  {
    RequiredOfScope(price);
    assert t.withdrawals[..0] == [];
    assert Taken(t.withdrawals, 0, 0) == 3;
    assert !Untaken(t, 0);
  }

  /** At any price and with any recorded total, the order can be worked off: it is finished and has no invoice. */
  lemma FinishedUninvoiced(price: real, total: real)
    ensures Withdrawing(Run(Empty, Finished(price, total)), Fulfilled, Finalizada, price, total)
  {
    var started := Started(price, total);
    var asked := started + [StepRequestWithdrawal(0, 0, 3)];
    var taken := asked + [StepFulfillWithdrawal(0)];
    StartedExecutes(price, total);
    RunSnoc(started, StepRequestWithdrawal(0, 0, 3));
    EveryRunIsSound(asked);
    Asking(Run(Empty, started), price, total);
    UpwardCorrectionsSpare(asked);
    NeverOversold(asked);
    RunSnoc(asked, StepFulfillWithdrawal(0));
    EveryRunIsSound(taken);
    Fulfilling(Run(Empty, asked), price, total);
    RunSnoc(taken, StepFinishService(0));
    EveryRunIsSound(Finished(price, total));
    Closing(Run(Empty, taken), price, total);
  }

  /** Three units at 1.10: the float sum is 3.3000000000000003, which is close to the lines and not in whole cents.
      The order is finished, priced, every price in whole cents, without an invoice, and refused one. */
  lemma RefusedForItsTotal()
    ensures FloatTotal([], Scope(1.10), 3.3000000000000003)
    ensures var t := Run(Empty, Finished(1.10, 3.3000000000000003));
            && |t.orders| == 1 && t.orders[0].status == Finalizada && FindInvoice(t.invoices, 0).None?
            && Priced(t.orders[0].products) && InCents(t.orders[0].products)
            && CreateInvoice(t, 0).RolledBack?
  {
    FinishedUninvoiced(1.10, 3.3000000000000003);
    RefusedSum();
    assert !WholeCents(3.3000000000000003);
    InvoiceIff(Run(Empty, Finished(1.10, 3.3000000000000003)), 0);
  }

  lemma RefusedSum()
    ensures FloatTotal([], Scope(1.10), 3.3000000000000003)
  {
    var lines := Scope(1.10);
    assert lines[..0] == [];
    assert FloatSum(lines[..0], 0.0);
    assert Rounds(1.10, 1.10) && Rounds(1.10 * 3 as real, 3.3000000000000003);
    assert FloatTerm(lines[0], 3.3000000000000003);
    assert FloatAdd(0.0, 3.3000000000000003, 3.3000000000000003);
    assert FloatSum(lines, 3.3000000000000003);
    assert FloatSum([], 0.0);
  }

  /** A price of 10.999 is taken by every call until the invoice, which refuses it. */
  lemma RefusedForItsPrice(total: real)
    ensures var t := Run(Empty, Finished(10.999, total));
            && |t.orders| == 1 && t.orders[0].status == Finalizada && FindInvoice(t.invoices, 0).None?
            && Priced(t.orders[0].products) && CreateInvoice(t, 0).RolledBack?
  {
    FinishedUninvoiced(10.999, total);
    assert !WholeCents(10.999);
    InvoiceIff(Run(Empty, Finished(10.999, total)), 0);
  }

  // ---- two requests under one id ----

  const ID: Option<string> := Some("r-1")

  const ASSIGNED: OrderEntity.Entry :=
    OrderEntity.Entry(Recebida, EmDiagnostico, OrderEntity.MechanicAssignment, None, None, ID, 5_000)

  const AFTER_FIRST: History.Life :=
    History.Life(History.Saved([ASSIGNED], [History.Interval(Recebida, EmDiagnostico, OrderEntity.MechanicAssignment, 5, 5_000)]),
                 EmDiagnostico, Some("Ana"), 0.0)

  const BIRTH: History.Life := History.Life(History.Saved([], []), Recebida, None, 0.0)

  function FirstVisit(): seq<(OrderEntity.Action, OrderEntity.Stamp)> {
    [(OrderEntity.Assign("Ana", ""), OrderEntity.Stamp(None, ID, 5_000))]
  }

  function SecondVisit(): seq<(OrderEntity.Action, OrderEntity.Stamp)> {
    [(OrderEntity.Submit, OrderEntity.Stamp(None, ID, 9_000))]
  }

  lemma FirstVisitDone()
    ensures History.Visit(BIRTH, 0, FirstVisit()) == AFTER_FIRST
  {
    var start := OrderEntity.Entity(Recebida, None, 0.0, []);
    assert FirstVisit()[..0] == [];
    assert Text.Strip("Ana") == "Ana";
    assert start.history + [ASSIGNED] == [ASSIGNED];
    assert OrderEntity.Perform(start, FirstVisit()[0].0, FirstVisit()[0].1) ==
           Some(OrderEntity.Entity(EmDiagnostico, Some("Ana"), 0.0, [ASSIGNED]));
    assert History.PerformAll(start, FirstVisit()) == Some(OrderEntity.Entity(EmDiagnostico, Some("Ana"), 0.0, [ASSIGNED]));
    assert [ASSIGNED][..0] == [];
    assert History.Save([], 0, [ASSIGNED]) == History.Absorb(History.Saved([], []), 0, ASSIGNED);
    assert History.Measured([], 0, ASSIGNED) == AFTER_FIRST.saved.emitted;
  }

  lemma FirstVisitSound()
    ensures History.LifeSound(AFTER_FIRST, Recebida, 0)
  {
    assert [ASSIGNED][..0] == [];
    assert AFTER_FIRST.saved.emitted[..0] == [];
  }

  lemma TwoVisits(life: History.Life, first: seq<(OrderEntity.Action, OrderEntity.Stamp)>, second: seq<(OrderEntity.Action, OrderEntity.Stamp)>)
    ensures History.Run(life, 0, [first, second]) == History.Visit(History.Visit(life, 0, first), 0, second)
  {
    assert [first][..0] == [] && [first, second][..1] == [first];
    assert History.Run(life, 0, [first]) == History.Visit(History.Run(life, 0, [first][..0]), 0, first);
  }

  /** An order is given to a mechanic, and submitted for approval, under the same request id: it awaits approval, and
      its trail ends in diagnosis, with the second move neither on file nor reported. */
  lemma SecondRequestLost()
    ensures var life := History.Run(BIRTH, 0, [FirstVisit(), SecondVisit()]);
            && life.status == AguardandoAprovacao && life.saved == AFTER_FIRST.saved
            && !History.LifeSound(life, Recebida, 0)
  {
    TwoVisits(BIRTH, FirstVisit(), SecondVisit());
    FirstVisitDone();
    FirstVisitSound();
    SubmittedUnderTheSameId();
  }

  lemma SubmittedUnderTheSameId()
    requires History.LifeSound(AFTER_FIRST, Recebida, 0)
    ensures var life := History.Visit(AFTER_FIRST, 0, SecondVisit());
            && life.status == AguardandoAprovacao && life.saved == AFTER_FIRST.saved
            && !History.LifeSound(life, Recebida, 0)
  {
    assert AFTER_FIRST.saved.rows[0].requestId == ID;
    History.ReusedRequestLeavesNoTrace(AFTER_FIRST, Recebida, 0, OrderEntity.Submit, OrderEntity.Stamp(None, ID, 9_000));
  }
}
