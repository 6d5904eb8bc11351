/** Revision families, their one order and the vehicles, over every call and every run. */
module Families {
  import opened Schema
  import opened Inventory
  import opened Revisions
  import opened Workshop
  import opened Lifecycle

  /** No vehicle has two orders that are not delivered. */
  ghost predicate VehiclesSound(orders: seq<Order>) {
    forall x, y :: 0 <= x < y < |orders| && orders[x].vehicle == orders[y].vehicle ==>
      orders[x].status == Entregue || orders[y].status == Entregue
  }

  ghost predicate FamiliesSound(t: Tables) {
    TreeSound(t.budgets) && OneOrderPerFamily(t.budgets, t.orders) && VehiclesSound(t.orders)
  }

  // ---- the budget table ----

  /** The budgets that existed keep their links, numbers and vehicles. */
  ghost predicate LinksKept(budgets: seq<Budget>, budgets': seq<Budget>) {
    && |budgets| <= |budgets'|
    && forall b :: 0 <= b < |budgets| ==>
         && budgets'[b].supersedes == budgets[b].supersedes
         && budgets'[b].revision == budgets[b].revision
         && budgets'[b].vehicle == budgets[b].vehicle
  }

  lemma ReconcileBudgets(t: Tables, o: nat)
    requires Reconcile(t, o).Committed?
    ensures Reconcile(t, o).tables.budgets == t.budgets
  {
    if Waiting(t.orders[o].status) {
      ReallocateBudgets(t, o);
    }
  }

  lemma ReallocateBudgets(t: Tables, o: nat)
    requires o < |t.orders|
    ensures Reallocate(t, o).budgets == t.budgets
  {
    var lines := t.orders[o].products;
    AllocateKeepsBudgets(t.(reservations := Reservations.ReleaseExcept(t.reservations, o, Items(lines))), SortedItems(lines));
  }

  lemma {:induction false} AllocateKeepsBudgets(t: Tables, ps: seq<nat>)
    ensures AllocateProducts(t, ps).budgets == t.budgets
  {
    if ps != [] { AllocateKeepsBudgets(t, ps[..|ps| - 1]); }
  }

  lemma ApplyApprovedBudgets(t: Tables, b: nat, now: int)
    requires b < |t.budgets| && ApplyApproved(t, b, now).Committed?
    ensures ApplyApproved(t, b, now).tables.budgets == t.budgets
  {
    match FindOrder(t.budgets, t.orders, b)
    case None => ReconcileBudgets(t.(orders := t.orders + [NewOrder(t.budgets, b, now)]), |t.orders|);
    case Some(o) => ReconcileBudgets(t.(orders := t.orders[o := Revise(t.orders[o], t.budgets[b])]), o);
  }

  lemma RevisionKeepsTree(t: Tables, b: nat)
    requires TreeSound(t.budgets) && CreateRevision(t, b).Committed?
    ensures var budgets' := CreateRevision(t, b).tables.budgets;
            && TreeSound(budgets') && LinksKept(t.budgets, budgets') && |budgets'| == |t.budgets| + 1
            && RootOf(budgets', |t.budgets|) == RootOf(t.budgets, b)
            && forall x :: 0 <= x < |t.budgets| && RootOf(t.budgets, x) == RootOf(t.budgets, b) ==>
                 t.budgets[x].revision < budgets'[|t.budgets|].revision
  {
    RevisionTopsItsFamily(t, b);
    TreeGrows(t.budgets, CreateRevision(t, b).tables.budgets[|t.budgets|]);
  }

  /** What is appended follows a member of the family and has a number above all of it. */
  lemma RevisionTopsItsFamily(t: Tables, b: nat)
    requires CreateRevision(t, b).Committed?
    ensures var budgets' := CreateRevision(t, b).tables.budgets;
            && |budgets'| == |t.budgets| + 1 && budgets' == t.budgets + [budgets'[|t.budgets|]]
            && var new' := budgets'[|t.budgets|];
            && new'.supersedes.Some? && new'.supersedes.value < |t.budgets|
            && new'.vehicle == t.budgets[new'.supersedes.value].vehicle
            && RootOf(t.budgets, new'.supersedes.value) == RootOf(t.budgets, b)
            && forall x :: 0 <= x < |t.budgets| && RootOf(t.budgets, x) == RootOf(t.budgets, b) ==>
                 t.budgets[x].revision < new'.revision
  {
  }

  lemma TablesWithoutTree(t: Tables, step: Step)
    requires !step.StepCreateBudget? && !step.StepCreateRevision?
    ensures |Next(t, step).budgets| == |t.budgets| && LinksKept(t.budgets, Next(t, step).budgets)
  {
    if TouchesNoBudget(step) {
      QuietBudgets(t, step);
    } else if step.StepReconcile? || step.StepReceiveGoods? {
      StockCallBudgets(t, step);
    } else if step.StepApproveBudget? || step.StepDecideBudget? {
      DecisionBudgets(t, step);
    }
  }

  lemma StockCallBudgets(t: Tables, step: Step)
    requires step.StepReconcile? || step.StepReceiveGoods?
    ensures Next(t, step).budgets == t.budgets
  {
    if Call(t, step).Committed? {
      if step.StepReconcile? {
        ReconcileBudgets(t, step.order);
      } else if t.requests[step.request].order.Some? {
        ReconcileBudgets(GoodsIn(t, step.request, step.units), t.requests[step.request].order.value);
      }
    }
  }

  lemma DecisionBudgets(t: Tables, step: Step)
    requires step.StepApproveBudget? || step.StepDecideBudget?
    ensures |Next(t, step).budgets| == |t.budgets| && LinksKept(t.budgets, Next(t, step).budgets)
  {
    if Call(t, step).Committed? && !(step.StepDecideBudget? && (!step.approve || t.budgets[step.budget].used)) {
      ApplyApprovedBudgets(MarkDecided(t, step.budget, BudgetStatus.Approved), step.budget, step.now);
    }
  }

  predicate TouchesNoBudget(step: Step) {
    step.StepAddProduct? || step.StepAdjustStock? || step.StepRequestPurchase? || step.StepAssignMechanic? || step.StepStartService?
    || step.StepRequestWithdrawal? || step.StepFulfillWithdrawal? || step.StepFinishService? || step.StepCreateInvoice?
    || step.StepRecordPayment? || step.StepDeliverOrder?
  }

  lemma QuietBudgets(t: Tables, step: Step)
    requires TouchesNoBudget(step)
    ensures Next(t, step).budgets == t.budgets
  {
  }

  ghost predicate TreeStep(budgets: seq<Budget>, budgets': seq<Budget>) {
    TreeSound(budgets') && LinksKept(budgets, budgets')
  }

  /** Every call keeps the revision tree: numbers unique in a family and growing along every link. */
  lemma EveryCallKeepsTree(t: Tables, step: Step)
    requires TreeSound(t.budgets)
    ensures TreeStep(t.budgets, Next(t, step).budgets)
  {
    if step.StepCreateBudget? {
      CreationKeepsTree(t, step);
    } else if step.StepCreateRevision? {
      RevisionCallKeepsTree(t, step);
    } else {
      OtherCallKeepsTree(t, step);
    }
  }

  lemma CreationKeepsTree(t: Tables, step: Step)
    requires TreeSound(t.budgets) && step.StepCreateBudget?
    ensures TreeStep(t.budgets, Next(t, step).budgets)
  {
    TreeGrows(t.budgets, Next(t, step).budgets[|t.budgets|]);
  }

  lemma RevisionCallKeepsTree(t: Tables, step: Step)
    requires TreeSound(t.budgets) && step.StepCreateRevision?
    ensures TreeStep(t.budgets, Next(t, step).budgets)
  {
    if CreateRevision(t, step.budget).Committed? { RevisionKeepsTree(t, step.budget); }
  }

  lemma OtherCallKeepsTree(t: Tables, step: Step)
    requires TreeSound(t.budgets) && !step.StepCreateBudget? && !step.StepCreateRevision?
    ensures TreeStep(t.budgets, Next(t, step).budgets)
  {
    TablesWithoutTree(t, step);
    TreeKept(t.budgets, Next(t, step).budgets);
  }

  lemma TreeKept(budgets: seq<Budget>, budgets': seq<Budget>)
    requires TreeSound(budgets) && |budgets'| == |budgets| && LinksKept(budgets, budgets')
    ensures TreeSound(budgets')
  {
    TreeFrame(budgets, budgets');
  }

  // ---- the orders ----

  /** What of an order matters here: its family, its vehicle, and that a delivered order stays delivered. */
  ghost predicate OrdersKept(orders: seq<Order>, orders': seq<Order>) {
    && |orders| <= |orders'| <= |orders| + 1
    && forall x :: 0 <= x < |orders| ==>
         && orders'[x].budget == orders[x].budget && orders'[x].vehicle == orders[x].vehicle
         && (orders[x].status == Entregue ==> orders'[x].status == Entregue)
  }

  lemma StepsKeepOrders(orders: seq<Order>, orders': seq<Order>, breakGlass: bool)
    requires OrdersStep(orders, orders', breakGlass)
    ensures OrdersKept(orders, orders')
  {
  }

  /** Old orders as before and at most one new one, on a free family and a free vehicle: all sound. */
  lemma KeptFamilies(budgets: seq<Budget>, budgets': seq<Budget>, orders: seq<Order>, orders': seq<Order>)
    requires OneOrderPerFamily(budgets, orders) && VehiclesSound(orders)
    requires LinksKept(budgets, budgets') && OrdersKept(orders, orders')
    requires |orders'| > |orders| ==>
               var order := orders'[|orders|];
               && order.budget < |budgets'| && budgets'[order.budget].supersedes.None?
               && OrderOf(orders, order.budget).None?
               && !VehicleBusy(orders, order.vehicle)
    ensures OneOrderPerFamily(budgets', orders') && VehiclesSound(orders')
  {
  }

  /** A new order hangs on a family that had none and a vehicle that was free. */
  lemma NewOrderIsFree(t: Tables, b: nat, now: int)
    requires TreeSound(t.budgets) && OneOrderPerFamily(t.budgets, t.orders) && b < |t.budgets|
    requires ApplyApproved(t, b, now).Committed?
    ensures var orders' := ApplyApproved(t, b, now).tables.orders;
            && |t.orders| <= |orders'| <= |t.orders| + 1
            && (|orders'| > |t.orders| ==>
                  var order := orders'[|t.orders|];
                  && order.budget == RootOf(t.budgets, b) && order.vehicle == t.budgets[b].vehicle
                  && OrderOf(t.orders, RootOf(t.budgets, b)).None?
                  && !VehicleBusy(t.orders, order.vehicle))
  {
    SearchFindsFamilyOrder(t.budgets, t.orders, b);
    match FindOrder(t.budgets, t.orders, b)
    case None => ReconcileSteps(t.(orders := t.orders + [NewOrder(t.budgets, b, now)]), |t.orders|);
    case Some(o) => ReconcileSteps(t.(orders := t.orders[o := Revise(t.orders[o], t.budgets[b])]), o);
  }

  lemma ApprovalKeepsFamilies(t: Tables, b: nat, now: int)
    requires FamiliesSound(t) && b < |t.budgets|
    requires ApplyApproved(MarkDecided(t, b, BudgetStatus.Approved), b, now).Committed?
    ensures FamiliesSound(ApplyApproved(MarkDecided(t, b, BudgetStatus.Approved), b, now).tables)
  {
    var t1 := MarkDecided(t, b, BudgetStatus.Approved);
    var t' := ApplyApproved(t1, b, now).tables;
    TreeFrame(t.budgets, t1.budgets);
    ApplyApprovedBudgets(t1, b, now);
    ApplyApprovedSteps(t1, b, now);
    NewOrderIsFree(t1, b, now);
    RootIsOriginal(t1.budgets, b);
    StepsKeepOrders(t.orders, t'.orders, false);
    KeptFamilies(t.budgets, t1.budgets, t.orders, t'.orders);
  }

  lemma NoNewOrder(t: Tables, step: Step)
    requires !step.StepApproveBudget? && !step.StepDecideBudget?
    ensures |Next(t, step).orders| == |t.orders|
  {
    if TouchesNoOrder(step) {
      QuietOrders(t, step);
    } else if Call(t, step).Committed? {
      match step
      case StepReconcile(o) => ReconcileSteps(t, o);
      case StepReceiveGoods(r, units) =>
        if t.requests[r].order.Some? { ReconcileSteps(GoodsIn(t, r, units), t.requests[r].order.value); }
      case _ =>
    }
  }

  lemma RejectionAddsNoOrder(t: Tables, b: nat, approve: bool, now: int)
    requires DecideBudget(t, b, approve, now).Committed? && (!approve || t.budgets[b].used)
    ensures |DecideBudget(t, b, approve, now).tables.orders| == |t.orders|
  {
  }

  lemma QuietCallKeepsFamilies(t: Tables, step: Step)
    requires FamiliesSound(t) && |Next(t, step).orders| == |t.orders|
    ensures FamiliesSound(Next(t, step))
  {
    EveryCallKeepsTree(t, step);
    EveryCallStepsOrders(t, step);
    StepsKeepOrders(t.orders, Next(t, step).orders, step.StepOverrideStatus?);
    KeptFamilies(t.budgets, Next(t, step).budgets, t.orders, Next(t, step).orders);
  }

  lemma EveryCallKeepsFamilies(t: Tables, step: Step)
    requires FamiliesSound(t)
    ensures FamiliesSound(Next(t, step))
  {
    if Call(t, step).Committed? {
      match step
      case StepApproveBudget(b, now) => ApprovalKeepsFamilies(t, b, now);
      case StepDecideBudget(b, approve, now) =>
        if approve && !t.budgets[b].used {
          ApprovalKeepsFamilies(t, b, now);
        } else {
          RejectionAddsNoOrder(t, b, approve, now);
          QuietCallKeepsFamilies(t, step);
        }
      case _ =>
        NoNewOrder(t, step);
        QuietCallKeepsFamilies(t, step);
    }
  }

  /** In every reachable state: at most one order per revision family, hanging on its root; at most one
      undelivered order per vehicle; revision numbers unique in a family and growing along links. */
  lemma {:induction false} EveryRunKeepsFamilies(steps: seq<Step>)
    ensures FamiliesSound(Run(Empty, steps))
  {
    if steps != [] {
      EveryRunKeepsFamilies(steps[..|steps| - 1]);
      EveryCallKeepsFamilies(Run(Empty, steps[..|steps| - 1]), steps[|steps| - 1]);
    }
  }

  /** In every reachable state, all revisions of a family lead to the same order, which is the only one of the family. */
  lemma RevisionsShareTheirOrder(steps: seq<Step>, b: nat, c: nat)
    requires b < |Run(Empty, steps).budgets| && c < |Run(Empty, steps).budgets|
    requires RootOf(Run(Empty, steps).budgets, b) == RootOf(Run(Empty, steps).budgets, c)
    ensures var t := Run(Empty, steps);
            && FindOrder(t.budgets, t.orders, b) == FindOrder(t.budgets, t.orders, c)
            && forall x :: 0 <= x < |t.orders| && RootOf(t.budgets, t.orders[x].budget) == RootOf(t.budgets, b) ==>
                 FindOrder(t.budgets, t.orders, b) == Some(x)
  {
    EveryRunKeepsFamilies(steps);
    FamilyOrder(Run(Empty, steps), b, c);
  }

  lemma FamilyOrder(t: Tables, b: nat, c: nat)
    requires FamiliesSound(t) && b < |t.budgets| && c < |t.budgets| && RootOf(t.budgets, b) == RootOf(t.budgets, c)
    ensures FindOrder(t.budgets, t.orders, b) == FindOrder(t.budgets, t.orders, c)
    ensures forall x :: 0 <= x < |t.orders| && RootOf(t.budgets, t.orders[x].budget) == RootOf(t.budgets, b) ==>
              FindOrder(t.budgets, t.orders, b) == Some(x)
  {
  }
}
