/** What becomes of a budget: sent, decided, revised or superseded, over every call and every run. */
module Decisions {
  import opened Schema
  import opened Reservations
  import opened Purchases
  import opened Inventory
  import opened Revisions
  import opened Workshop
  import opened Lifecycle
  import opened Families
  import opened Text

  // ---- the life of a budget ----

  /** The moves of a budget: a draft is sent; a sent budget is approved, rejected or superseded; nothing else. */
  predicate BudgetMove(s: BudgetStatus, s': BudgetStatus) {
    s == s'
    || (s == Draft && s' == BudgetStatus.Sent)
    || (s == BudgetStatus.Sent && (s' == BudgetStatus.Approved || s' == BudgetStatus.Rejected || s' == Superseded))
  }

  /** What one call may do to a budget: one move; its lines and total change only while it is a draft. */
  ghost predicate BudgetStep(b: Budget, b': Budget) {
    && b'.vehicle == b.vehicle && b'.revision == b.revision && b'.supersedes == b.supersedes
    && BudgetMove(b.status, b'.status)
    && (b'.services != b.services || b'.products != b.products || b'.total != b.total ==> b.status == Draft && b'.status == Draft)
  }

  predicate Decided(s: BudgetStatus) {
    s == BudgetStatus.Approved || s == BudgetStatus.Rejected
  }

  /** A link is used up exactly when its budget has been decided; every revision follows an approved budget. */
  ghost predicate DecisionsSound(budgets: seq<Budget>) {
    && (forall b :: 0 <= b < |budgets| ==> (budgets[b].used <==> Decided(budgets[b].status)))
    && (forall b: nat, s: nat :: Linked(budgets, b, s) ==> budgets[s].status == BudgetStatus.Approved)
  }

  ghost predicate BudgetsStep(budgets: seq<Budget>, budgets': seq<Budget>) {
    && |budgets| <= |budgets'|
    && (forall b :: 0 <= b < |budgets| ==> BudgetStep(budgets[b], budgets'[b]))
    && (forall b :: |budgets| <= b < |budgets'| ==> budgets'[b].status == Draft && !budgets'[b].used)
  }

  ghost predicate BudgetsKept(budgets: seq<Budget>, budgets': seq<Budget>) {
    BudgetsStep(budgets, budgets') && (DecisionsSound(budgets) && Rooted(budgets) ==> DecisionsSound(budgets'))
  }

  /** One budget replaced by a step of it, with its link used up exactly when it is decided. */
  lemma OneBudgetKept(budgets: seq<Budget>, b: nat, budget: Budget)
    requires b < |budgets| && BudgetStep(budgets[b], budget)
    requires (budgets[b].used <==> Decided(budgets[b].status)) ==> (budget.used <==> Decided(budget.status))
    ensures BudgetsKept(budgets, budgets[b := budget])
  {
    var budgets' := budgets[b := budget];
    forall c: nat, s: nat | DecisionsSound(budgets) && Linked(budgets', c, s) ensures budgets'[s].status == BudgetStatus.Approved {
      assert Linked(budgets, c, s);
    }
  }

  lemma NoBudgetChanged(budgets: seq<Budget>)
    ensures BudgetsKept(budgets, budgets)
  {
  }

  /** A new draft that follows nothing, or an approved budget. */
  lemma OneMoreBudget(budgets: seq<Budget>, budget: Budget)
    requires budget.status == Draft && !budget.used
    requires budget.supersedes.Some? ==> budget.supersedes.value < |budgets| && budgets[budget.supersedes.value].status == BudgetStatus.Approved
    ensures BudgetsKept(budgets, budgets + [budget])
  {
    var budgets' := budgets + [budget];
    forall c: nat, s: nat | DecisionsSound(budgets) && Rooted(budgets) && Linked(budgets', c, s) ensures budgets'[s].status == BudgetStatus.Approved {
      if c < |budgets| { assert Linked(budgets, c, s); }
    }
  }

  // ---- what a decision files ----

  lemma ApprovalFiles(t: Tables, b: nat, now: int)
    requires b < |t.budgets| && ApplyApproved(MarkDecided(t, b, BudgetStatus.Approved), b, now).Committed?
    ensures ApplyApproved(MarkDecided(t, b, BudgetStatus.Approved), b, now).tables.budgets ==
            t.budgets[b := t.budgets[b].(status := BudgetStatus.Approved, used := true)]
  {
    ApplyApprovedBudgets(MarkDecided(t, b, BudgetStatus.Approved), b, now);
  }

  /** The one budget a committed decision touches is filed with exactly the status decided, and its link is used up. */
  lemma DecisionIsFiled(t: Tables, b: nat, approve: bool, now: int)
    requires DecideBudget(t, b, approve, now).Committed? && !t.budgets[b].used
    ensures DecideBudget(t, b, approve, now).tables.budgets ==
            t.budgets[b := t.budgets[b].(status := if approve then BudgetStatus.Approved else BudgetStatus.Rejected, used := true)]
  {
    if approve { ApprovalFiles(t, b, now); }
  }

  /** The same of an approval by staff. */
  lemma StaffApprovalIsFiled(t: Tables, b: nat, now: int)
    requires ApproveBudget(t, b, now).Committed?
    ensures ApproveBudget(t, b, now).tables.budgets == t.budgets[b := t.budgets[b].(status := BudgetStatus.Approved, used := true)]
  {
    ApprovalFiles(t, b, now);
  }

  /** Whether the order side of an approval is possible: the family's order may still be rewritten, or there is none and
      the vehicle has no order that is not delivered. */
  ghost predicate OrderMayFollow(t: Tables, b: nat)
    requires b < |t.budgets|
  {
    match FindOrder(t.budgets, t.orders, b)
    case Some(o) => t.orders[o].status == AguardandoAprovacao || Waiting(t.orders[o].status)
    case None => forall x :: 0 <= x < |t.orders| && t.orders[x].vehicle == t.budgets[b].vehicle ==> t.orders[x].status == Entregue
  }

  lemma ApplyApprovedIff(t: Tables, b: nat, now: int)
    requires b < |t.budgets|
    ensures ApplyApproved(MarkDecided(t, b, BudgetStatus.Approved), b, now).Committed? <==> OrderMayFollow(t, b)
  {
    var t1 := MarkDecided(t, b, BudgetStatus.Approved);
    SearchFrame(t.budgets, t1.budgets, t.orders, b);
  }

  /** When a customer's decision on a fresh link goes through: the link is alive, the budget awaits a decision, and the
      order can follow; an approval also needs lines, a rejection needs the order, if any, to await approval. */
  lemma FreshDecisionIff(t: Tables, b: nat, approve: bool, now: int)
    requires b < |t.budgets| && !t.budgets[b].used
    ensures var budget := t.budgets[b];
            DecideBudget(t, b, approve, now).Committed? <==>
              && budget.status == BudgetStatus.Sent && budget.expires.Some? && now < budget.expires.value
              && if approve then (budget.services != [] || budget.products != []) && OrderMayFollow(t, b)
                 else var found := FindOrder(t.budgets, t.orders, b);
                      found.None? || t.orders[found.value].status == AguardandoAprovacao
  {
    if approve {
      ApplyApprovedIff(t, b, now);
    } else {
      SearchFrame(t.budgets, MarkDecided(t, b, BudgetStatus.Rejected).budgets, t.orders, b);
    }
  }

  /** Staff approval needs no link: a sent, undecided budget with lines whose order can follow. */
  lemma StaffApprovalIff(t: Tables, b: nat, now: int)
    ensures ApproveBudget(t, b, now).Committed? <==>
            && b < |t.budgets| && t.budgets[b].status == BudgetStatus.Sent && !t.budgets[b].used
            && (t.budgets[b].services != [] || t.budgets[b].products != []) && OrderMayFollow(t, b)
  {
    if b < |t.budgets| { ApplyApprovedIff(t, b, now); }
  }

  /** A link presented again is answered without a change for the same decision, and refused for the other. */
  lemma UsedLinkAnswers(t: Tables, b: nat, approve: bool, now: int)
    requires b < |t.budgets| && t.budgets[b].used
    ensures DecideBudget(t, b, approve, now) ==
            if t.budgets[b].status == (if approve then BudgetStatus.Approved else BudgetStatus.Rejected)
            then Committed(t) else RolledBack(Invalid)
  {
  }

  // ---- every call, every run ----

  lemma SendingSteps(t: Tables, b: nat, expires: int)
    requires SendBudget(t, b, expires).Committed?
    ensures SendBudget(t, b, expires).tables.budgets ==
            t.budgets[b := t.budgets[b].(status := BudgetStatus.Sent, expires := Some(expires), used := false)]
  {
  }

  lemma OverrideBudgets(t: Tables, o: nat, s: OrderStatus, reason: string)
    requires OverrideStatus(t, o, s, reason).Committed?
    ensures BudgetsKept(t.budgets, OverrideStatus(t, o, s, reason).tables.budgets)
  {
    var pending := Latest(t.budgets, RootOf(t.budgets, t.orders[o].budget), BudgetStatus.Sent, |t.budgets|);
    if t.orders[o].status == AguardandoAprovacao && pending.Some? {
      OneBudgetKept(t.budgets, pending.value, t.budgets[pending.value].(status := Superseded, expires := None));
    } else {
      NoBudgetChanged(t.budgets);
    }
  }

  lemma DecisionBudgetsKept(t: Tables, step: Step)
    requires step.StepApproveBudget? || step.StepDecideBudget?
    ensures BudgetsKept(t.budgets, Next(t, step).budgets)
  {
    if !Call(t, step).Committed? || (step.StepDecideBudget? && t.budgets[step.budget].used) {
      NoBudgetChanged(t.budgets);
    } else if step.StepApproveBudget? {
      StaffApprovalIsFiled(t, step.budget, step.now);
      OneBudgetKept(t.budgets, step.budget, Next(t, step).budgets[step.budget]);
    } else {
      DecisionIsFiled(t, step.budget, step.approve, step.now);
      OneBudgetKept(t.budgets, step.budget, Next(t, step).budgets[step.budget]);
    }
  }

  lemma DraftCallKept(t: Tables, step: Step)
    requires step.StepCreateBudget? || step.StepEditBudget? || step.StepCreateRevision?
    ensures BudgetsKept(t.budgets, Next(t, step).budgets)
  {
    if !Call(t, step).Committed? {
      NoBudgetChanged(t.budgets);
    } else if step.StepEditBudget? {
      OneBudgetKept(t.budgets, step.budget, Next(t, step).budgets[step.budget]);
    } else {
      OneMoreBudget(t.budgets, Next(t, step).budgets[|t.budgets|]);
    }
  }

  /** Every call takes every budget at most one move along its life, changes lines and totals of drafts only, and keeps
      it true that links are used up by decisions and that revisions follow approved budgets. */
  lemma EveryCallStepsBudgets(t: Tables, step: Step)
    ensures BudgetsKept(t.budgets, Next(t, step).budgets)
  {
    if TouchesNoBudget(step) {
      QuietBudgets(t, step);
      NoBudgetChanged(t.budgets);
    } else if step.StepReconcile? || step.StepReceiveGoods? {
      StockCallBudgets(t, step);
      NoBudgetChanged(t.budgets);
    } else if step.StepApproveBudget? || step.StepDecideBudget? {
      DecisionBudgetsKept(t, step);
    } else if step.StepSendBudget? || step.StepOverrideStatus? {
      StatusCallKept(t, step);
    } else {
      DraftCallKept(t, step);
    }
  }

  lemma StatusCallKept(t: Tables, step: Step)
    requires step.StepSendBudget? || step.StepOverrideStatus?
    ensures BudgetsKept(t.budgets, Next(t, step).budgets)
  {
    if !Call(t, step).Committed? {
      NoBudgetChanged(t.budgets);
    } else if step.StepSendBudget? {
      SendingSteps(t, step.budget, step.expires);
      OneBudgetKept(t.budgets, step.budget, Next(t, step).budgets[step.budget]);
    } else {
      OverrideBudgets(t, step.order, step.status, step.reason);
    }
  }

  lemma {:induction false} EveryRunKeepsDecisions(steps: seq<Step>)
    ensures DecisionsSound(Run(Empty, steps).budgets)
  {
    if steps != [] {
      var t := Run(Empty, steps[..|steps| - 1]);
      EveryRunKeepsDecisions(steps[..|steps| - 1]);
      EveryRunKeepsFamilies(steps[..|steps| - 1]);
      EveryCallStepsBudgets(t, steps[|steps| - 1]);
    }
  }

  /** A decided or superseded budget keeps its status, its lines and its total in every later run. */
  lemma {:induction false} DecidedForGood(t: Tables, steps: seq<Step>, b: nat)
    requires b < |t.budgets| && t.budgets[b].status != Draft && t.budgets[b].status != BudgetStatus.Sent
    ensures var budgets' := Run(t, steps).budgets;
            && b < |budgets'| && budgets'[b].status == t.budgets[b].status && budgets'[b].total == t.budgets[b].total
            && budgets'[b].services == t.budgets[b].services && budgets'[b].products == t.budgets[b].products
  {
    if steps != [] {
      DecidedForGood(t, steps[..|steps| - 1], b);
      EveryCallStepsBudgets(Run(t, steps[..|steps| - 1]), steps[|steps| - 1]);
    }
  }

  /** In every reachable state: a rejected budget has never been, and will never become, approved; no revision was ever
      cloned from it; and its link, whenever it is presented again, is answered for a rejection and refused for an approval. */
  lemma RejectedForGood(steps: seq<Step>, later: seq<Step>, b: nat, now: int)
    requires b < |Run(Empty, steps).budgets| && Run(Empty, steps).budgets[b].status == BudgetStatus.Rejected
    ensures var t := Run(Empty, steps + later);
            && b < |t.budgets| && t.budgets[b].status == BudgetStatus.Rejected
            && (forall c :: 0 <= c < |t.budgets| ==> t.budgets[c].supersedes != Some(b))
            && DecideBudget(t, b, false, now) == Committed(t) && DecideBudget(t, b, true, now) == RolledBack(Invalid)
  {
    var t := Run(Empty, steps + later);
    RunThen(Empty, steps, later);
    DecidedForGood(Run(Empty, steps), later, b);
    EveryRunKeepsDecisions(steps + later);
    EveryRunKeepsFamilies(steps + later);
    forall c: nat | c < |t.budgets| ensures t.budgets[c].supersedes != Some(b) {
      if t.budgets[c].supersedes == Some(b) { assert Linked(t.budgets, c, b); }
    }
    UsedLinkAnswers(t, b, false, now);
    UsedLinkAnswers(t, b, true, now);
  }

  /** A budget's lines and total are edited exactly while it is a draft, and only to products that exist; a new budget is an
      empty draft, the first of its family. */
  lemma DraftingDoes(t: Tables, b: nat, services: seq<Line>, products: seq<Line>, total: real, vehicle: nat)
    ensures EditBudget(t, b, services, products, total).Committed? <==>
            b < |t.budgets| && t.budgets[b].status == Draft && forall p :: p in Items(products) ==> p < |t.stock|
    ensures EditBudget(t, b, services, products, total).Committed? ==>
              EditBudget(t, b, services, products, total).tables ==
              t.(budgets := t.budgets[b := t.budgets[b].(services := services, products := products, total := total)])
    ensures CreateBudget(t, vehicle).Committed?
    ensures var t' := CreateBudget(t, vehicle).tables;
            && t' == t.(budgets := t'.budgets) && |t'.budgets| == |t.budgets| + 1 && t'.budgets[..|t.budgets|] == t.budgets
            && var draft := t'.budgets[|t.budgets|];
            && draft.vehicle == vehicle && draft.status == Draft && draft.total == 0.0 && draft.services == [] && draft.products == []
            && draft.supersedes.None? && !draft.used && RootOf(t'.budgets, |t.budgets|) == |t.budgets|
  {
    assert forall k :: 0 <= k < |products| ==> products[k].item in Items(products);
  }

  // ---- what the calls do to the order ----

  /** A budget can be sent exactly while it is a draft or its sent link has not been used. */
  lemma SendingIff(t: Tables, b: nat, expires: int)
    ensures SendBudget(t, b, expires).Committed? <==>
            b < |t.budgets| && (t.budgets[b].status == Draft || (t.budgets[b].status == BudgetStatus.Sent && !t.budgets[b].used))
  {
  }

  /** The order o gives up everything it holds and has on order; all other orders keep everything. */
  ghost predicate GivenUp(t: Tables, t': Tables, o: nat) {
    forall x, p ::
      && Qty(t'.reservations, x, p) == (if x == o then 0 else Qty(t.reservations, x, p))
      && OnOrder(t'.requests, x, p) == (if x == o then 0 else OnOrder(t.requests, x, p))
  }

  lemma ReleasedGivesUp(t: Tables, t': Tables, o: nat)
    requires t'.reservations == ReleaseExcept(t.reservations, o, {}) && t'.requests == CancelAll(t.requests, o)
    ensures GivenUp(t, t', o)
  {
    ReleaseEffect(t.reservations, o, {});
    forall x: nat, p: nat
      ensures Qty(t'.reservations, x, p) == (if x == o then 0 else Qty(t.reservations, x, p))
      ensures OnOrder(t'.requests, x, p) == (if x == o then 0 else OnOrder(t.requests, x, p))
    {
      CancelAllUnits(t.requests, o, x, p);
    }
  }

  /** Sending files the budget as sent with its new expiry; the family's order, if there is one, moves on from diagnosis
      to approval, and gives up what it holds and has on order, whatever its status. */
  lemma SendingDoes(t: Tables, b: nat, expires: int)
    requires SendBudget(t, b, expires).Committed?
    ensures var t' := SendBudget(t, b, expires).tables;
            && t'.budgets == t.budgets[b := t.budgets[b].(status := BudgetStatus.Sent, expires := Some(expires), used := false)]
            && match FindOrder(t.budgets, t.orders, b)
               case None => t' == t.(budgets := t'.budgets)
               case Some(o) =>
                 && t'.orders == t.orders[o := t.orders[o].(
                      status := if t.orders[o].status == EmDiagnostico then AguardandoAprovacao else t.orders[o].status)]
                 && t' == t.(budgets := t'.budgets, orders := t'.orders, reservations := t'.reservations, requests := t'.requests)
                 && GivenUp(t, t', o)
  {
    var t' := SendBudget(t, b, expires).tables;
    var found := FindOrder(t.budgets, t.orders, b);
    SearchFrame(t.budgets, MarkSent(t, b, expires).budgets, t.orders, b);
    if found.Some? { ReleasedGivesUp(t, t', found.value); }
  }

  /** A rejection sends the family's order, if there is one, back to diagnosis, where it holds nothing and has nothing on order. */
  lemma RejectionDoes(t: Tables, b: nat, now: int)
    requires DecideBudget(t, b, false, now).Committed? && !t.budgets[b].used
    ensures var t' := DecideBudget(t, b, false, now).tables;
            match FindOrder(t.budgets, t.orders, b)
            case None => t' == t.(budgets := t'.budgets)
            case Some(o) =>
              && t'.orders == t.orders[o := t.orders[o].(status := EmDiagnostico)]
              && t' == t.(budgets := t'.budgets, orders := t'.orders, reservations := t'.reservations, requests := t'.requests)
              && GivenUp(t, t', o)
  {
    var t' := DecideBudget(t, b, false, now).tables;
    var found := FindOrder(t.budgets, t.orders, b);
    SearchFrame(t.budgets, MarkDecided(t, b, BudgetStatus.Rejected).budgets, t.orders, b);
    if found.Some? { ReleasedGivesUp(t, t', found.value); }
  }

  /** The scope of order x is that of the budget, and x waits. */
  predicate HasScope(orders: seq<Order>, x: nat, budget: Budget) {
    && x < |orders| && Waiting(orders[x].status)
    && orders[x].services == budget.services && orders[x].products == budget.products && orders[x].total == budget.total
  }

  /** An approval gives the budget's scope to the family's order, which then waits, or opens an order with it on the root
      of the family and for the budget's vehicle; other orders change at most between the two waiting statuses. */
  lemma ApprovalDoes(t: Tables, b: nat, now: int)
    requires b < |t.budgets| && ApplyApproved(MarkDecided(t, b, BudgetStatus.Approved), b, now).Committed?
    ensures var orders' := ApplyApproved(MarkDecided(t, b, BudgetStatus.Approved), b, now).tables.orders;
            var found := FindOrder(t.budgets, t.orders, b);
            var x := if found.Some? then found.value else |t.orders|;
            && |orders'| == |t.orders| + (if found.Some? then 0 else 1)
            && HasScope(orders', x, t.budgets[b])
            && (found.None? ==> orders'[x].budget == RootOf(t.budgets, b) && orders'[x].vehicle == t.budgets[b].vehicle
                                && orders'[x].mechanic.None? && orders'[x].createdAt == now)
            && (found.Some? ==> orders'[x].budget == t.orders[x].budget && orders'[x].vehicle == t.orders[x].vehicle
                                && orders'[x].mechanic == t.orders[x].mechanic && orders'[x].createdAt == t.orders[x].createdAt)
            && forall y :: 0 <= y < |t.orders| && y != x ==>
                 && orders'[y] == t.orders[y].(status := orders'[y].status)
                 && (orders'[y].status != t.orders[y].status ==> Waiting(t.orders[y].status) && Waiting(orders'[y].status))
  {
    var t1 := MarkDecided(t, b, BudgetStatus.Approved);
    SearchFrame(t.budgets, t1.budgets, t.orders, b);
    match FindOrder(t1.budgets, t1.orders, b)
    case None =>
      RootFrame(t.budgets, t1.budgets, b);
      ReconcileSteps(t1.(orders := t1.orders + [NewOrder(t1.budgets, b, now)]), |t1.orders|);
    case Some(o) =>
      ReconcileSteps(t1.(orders := t1.orders[o := Revise(t1.orders[o], t1.budgets[b])]), o);
  }

  // ---- revisions and overrides ----

  /** c is in the family of b with this status, and no member with this status has a higher number. */
  ghost predicate TopOfFamily(budgets: seq<Budget>, b: nat, c: nat, status: BudgetStatus) {
    && c < |budgets| && RootOf(budgets, c) == RootOf(budgets, b) && budgets[c].status == status
    && forall x :: 0 <= x < |budgets| && RootOf(budgets, x) == RootOf(budgets, b) && budgets[x].status == status ==>
         budgets[x].revision <= budgets[c].revision
  }

  ghost predicate HasMember(budgets: seq<Budget>, b: nat, status: BudgetStatus) {
    exists x :: 0 <= x < |budgets| && RootOf(budgets, x) == RootOf(budgets, b) && budgets[x].status == status
  }

  lemma LatestIsTop(budgets: seq<Budget>, b: nat, status: BudgetStatus)
    ensures var found := Latest(budgets, RootOf(budgets, b), status, |budgets|);
            (found.Some? <==> HasMember(budgets, b, status)) && (found.Some? ==> TopOfFamily(budgets, b, found.value, status))
  {
  }

  /** A revision can be made exactly of a family with an approved member; it is an unsent, undecided copy of the approved
      member with the highest number, which it follows, and its own number is the next after all of the family's. */
  lemma RevisionDoes(t: Tables, b: nat)
    ensures CreateRevision(t, b).Committed? <==> b < |t.budgets| && HasMember(t.budgets, b, BudgetStatus.Approved)
    ensures CreateRevision(t, b).Committed? ==>
              var t' := CreateRevision(t, b).tables;
              && t' == t.(budgets := t'.budgets) && |t'.budgets| == |t.budgets| + 1 && t'.budgets[..|t.budgets|] == t.budgets
              && var draft := t'.budgets[|t.budgets|];
              && draft.supersedes.Some? && TopOfFamily(t.budgets, b, draft.supersedes.value, BudgetStatus.Approved)
              && draft == t.budgets[draft.supersedes.value].(
                   status := Draft, revision := draft.revision, supersedes := draft.supersedes, used := false, expires := None)
              && (forall x :: 0 <= x < |t.budgets| && RootOf(t.budgets, x) == RootOf(t.budgets, b) ==> t.budgets[x].revision < draft.revision)
              && exists x :: 0 <= x < |t.budgets| && RootOf(t.budgets, x) == RootOf(t.budgets, b) && t.budgets[x].revision + 1 == draft.revision
  {
    if b < |t.budgets| {
      LatestIsTop(t.budgets, b, BudgetStatus.Approved);
      var source := Latest(t.budgets, RootOf(t.budgets, b), BudgetStatus.Approved, |t.budgets|);
      if source.Some? { HighestIsReached(t.budgets, RootOf(t.budgets, b), t.budgets[source.value].revision, |t.budgets|); }
    }
  }

  predicate Correctable(s: OrderStatus) {
    s == Recebida || s == EmDiagnostico || s == AguardandoAprovacao || s == AguardandoInicio || s == AguardandoCompra
  }

  /** The override needs a reason and two different correctable statuses. It sets the status of its order and nothing else,
      except that leaving "awaiting approval" supersedes the sent member of the family with the highest number, if any. */
  lemma OverrideDoes(t: Tables, o: nat, s: OrderStatus, reason: string)
    ensures OverrideStatus(t, o, s, reason).Committed? <==>
            && o < |t.orders| && Strip(reason) != "" && t.orders[o].status != s
            && Correctable(t.orders[o].status) && Correctable(s)
    ensures OverrideStatus(t, o, s, reason).Committed? ==>
              var t' := OverrideStatus(t, o, s, reason).tables;
              && t' == t.(orders := t.orders[o := t.orders[o].(status := s)], budgets := t'.budgets)
              && if t.orders[o].status == AguardandoAprovacao && HasMember(t.budgets, t.orders[o].budget, BudgetStatus.Sent)
                 then exists c: nat :: TopOfFamily(t.budgets, t.orders[o].budget, c, BudgetStatus.Sent)
                               && t'.budgets == t.budgets[c := t.budgets[c].(status := Superseded, expires := None)]
                 else t'.budgets == t.budgets
  {
    if o < |t.orders| { LatestIsTop(t.budgets, t.orders[o].budget, BudgetStatus.Sent); }
  }
}
