/** The service order as an object: guarded moves, each leaving an entry in its history. */
module OrderEntity {
  import opened Schema
  import opened Reservations
  import opened Inventory
  import opened Workshop
  import opened Text

  /** The audited kinds of entry; `Unlisted` is any other text a row may hold. */
  datatype Kind =
    | BreakGlassOverride
    | BudgetApproved
    | BudgetRejected
    | BudgetSubmitted
    | OrderDelivered
    | ExecutionFinished
    | ExecutionStarted
    | InventoryReconciled
    | InventoryShortage
    | MechanicAssignment
    | WorkflowMove
    | MechanicReassignment
    | ExecutionQueued
    | Unlisted(name: string)

  /** One entry of the audit trail; times are in microseconds. */
  datatype Entry = Entry(
    from: OrderStatus,
    to: OrderStatus,
    kind: Kind,
    reason: Option<string>,
    actor: Option<int>,
    requestId: Option<string>,
    at: int)

  /** Who acts, in which request, when. */
  datatype Stamp = Stamp(actor: Option<int>, requestId: Option<string>, at: int)

  datatype Entity = Entity(status: OrderStatus, mechanic: Option<string>, total: real, history: seq<Entry>)

  datatype Action =
    | Transition(to: OrderStatus)
    | Assign(name: string, reason: string)
    | Submit
    | Approve
    | ApplyRevision(total: real)
    | Enqueue
    | WaitForPurchase
    | ReadyToStart
    | ReturnToDiagnosis
    | Start
    | Finish
    | Deliver
    | Override(status: OrderStatus, reason: string)

  predicate Real(e: Entry) {
    e.from != e.to
  }

  /** The kinds of move whose duration is measured. */
  predicate Tracked(kind: Kind) {
    !kind.MechanicReassignment? && !kind.ExecutionQueued? && !kind.Unlisted?
  }

  function Append(e: Entity, to: OrderStatus, kind: Kind, reason: Option<string>, stamp: Stamp): Entity {
    e.(status := to, history := e.history + [Entry(e.status, to, kind, reason, stamp.actor, stamp.requestId, stamp.at)])
  }

  /** One edge of the matrix. */
  function Move(e: Entity, to: OrderStatus, kind: Kind, stamp: Stamp): Option<Entity> {
    if to == e.status || !Allowed(e.status, to) then None else Some(Append(e, to, kind, None, stamp))
  }

  function AssignTo(e: Entity, text: string, why: string, stamp: Stamp): Option<Entity> {
    var name, reason := Strip(text), Strip(why);
    if name == "" then None
    else if e.mechanic.None? then
      if e.status == Recebida then Move(e.(mechanic := Some(name)), EmDiagnostico, MechanicAssignment, stamp)
      else if Waiting(e.status) then Some(Append(e.(mechanic := Some(name)), e.status, MechanicAssignment, None, stamp))
      else None
    else if name == e.mechanic.value then Some(e)
    else if Closed(e.status) || reason == "" then None
    else Some(Append(e.(mechanic := Some(name)), e.status, MechanicReassignment, Some(reason), stamp))
  }

  /** The order after an action, or nothing when the action is refused. */
  function Perform(e: Entity, action: Action, stamp: Stamp): Option<Entity> {
    match action
    case Transition(to) => Move(e, to, WorkflowMove, stamp)
    case Assign(name, reason) => AssignTo(e, name, reason, stamp)
    case Submit => Move(e, AguardandoAprovacao, BudgetSubmitted, stamp)
    case Approve => Move(e, AguardandoInicio, BudgetApproved, stamp)
    case ApplyRevision(total) =>
      if !Revisable(e.status) then None
      else if e.status == AguardandoAprovacao then Some(Append(e, AguardandoInicio, BudgetApproved, None, stamp).(total := total))
      else Some(e.(total := total))
    case Enqueue =>
      if e.status != AguardandoInicio then None else Some(Append(e, e.status, ExecutionQueued, None, stamp))
    case WaitForPurchase =>
      if e.status != AguardandoInicio then None else Move(e, AguardandoCompra, InventoryShortage, stamp)
    case ReadyToStart =>
      if e.status != AguardandoCompra then None else Move(e, AguardandoInicio, InventoryReconciled, stamp)
    case ReturnToDiagnosis =>
      if e.status != AguardandoAprovacao then None else Move(e, EmDiagnostico, BudgetRejected, stamp)
    case Start =>
      if e.status != AguardandoInicio || e.mechanic.None? then None else Move(e, EmExecucao, ExecutionStarted, stamp)
    case Finish => Move(e, Finalizada, ExecutionFinished, stamp)
    case Deliver =>
      if e.status != Finalizada then None else Move(e, Entregue, OrderDelivered, stamp)
    case Override(status, reason) =>
      if Strip(reason) == "" || !BreakGlass(e.status) || !BreakGlass(status) || status == e.status then None
      else Some(Append(e, status, BreakGlassOverride, Some(Strip(reason)), stamp))
  }

  /** Whatever is done, the history only grows, by at most one entry: it leads from the old status to the new one,
      carries the stamp, is of a measured kind when it moves the order, and along the matrix unless it is an
      override. Without an entry the status stays. */
  lemma PerformLeavesATrace(e: Entity, action: Action, stamp: Stamp)
    requires Perform(e, action, stamp).Some?
    ensures var e' := Perform(e, action, stamp).value;
            if e'.history == e.history then e'.status == e.status
            else
              var entry := e'.history[|e'.history| - 1];
              && e'.history == e.history + [entry]
              && entry.from == e.status && entry.to == e'.status
              && entry.requestId == stamp.requestId && entry.actor == stamp.actor && entry.at == stamp.at
              && (Real(entry) ==> Tracked(entry.kind))
              && (Real(entry) ==> Allowed(e.status, e'.status) || (action.Override? && BreakGlass(e.status) && BreakGlass(e'.status)))
  {
  }

  /** An order enters execution only by `Start`, out of "waiting to start" with a mechanic, and never leaves its
      closed end. */
  lemma EntryToExecution(e: Entity, action: Action, stamp: Stamp)
    requires Perform(e, action, stamp).Some?
    ensures var e' := Perform(e, action, stamp).value;
            && (e'.status == EmExecucao && e.status != EmExecucao ==>
                  e.status == AguardandoInicio && (action == Start || action == Transition(EmExecucao)))
            && (e.status == Entregue ==> e'.status == Entregue)
            && (Begun(e.status) ==> Begun(e'.status))
  {
  }

  // ---- the table of moves ----

  /** The edges of the matrix, one by one. */
  const Edges: set<(OrderStatus, OrderStatus)> := {
    (Recebida, EmDiagnostico),
    (EmDiagnostico, AguardandoAprovacao),
    (AguardandoAprovacao, AguardandoInicio), (AguardandoAprovacao, EmDiagnostico),
    (AguardandoInicio, EmExecucao), (AguardandoInicio, AguardandoAprovacao), (AguardandoInicio, AguardandoCompra),
    (AguardandoCompra, AguardandoInicio), (AguardandoCompra, AguardandoAprovacao),
    (EmExecucao, Finalizada),
    (Finalizada, Entregue)
  }

  /** What an action asks of the status, where it leads and what its entry is called. */
  datatype Rule = Rule(froms: set<OrderStatus>, to: OrderStatus, kind: Kind)

  function RuleOf(action: Action): Option<Rule> {
    match action
    case Submit => Some(Rule({EmDiagnostico, AguardandoInicio, AguardandoCompra}, AguardandoAprovacao, BudgetSubmitted))
    case Approve => Some(Rule({AguardandoAprovacao, AguardandoCompra}, AguardandoInicio, BudgetApproved))
    case WaitForPurchase => Some(Rule({AguardandoInicio}, AguardandoCompra, InventoryShortage))
    case ReadyToStart => Some(Rule({AguardandoCompra}, AguardandoInicio, InventoryReconciled))
    case ReturnToDiagnosis => Some(Rule({AguardandoAprovacao}, EmDiagnostico, BudgetRejected))
    case Start => Some(Rule({AguardandoInicio}, EmExecucao, ExecutionStarted))
    case Finish => Some(Rule({EmExecucao}, Finalizada, ExecutionFinished))
    case Deliver => Some(Rule({Finalizada}, Entregue, OrderDelivered))
    case _ => None
  }

  /** The order with one more entry, which says what it did. */
  ghost predicate Logged(e: Entity, e': Entity, kind: Kind, reason: Option<string>, stamp: Stamp) {
    e'.history == e.history + [Entry(e.status, e'.status, kind, reason, stamp.actor, stamp.requestId, stamp.at)]
  }

  /** A move goes through exactly along an edge, and a named move exactly from the statuses of its rule, a start only with
      a mechanic; it changes the status alone and is logged under its own name. */
  lemma MovesFollowTheTable(e: Entity, action: Action, stamp: Stamp)
    requires action.Transition? || RuleOf(action).Some?
    ensures Perform(e, action, stamp).Some? <==>
            if action.Transition? then (e.status, action.to) in Edges
            else e.status in RuleOf(action).value.froms && (action == Start ==> e.mechanic.Some?)
    ensures Perform(e, action, stamp).Some? ==>
              var e' := Perform(e, action, stamp).value;
              && e' == e.(status := if action.Transition? then action.to else RuleOf(action).value.to, history := e'.history)
              && Logged(e, e', if action.Transition? then WorkflowMove else RuleOf(action).value.kind, None, stamp)
  {
  }

  /** An override goes through exactly with a reason, between two different correctable statuses, and logs its reason; an
      order is put into the execution queue exactly while it is ready, which changes nothing else; a revision is taken
      exactly before execution and logged as an approval exactly when one was awaited. */
  lemma OtherActionsFollowTheTable(e: Entity, action: Action, stamp: Stamp)
    requires action.Override? || action.Enqueue? || action.ApplyRevision?
    ensures Perform(e, action, stamp).Some? <==>
            match action
            case Override(to, reason) =>
              var correctable := {Recebida, EmDiagnostico, AguardandoAprovacao, AguardandoInicio, AguardandoCompra};
              Strip(reason) != "" && e.status in correctable && to in correctable && to != e.status
            case Enqueue => e.status == AguardandoInicio
            case ApplyRevision(_) => e.status in {AguardandoAprovacao, AguardandoInicio, AguardandoCompra}
    ensures Perform(e, action, stamp).Some? ==>
              var e' := Perform(e, action, stamp).value;
              match action
              case Override(to, reason) =>
                e' == e.(status := to, history := e'.history) && Logged(e, e', BreakGlassOverride, Some(Strip(reason)), stamp)
              case Enqueue => e' == e.(history := e'.history) && Logged(e, e', ExecutionQueued, None, stamp)
              case ApplyRevision(total) =>
                if e.status == AguardandoAprovacao
                then e' == e.(status := AguardandoInicio, total := total, history := e'.history) && Logged(e, e', BudgetApproved, None, stamp)
                else e' == e.(total := total)
  {
  }

  /** A first mechanic is logged as such, with the move to diagnosis where there is one; a change carries its reason; naming
      the same one again is not logged. */
  lemma AssignmentsAreLogged(e: Entity, text: string, reason: string, stamp: Stamp)
    requires Perform(e, Assign(text, reason), stamp).Some?
    ensures var e' := Perform(e, Assign(text, reason), stamp).value;
            && e'.mechanic == Some(Strip(text)) && e'.total == e.total
            && match e.mechanic
               case None => Logged(e, e', MechanicAssignment, None, stamp)
               case Some(name) => if name == Strip(text) then e' == e else Logged(e, e', MechanicReassignment, Some(Strip(reason)), stamp)
  {
  }

  // ---- the service calls act on orders through these actions only ----

  function AsEntity(o: Order): Entity {
    Entity(o.status, o.mechanic, o.total, [])
  }

  /** The row after an action on the entity. */
  ghost predicate ActedOn(o: Order, o': Order, action: Action) {
    forall stamp ::
      && Perform(AsEntity(o), action, stamp).Some?
      && Perform(AsEntity(o), action, stamp).value.(history := []) == AsEntity(o')
  }

  ghost predicate OrderCall(step: Step) {
    step.StepAssignMechanic? || step.StepStartService? || step.StepFinishService? || step.StepDeliverOrder? || step.StepOverrideStatus?
  }

  function ActionOf(step: Step): Action
    requires OrderCall(step)
  {
    match step
    case StepAssignMechanic(_, name, reason) => Assign(name, reason)
    case StepStartService(_) => Start
    case StepFinishService(_) => Finish
    case StepDeliverOrder(_) => Deliver
    case StepOverrideStatus(_, s, reason) => Override(s, reason)
  }

  /** What a committed order call does to its order is what the entity's action does to it. */
  lemma OrderCallsAreActions(t: Tables, step: Step)
    requires OrderCall(step) && Call(t, step).Committed?
    ensures step.order < |t.orders| && ActedOn(t.orders[step.order], Next(t, step).orders[step.order], ActionOf(step))
  {
    if step.StepAssignMechanic? {
      AssignmentIsAction(t, step.order, step.name, step.reason);
    } else if step.StepOverrideStatus? {
      OverrideIsAction(t, step.order, step.status, step.reason);
    } else {
      MoveIsAction(t, step);
    }
  }

  lemma AssignmentIsAction(t: Tables, o: nat, name: string, reason: string)
    requires Workshop.AssignMechanic(t, o, name, reason).Committed?
    ensures o < |t.orders| && ActedOn(t.orders[o], Workshop.AssignMechanic(t, o, name, reason).tables.orders[o], Assign(name, reason))
  {
  }

  lemma OverrideIsAction(t: Tables, o: nat, s: OrderStatus, reason: string)
    requires Workshop.OverrideStatus(t, o, s, reason).Committed?
    ensures o < |t.orders| && ActedOn(t.orders[o], Workshop.OverrideStatus(t, o, s, reason).tables.orders[o], Override(s, reason))
  {
  }

  lemma MoveIsAction(t: Tables, step: Step)
    requires (step.StepStartService? || step.StepFinishService? || step.StepDeliverOrder?) && Call(t, step).Committed?
    ensures step.order < |t.orders| && ActedOn(t.orders[step.order], Next(t, step).orders[step.order], ActionOf(step))
  {
  }

  /** An approval applies a revision to the family's order through the entity. */
  lemma RevisingIsAnAction(order: Order, budget: Budget)
    requires Revisable(order.status)
    ensures ActedOn(order, Revise(order, budget), ApplyRevision(budget.total))
  {
  }

  /** The stock check after a reconcile never attempts a move the entity would refuse. */
  lemma RefreshIsAnAction(orders: seq<Order>, o: nat, rs: seq<Reservation>, x: nat)
    requires o < |orders| && x < |orders| && Waiting(orders[o].status)
    ensures var order' := RefreshStatuses(orders, o, rs)[x];
            order'.status != orders[x].status ==>
              ActedOn(orders[x], order', if order'.status == AguardandoCompra then WaitForPurchase else ReadyToStart)
  {
  }

  class ServiceOrder {
    var status: OrderStatus
    var mechanicName: Option<string>
    var totalPrice: real
    var statusHistory: seq<Entry>

    function Value(): Entity
      reads this
    {
      Entity(status, mechanicName, totalPrice, statusHistory)
    }

    constructor (e: Entity)
      ensures Value() == e
    {
      status, mechanicName, totalPrice, statusHistory := e.status, e.mechanic, e.total, e.history;
    }

    method TransitionTo(to: OrderStatus, kind: Kind, stamp: Stamp) returns (ok: bool)
      modifies this
      ensures ok == Move(old(Value()), to, kind, stamp).Some?
      ensures Value() == if ok then Move(old(Value()), to, kind, stamp).value else old(Value())
    {
      if to == status || !Allowed(status, to) {
        return false;
      }
      var previous := status;
      status := to;
      statusHistory := statusHistory + [Entry(previous, to, kind, None, stamp.actor, stamp.requestId, stamp.at)];
      return true;
    }

    method AssignMechanic(text: string, reason: string, stamp: Stamp) returns (ok: bool)
      modifies this
      ensures ok == Perform(old(Value()), Assign(text, reason), stamp).Some?
      ensures Value() == if ok then Perform(old(Value()), Assign(text, reason), stamp).value else old(Value())
    {
      var name := Strip(text);
      if name == "" {
        return false;
      }
      if mechanicName.None? {
        if status == Recebida {
          mechanicName := Some(name);
          ok := TransitionTo(EmDiagnostico, MechanicAssignment, stamp);
          return;
        }
        if Waiting(status) {
          mechanicName := Some(name);
          statusHistory := statusHistory + [Entry(status, status, MechanicAssignment, None, stamp.actor, stamp.requestId, stamp.at)];
          return true;
        }
        return false;
      }
      if name == mechanicName.value {
        return true;
      }
      if Closed(status) || Strip(reason) == "" {
        return false;
      }
      mechanicName := Some(name);
      statusHistory := statusHistory + [Entry(status, status, MechanicReassignment, Some(Strip(reason)), stamp.actor, stamp.requestId, stamp.at)];
      return true;
    }

    method ApplyBudgetRevision(total: real, stamp: Stamp) returns (ok: bool)
      modifies this
      ensures ok == Perform(old(Value()), ApplyRevision(total), stamp).Some?
      ensures Value() == if ok then Perform(old(Value()), ApplyRevision(total), stamp).value else old(Value())
    {
      if !Revisable(status) {
        return false;
      }
      if status == AguardandoAprovacao {
        ok := TransitionTo(AguardandoInicio, BudgetApproved, stamp);
      }
      totalPrice := total;
      return true;
    }

    method OverrideStatus(to: OrderStatus, reason: string, stamp: Stamp) returns (ok: bool)
      modifies this
      ensures ok == Perform(old(Value()), Override(to, reason), stamp).Some?
      ensures Value() == if ok then Perform(old(Value()), Override(to, reason), stamp).value else old(Value())
    {
      if Strip(reason) == "" || !BreakGlass(status) || !BreakGlass(to) || status == to {
        return false;
      }
      var previous := status;
      status := to;
      statusHistory := statusHistory + [Entry(previous, to, BreakGlassOverride, Some(Strip(reason)), stamp.actor, stamp.requestId, stamp.at)];
      return true;
    }

    method StartExecution(stamp: Stamp) returns (ok: bool)
      modifies this
      ensures ok == Perform(old(Value()), Start, stamp).Some?
      ensures Value() == if ok then Perform(old(Value()), Start, stamp).value else old(Value())
    {
      if status != AguardandoInicio || mechanicName.None? {
        return false;
      }
      ok := TransitionTo(EmExecucao, ExecutionStarted, stamp);
    }
  }
}
