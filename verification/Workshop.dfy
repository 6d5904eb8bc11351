/** The service calls as steps on the tables. Each either commits new tables or raises and leaves them alone. */
module Workshop {
  import opened Schema
  import opened Reservations
  import opened Purchases
  import opened Withdrawals
  import opened Inventory
  import opened Revisions
  import opened Text
  import opened Money
  import Billing

  // ---- the order workflow ----

  /** The transition matrix of an order. */
  predicate Allowed(s: OrderStatus, s': OrderStatus) {
    match s
    case Recebida => s' == EmDiagnostico
    case EmDiagnostico => s' == AguardandoAprovacao
    case AguardandoAprovacao => s' == AguardandoInicio || s' == EmDiagnostico
    case AguardandoInicio => s' == EmExecucao || s' == AguardandoAprovacao || s' == AguardandoCompra
    case AguardandoCompra => s' == AguardandoInicio || s' == AguardandoAprovacao
    case EmExecucao => s' == Finalizada
    case Finalizada => s' == Entregue
    case Entregue => false
  }

  /** The statuses an administrator may move an order between without the matrix. */
  predicate BreakGlass(s: OrderStatus) {
    s == Recebida || s == EmDiagnostico || s == AguardandoAprovacao || Waiting(s)
  }

  predicate Revisable(s: OrderStatus) {
    s == AguardandoAprovacao || Waiting(s)
  }

  function WithStatus(t: Tables, o: nat, s: OrderStatus): Tables
    requires o < |t.orders|
  {
    t.(orders := t.orders[o := t.orders[o].(status := s)])
  }

  function WithBudget(t: Tables, b: nat, budget: Budget): Tables
    requires b < |t.budgets|
  {
    t.(budgets := t.budgets[b := budget])
  }

  predicate ItemsExist(lines: seq<Line>, n: nat) {
    forall k :: 0 <= k < |lines| ==> lines[k].item < n
  }

  // ---- products ----

  function AddProduct(t: Tables, quantity: int): Outcome {
    if quantity < 0 then RolledBack(Invalid)
    else Committed(t.(stock := t.stock + [quantity]))
  }

  /** The manual correction of a product's stock, which looks at no reservation. */
  function AdjustStock(t: Tables, p: nat, delta: int): Outcome {
    if p >= |t.stock| then RolledBack(NotFound)
    else if delta < 0 && t.stock[p] < -delta then RolledBack(Invalid)
    else Committed(t.(stock := t.stock[p := t.stock[p] + delta]))
  }

  // ---- budgets ----

  function CreateBudget(t: Tables, vehicle: nat): Outcome {
    Committed(t.(budgets := t.budgets + [Budget(vehicle, Draft, 0.0, [], [], 1, None, false, None)]))
  }

  /** Any sequence of line edits of a draft, summed up by the lines it leaves and the total the float sum records for them. */
  function EditBudget(t: Tables, b: nat, services: seq<Line>, products: seq<Line>, total: real): Outcome {
    if b >= |t.budgets| then RolledBack(NotFound)
    else if t.budgets[b].status != Draft then RolledBack(Invalid)
    else if !ItemsExist(products, |t.stock|) then RolledBack(NotFound)
    else Committed(WithBudget(t, b, t.budgets[b].(services := services, products := products, total := total)))
  }

  function CreateRevision(t: Tables, b: nat): Outcome {
    if b >= |t.budgets| then RolledBack(NotFound)
    else
      var root := RootOf(t.budgets, b);
      var source := Latest(t.budgets, root, Approved, |t.budgets|);
      if source.None? then RolledBack(Invalid)
      else
        var from := t.budgets[source.value];
        var number := HighestNumber(t.budgets, root, from.revision, |t.budgets|) + 1;
        Committed(t.(budgets := t.budgets +
          [from.(status := Draft, revision := number, supersedes := Some(source.value), used := false, expires := None)]))
  }

  function MarkSent(t: Tables, b: nat, expires: int): Tables
    requires b < |t.budgets|
  {
    var budget := t.budgets[b];
    WithBudget(t, b, budget.(status := BudgetStatus.Sent, expires := Some(expires),
                             used := if budget.status == Draft then false else budget.used))
  }

  /** Record the decision on a budget. */
  function MarkDecided(t: Tables, b: nat, status: BudgetStatus): Tables
    requires b < |t.budgets|
  {
    WithBudget(t, b, t.budgets[b].(status := status, used := true))
  }

  /** A draft, or a sent budget that still awaits its decision. */
  predicate Sendable(budget: Budget) {
    budget.status == Draft || (budget.status == BudgetStatus.Sent && !budget.used)
  }

  /** Send a draft, or a new link for a sent budget. Whatever the order's status, its reservations are released. */
  function SendBudget(t: Tables, b: nat, expires: int): Outcome {
    if b >= |t.budgets| then RolledBack(NotFound)
    else
      var budget := t.budgets[b];
      if !Sendable(budget) then RolledBack(Invalid)
      else
        var t1 := MarkSent(t, b, expires);
        match FindOrder(t1.budgets, t1.orders, b)
        case None => Committed(t1)
        case Some(o) =>
          Committed(ReleaseOrder(
            if t1.orders[o].status == EmDiagnostico then WithStatus(t1, o, AguardandoAprovacao) else t1, o))
  }

  predicate VehicleBusy(orders: seq<Order>, vehicle: nat) {
    exists x :: 0 <= x < |orders| && orders[x].vehicle == vehicle && orders[x].status != Entregue
  }

  /** The order opened for a family: it hangs on the family's original budget. */
  function NewOrder(budgets: seq<Budget>, b: nat, now: int): Order
    requires b < |budgets|
  {
    Order(RootOf(budgets, b), budgets[b].vehicle, AguardandoInicio, None, budgets[b].total, now,
          budgets[b].services, budgets[b].products)
  }

  /** The order with an approved revision's scope, moved on if it awaited approval. */
  function Revise(order: Order, budget: Budget): Order {
    order.(status := if order.status == AguardandoAprovacao then AguardandoInicio else order.status,
           total := budget.total, services := budget.services, products := budget.products)
  }

  /** Give the approved budget its order: the family's own if there is one, else a new one on the root. */
  function ApplyApproved(t: Tables, b: nat, now: int): Outcome
    requires b < |t.budgets|
  {
    var budget := t.budgets[b];
    match FindOrder(t.budgets, t.orders, b)
    case None =>
      if VehicleBusy(t.orders, budget.vehicle) then RolledBack(Conflict)
      else
        Reconcile(t.(orders := t.orders + [NewOrder(t.budgets, b, now)]), |t.orders|)
    case Some(o) =>
      if !Revisable(t.orders[o].status) then RolledBack(Invalid)
      else Reconcile(t.(orders := t.orders[o := Revise(t.orders[o], budget)]), o)
  }

  predicate Approvable(budget: Budget) {
    budget.status == BudgetStatus.Sent && !budget.used && (budget.services != [] || budget.products != [])
  }

  /** Staff approval, which ignores the expiry of the customer's link. */
  function ApproveBudget(t: Tables, b: nat, now: int): Outcome {
    if b >= |t.budgets| then RolledBack(NotFound)
    else if !Approvable(t.budgets[b]) then RolledBack(Invalid)
    else ApplyApproved(MarkDecided(t, b, BudgetStatus.Approved), b, now)
  }

  /** The customer's decision by link. Presenting a used link again reports the decision and commits nothing. */
  function DecideBudget(t: Tables, b: nat, approve: bool, now: int): Outcome {
    if b >= |t.budgets| then RolledBack(NotFound)
    else
      var budget := t.budgets[b];
      if budget.used then
        if budget.status == if approve then BudgetStatus.Approved else BudgetStatus.Rejected
        then Committed(t) else RolledBack(Invalid)
      else if budget.expires.None? || budget.expires.value <= now then RolledBack(NotFound)
      else if budget.status != BudgetStatus.Sent then RolledBack(Invalid)
      else if approve then
        if !Approvable(budget) then RolledBack(Invalid)
        else ApplyApproved(MarkDecided(t, b, BudgetStatus.Approved), b, now)
      else
        var t1 := MarkDecided(t, b, BudgetStatus.Rejected);
        match FindOrder(t1.budgets, t1.orders, b)
        case None => Committed(t1)
        case Some(o) =>
          if t1.orders[o].status != AguardandoAprovacao then RolledBack(Invalid)
          else Committed(ReleaseOrder(WithStatus(t1, o, EmDiagnostico), o))
  }

  // ---- purchasing ----

  function RequestPurchase(t: Tables, p: nat, quantity: int, order: Option<nat>): Outcome {
    if p >= |t.stock| then RolledBack(NotFound)
    else
      var existing := if order.Some? then FindOpen(t.requests, order.value, p) else None;
      match existing
      case Some(i) =>
        if t.requests[i].quantity + quantity <= 0 then RolledBack(Invalid)
        else Committed(t.(requests := t.requests[i := t.requests[i].(quantity := t.requests[i].quantity + quantity)]))
      case None =>
        if quantity <= 0 then RolledBack(Invalid)
        else if order.Some? && order.value >= |t.orders| then RolledBack(Conflict)
        else Committed(t.(requests := t.requests + [PurchaseRequest(p, order, quantity, Pending)]))
  }

  /** The receipt is filed, the stock grows and the request closes. */
  function GoodsIn(t: Tables, r: nat, quantity: Pos): Tables
    requires r < |t.requests| && t.requests[r].product < |t.stock|
  {
    var p := t.requests[r].product;
    t.(receipts := t.receipts + [Receipt(r, quantity)],
       stock := t.stock[p := t.stock[p] + quantity],
       requests := t.requests[r := t.requests[r].(status := PurchaseStatus.Received)])
  }

  /** The request is there and open, its product exists, and something comes in. */
  predicate Receivable(t: Tables, r: nat, quantity: int) {
    && r < |t.requests| && t.requests[r].product < |t.stock| && quantity > 0
    && (t.requests[r].status == Pending || t.requests[r].status == Ordered)
  }

  /** Goods come in for a request: stock grows, the request closes and its order is reconciled. */
  function ReceiveGoods(t: Tables, r: nat, quantity: int): Outcome {
    if r >= |t.requests| then RolledBack(NotFound)
    else if quantity <= 0 then RolledBack(Invalid)
    else
      var request := t.requests[r];
      if request.product >= |t.stock| then RolledBack(NotFound)
      else if request.status != Pending && request.status != Ordered then RolledBack(Invalid)
      else
        if request.order.Some? then Reconcile(GoodsIn(t, r, quantity), request.order.value)
        else Committed(GoodsIn(t, r, quantity))
  }

  // ---- execution ----

  function AssignMechanic(t: Tables, o: nat, text: string, reason: string): Outcome {
    if o >= |t.orders| then RolledBack(NotFound)
    else if Strip(text) == "" then RolledBack(Invalid)
    else
      var name, order := Strip(text), t.orders[o];
      if order.mechanic.None? then
        if order.status == Recebida then
          Committed(t.(orders := t.orders[o := order.(mechanic := Some(name), status := EmDiagnostico)]))
        else if Waiting(order.status) then
          Committed(t.(orders := t.orders[o := order.(mechanic := Some(name))]))
        else RolledBack(Invalid)
      else if order.mechanic.value == name then Committed(t)
      else if Closed(order.status) || Strip(reason) == "" then RolledBack(Invalid)
      else Committed(t.(orders := t.orders[o := order.(mechanic := Some(name))]))
  }

  function StartService(t: Tables, o: nat): Outcome {
    if o >= |t.orders| then RolledBack(NotFound)
    else if t.orders[o].status != AguardandoInicio || t.orders[o].mechanic.None? then RolledBack(Invalid)
    else if Short(t.orders[o], o, t.reservations) then RolledBack(Invalid)
    else Committed(WithStatus(t, o, EmExecucao))
  }

  function RequestWithdrawal(t: Tables, o: nat, p: nat, quantity: int): Outcome {
    if o >= |t.orders| then RolledBack(NotFound)
    else if t.orders[o].status != EmExecucao then RolledBack(Invalid)
    else
      var required := Required(t.orders[o].products, p);
      if required == 0 then RolledBack(Invalid)
      else if Asked(t.withdrawals, o, p) + quantity > required then RolledBack(Invalid)
      else if quantity <= 0 then RolledBack(Invalid)
      else Committed(t.(withdrawals := t.withdrawals + [Withdrawal(o, p, quantity, Unfulfilled)]))
  }

  function FulfillWithdrawal(t: Tables, w: nat): Outcome {
    if w >= |t.withdrawals| then RolledBack(NotFound)
    else
      var withdrawal := t.withdrawals[w];
      var found := FindActive(t.reservations, withdrawal.order, withdrawal.product);
      if found.None? || t.reservations[found.value].quantity < withdrawal.quantity then RolledBack(Invalid)
      else if withdrawal.status != Unfulfilled then RolledBack(Invalid)
      else if withdrawal.product >= |t.stock| then RolledBack(NotFound)
      else if t.stock[withdrawal.product] < withdrawal.quantity then RolledBack(Invalid)
      else Committed(t.(
        reservations := Consume(t.reservations, found.value, withdrawal.quantity),
        withdrawals := t.withdrawals[w := withdrawal.(status := Fulfilled)],
        stock := t.stock[withdrawal.product := t.stock[withdrawal.product] - withdrawal.quantity]))
  }

  /** Some product of the order has not been taken out in full. */
  predicate Untaken(t: Tables, o: nat)
    requires o < |t.orders|
  {
    exists k :: 0 <= k < |t.orders[o].products| &&
      Taken(t.withdrawals, o, t.orders[o].products[k].item) < Required(t.orders[o].products, t.orders[o].products[k].item)
  }

  function FinishService(t: Tables, o: nat): Outcome {
    if o >= |t.orders| then RolledBack(NotFound)
    else if t.orders[o].status != EmExecucao then RolledBack(Invalid)
    else if Untaken(t, o) then RolledBack(Invalid)
    else Committed(WithStatus(t, o, Finalizada).(reservations := ReleaseExcept(t.reservations, o, {})))
  }

  // ---- billing ----

  function FindInvoice(invoices: seq<Invoice>, o: nat): (f: Option<nat>)
    ensures f.Some? ==> f.value < |invoices| && invoices[f.value].order == o
    ensures f.None? ==> forall i :: 0 <= i < |invoices| ==> invoices[i].order != o
  {
    if invoices == [] then None
    else
      var n := |invoices| - 1;
      var f := FindInvoice(invoices[..n], o);
      if f.Some? then f
      else if invoices[n].order == o then Some(n)
      else
        assert forall i :: 0 <= i < n ==> invoices[..n][i].order != o;
        None
  }

  /** Every price and the recorded total must convert to cents; the invoice is for the lines, and the total may be a cent off. */
  function CreateInvoice(t: Tables, o: nat): Outcome {
    if o >= |t.orders| then RolledBack(NotFound)
    else
      var order := t.orders[o];
      if order.status != Finalizada then RolledBack(Invalid)
      else if FindInvoice(t.invoices, o).Some? then RolledBack(Invalid)
      else if !Priced(order.services) || !Priced(order.products) then RolledBack(Invalid)
      else
        match (Amount(order.services), Amount(order.products), ToMoney(order.total))
        case (Some(services), Some(products), Some(total)) =>
          var amount := services + products;
          if amount - total > 1 || total - amount > 1 then RolledBack(Invalid)
          else Committed(t.(invoices := t.invoices + [Invoice(o, amount, Unpaid, [])]))
        case _ => RolledBack(Invalid)
  }

  /** A payment as the route takes it; the last one delivers the order. */
  function RecordPayment(t: Tables, i: nat, amount: int, means: PaymentMethod, key: string): Outcome {
    if !Billing.Acceptable(amount, key) then RolledBack(Invalid)
    else if i >= |t.invoices| then RolledBack(NotFound)
    else
      var existing := Billing.FindPayment(t.invoices[i].payments, Strip(key));
      match Billing.Submit(t.invoices[i], amount, means, key)
      case Refused(e) => RolledBack(e)
      case Recorded(inv) =>
        if existing.Some? then Committed(t)
        else
          var t1 := t.(invoices := t.invoices[i := inv]);
          if inv.status == Paid && inv.order < |t.orders| && t.orders[inv.order].status == Finalizada
          then Committed(WithStatus(t1, inv.order, Entregue)) else Committed(t1)
  }

  function DeliverOrder(t: Tables, o: nat): Outcome {
    if o >= |t.orders| then RolledBack(NotFound)
    else if t.orders[o].status != Finalizada then RolledBack(Invalid)
    else
      var i := FindInvoice(t.invoices, o);
      if i.None? || t.invoices[i.value].status != Paid then RolledBack(Invalid)
      else Committed(WithStatus(t, o, Entregue))
  }

  // ---- break glass ----

  /** What the override asks for: a reason, and two different statuses it may correct between. */
  predicate Overridable(t: Tables, o: nat, s: OrderStatus, reason: string) {
    && o < |t.orders| && Strip(reason) != ""
    && BreakGlass(t.orders[o].status) && BreakGlass(s) && t.orders[o].status != s
  }

  /** The administrator's correction; leaving "awaiting approval" supersedes the pending revision. */
  function OverrideStatus(t: Tables, o: nat, s: OrderStatus, reason: string): Outcome {
    if o >= |t.orders| then RolledBack(NotFound)
    else
      var order := t.orders[o];
      if Strip(reason) == "" || !BreakGlass(order.status) || !BreakGlass(s) || order.status == s then RolledBack(Invalid)
      else
        var pending :=
          if order.status == AguardandoAprovacao
          then Latest(t.budgets, RootOf(t.budgets, order.budget), BudgetStatus.Sent, |t.budgets|) else None;
        var t1 :=
          if pending.Some? then WithBudget(t, pending.value, t.budgets[pending.value].(status := Superseded, expires := None)) else t;
        Committed(WithStatus(t1, o, s))
  }

  // ---- runs ----

  datatype Step =
    | StepAddProduct(quantity: int)
    | StepAdjustStock(product: nat, delta: int)
    | StepCreateBudget(vehicle: nat)
    | StepEditBudget(budget: nat, services: seq<Line>, products: seq<Line>, total: real)
    | StepCreateRevision(budget: nat)
    | StepSendBudget(budget: nat, expires: int)
    | StepApproveBudget(budget: nat, now: int)
    | StepDecideBudget(budget: nat, approve: bool, now: int)
    | StepReconcile(order: nat)
    | StepRequestPurchase(product: nat, units: int, forOrder: Option<nat>)
    | StepReceiveGoods(request: nat, units: int)
    | StepAssignMechanic(order: nat, name: string, reason: string)
    | StepStartService(order: nat)
    | StepRequestWithdrawal(order: nat, product: nat, units: int)
    | StepFulfillWithdrawal(withdrawal: nat)
    | StepFinishService(order: nat)
    | StepCreateInvoice(order: nat)
    | StepRecordPayment(invoice: nat, amount: int, means: PaymentMethod, key: string)
    | StepDeliverOrder(order: nat)
    | StepOverrideStatus(order: nat, status: OrderStatus, reason: string)

  function Call(t: Tables, step: Step): Outcome {
    match step
    case StepAddProduct(quantity) => AddProduct(t, quantity)
    case StepAdjustStock(p, delta) => AdjustStock(t, p, delta)
    case StepCreateBudget(vehicle) => CreateBudget(t, vehicle)
    case StepEditBudget(b, services, products, total) => EditBudget(t, b, services, products, total)
    case StepCreateRevision(b) => CreateRevision(t, b)
    case StepSendBudget(b, expires) => SendBudget(t, b, expires)
    case StepApproveBudget(b, now) => ApproveBudget(t, b, now)
    case StepDecideBudget(b, approve, now) => DecideBudget(t, b, approve, now)
    case StepReconcile(o) => Reconcile(t, o)
    case StepRequestPurchase(p, units, order) => RequestPurchase(t, p, units, order)
    case StepReceiveGoods(r, units) => ReceiveGoods(t, r, units)
    case StepAssignMechanic(o, name, reason) => AssignMechanic(t, o, name, reason)
    case StepStartService(o) => StartService(t, o)
    case StepRequestWithdrawal(o, p, units) => RequestWithdrawal(t, o, p, units)
    case StepFulfillWithdrawal(w) => FulfillWithdrawal(t, w)
    case StepFinishService(o) => FinishService(t, o)
    case StepCreateInvoice(o) => CreateInvoice(t, o)
    case StepRecordPayment(i, amount, means, key) => RecordPayment(t, i, amount, means, key)
    case StepDeliverOrder(o) => DeliverOrder(t, o)
    case StepOverrideStatus(o, s, reason) => OverrideStatus(t, o, s, reason)
  }

  /** A call that raises leaves the tables as they were. */
  function Next(t: Tables, step: Step): Tables {
    match Call(t, step)
    case Committed(t') => t'
    case RolledBack(_) => t
  }

  function Run(t: Tables, steps: seq<Step>): Tables {
    if steps == [] then t else Next(Run(t, steps[..|steps| - 1]), steps[|steps| - 1])
  }

  const Empty := Tables([], [], [], [], [], [], [], [])
}
