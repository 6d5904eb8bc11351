/** What becomes of the rows of reservations, purchase requests and receipts. */
module RowLives {
  import opened Schema
  import opened Reservations
  import opened Purchases
  import opened Withdrawals
  import opened AgeQueue
  import opened Inventory
  import opened Revisions
  import opened Workshop
  import opened Fairness
  import opened Safety
  import opened Lifecycle

  predicate Filed(r: PurchaseRequest) {
    r.status == PurchaseStatus.Received || r.status == PurchaseStatus.Cancelled
  }

  predicate ReservationLives(r: Reservation, r': Reservation, end: ReservationStatus) {
    && r'.order == r.order && r'.product == r.product
    && if r.status == Active then r'.status == Active || r'.status == end else r' == r
  }

  /** A reservation keeps its order and product. Once it is not active it never changes again; an active one stays active
      or ends in this way, and so do new ones. */
  ghost predicate ReservationsLive(rs: seq<Reservation>, rs': seq<Reservation>, end: ReservationStatus) {
    && |rs| <= |rs'|
    && (forall i :: 0 <= i < |rs| ==> ReservationLives(rs[i], rs'[i], end))
    && (forall i :: |rs| <= i < |rs'| ==> rs'[i].status == Active || rs'[i].status == end)
  }

  predicate RequestLives(r: PurchaseRequest, r': PurchaseRequest) {
    && r'.order == r.order && r'.product == r.product
    && if Filed(r) then r' == r else r'.status == r.status || r'.status == PurchaseStatus.Cancelled
  }

  /** A request keeps its order and product. Once it is received or cancelled it never changes again; an open one stays as
      open as it is or is cancelled; a new one is pending, unless it is cancelled again. */
  ghost predicate RequestsLive(rs: seq<PurchaseRequest>, rs': seq<PurchaseRequest>) {
    && |rs| <= |rs'|
    && (forall i :: 0 <= i < |rs| ==> RequestLives(rs[i], rs'[i]))
    && (forall i :: |rs| <= i < |rs'| ==> rs'[i].status == Pending || rs'[i].status == PurchaseStatus.Cancelled)
  }

  /** Nothing is used up, received or taken out. */
  ghost predicate RowsLive(t: Tables, t': Tables) {
    && ReservationsLive(t.reservations, t'.reservations, ReservationStatus.Released)
    && RequestsLive(t.requests, t'.requests)
    && t'.receipts == t.receipts && t'.withdrawals == t.withdrawals
  }

  lemma SetReservationLives(rs: seq<Reservation>, o: nat, p: nat, desired: nat)
    ensures ReservationsLive(rs, SetReservation(rs, o, p, desired), ReservationStatus.Released)
  {
  }

  lemma {:induction false} ReserveAllLives(rs: seq<Reservation>, p: nat, queue: seq<nat>, shares: seq<nat>)
    requires |queue| == |shares|
    ensures ReservationsLive(rs, ReserveAll(rs, p, queue, shares), ReservationStatus.Released)
  {
    if queue != [] {
      var n := |queue| - 1;
      ReserveAllLives(rs, p, queue[..n], shares[..n]);
      SetReservationLives(ReserveAll(rs, p, queue[..n], shares[..n]), queue[n], p, shares[n]);
    }
  }

  lemma SetBackorderLives(rs: seq<PurchaseRequest>, o: nat, p: nat, missing: int)
    ensures RequestsLive(rs, SetBackorder(rs, o, p, missing))
  {
  }

  lemma {:induction false} BackorderAllLives(rs: seq<PurchaseRequest>, p: nat, queue: seq<nat>, missing: seq<nat>)
    requires |queue| == |missing|
    ensures RequestsLive(rs, BackorderAll(rs, p, queue, missing))
  {
    if queue != [] {
      var n := |queue| - 1;
      BackorderAllLives(rs, p, queue[..n], missing[..n]);
      SetBackorderLives(BackorderAll(rs, p, queue[..n], missing[..n]), queue[n], p, missing[n]);
    }
  }

  lemma AllocateQueueLives(t: Tables, p: nat)
    ensures RowsLive(t, AllocateQueue(t, p))
  {
    if p < |t.stock| {
      ReserveAllLives(t.reservations, p, Queue(t.orders, p), FairShares(t, p));
      BackorderAllLives(t.requests, p, Queue(t.orders, p), Shortfalls(t, p));
    }
  }

  lemma RowsLiveOn(t: Tables, t': Tables, t'': Tables)
    requires RowsLive(t, t') && RowsLive(t', t'')
    ensures RowsLive(t, t'')
  {
  }

  lemma {:induction false} AllocateProductsLives(t: Tables, ps: seq<nat>)
    ensures RowsLive(t, AllocateProducts(t, ps))
  {
    if ps != [] {
      var n := |ps| - 1;
      AllocateProductsLives(t, ps[..n]);
      AllocateQueueLives(AllocateProducts(t, ps[..n]), ps[n]);
      RowsLiveOn(t, AllocateProducts(t, ps[..n]), AllocateProducts(t, ps));
    }
  }

  lemma ReconcileLives(t: Tables, o: nat)
    requires Reconcile(t, o).Committed?
    ensures RowsLive(t, Reconcile(t, o).tables)
  {
    if Waiting(t.orders[o].status) {
      var lines := t.orders[o].products;
      AllocateProductsLives(t.(reservations := ReleaseExcept(t.reservations, o, Items(lines))), SortedItems(lines));
    }
  }

  lemma ApprovalLives(t: Tables, b: nat, now: int)
    requires b < |t.budgets| && ApplyApproved(t, b, now).Committed?
    ensures RowsLive(t, ApplyApproved(t, b, now).tables)
  {
    match FindOrder(t.budgets, t.orders, b)
    case None => ReconcileLives(t.(orders := t.orders + [NewOrder(t.budgets, b, now)]), |t.orders|);
    case Some(o) => ReconcileLives(t.(orders := t.orders[o := Revise(t.orders[o], t.budgets[b])]), o);
  }

  lemma SendingLives(t: Tables, b: nat, expires: int)
    requires SendBudget(t, b, expires).Committed?
    ensures RowsLive(t, SendBudget(t, b, expires).tables)
  {
  }

  lemma RejectionLives(t: Tables, b: nat, approve: bool, now: int)
    requires DecideBudget(t, b, approve, now).Committed? && (!approve || t.budgets[b].used)
    ensures RowsLive(t, DecideBudget(t, b, approve, now).tables)
  {
  }

  lemma BudgetCallLives(t: Tables, step: Step)
    requires step.StepSendBudget? || step.StepApproveBudget? || step.StepDecideBudget?
    ensures RowsLive(t, Next(t, step))
  {
    if Call(t, step).Committed? {
      if step.StepApproveBudget? || (step.StepDecideBudget? && step.approve && !t.budgets[step.budget].used) {
        ApprovalLives(MarkDecided(t, step.budget, BudgetStatus.Approved), step.budget, step.now);
      } else if step.StepSendBudget? {
        SendingLives(t, step.budget, step.expires);
      } else {
        RejectionLives(t, step.budget, step.approve, step.now);
      }
    }
  }

  ghost predicate Moves(step: Step) {
    || step.StepSendBudget? || step.StepApproveBudget? || step.StepDecideBudget? || step.StepReconcile? || step.StepReceiveGoods?
    || step.StepRequestWithdrawal? || step.StepFulfillWithdrawal?
  }

  lemma QuietCallLives(t: Tables, step: Step)
    requires !Moves(step)
    ensures RowsLive(t, Next(t, step))
  {
    if step.StepFinishService? || step.StepRequestPurchase? { ClosingCallLives(t, step); } else { IdleCallLives(t, step); }
  }

  lemma ClosingCallLives(t: Tables, step: Step)
    requires step.StepFinishService? || step.StepRequestPurchase?
    ensures RowsLive(t, Next(t, step))
  {
  }

  lemma IdleCallLives(t: Tables, step: Step)
    requires !Moves(step) && !step.StepFinishService? && !step.StepRequestPurchase?
    ensures RowsLive(t, Next(t, step))
  {
    QuietUnits(t, step);
    QuietRequests(t, step);
  }

  lemma QuietRequests(t: Tables, step: Step)
    requires !Moves(step) && !step.StepFinishService? && !step.StepRequestPurchase?
    ensures Next(t, step).requests == t.requests && Next(t, step).receipts == t.receipts
  {
  }

  lemma FulfilmentLives(t: Tables, w: nat)
    requires FulfillWithdrawal(t, w).Committed?
    ensures var t' := FulfillWithdrawal(t, w).tables;
            ReservationsLive(t.reservations, t'.reservations, Consumed) && t'.requests == t.requests
  {
  }

  lemma ReceiptLives(t: Tables, r: nat, quantity: int)
    requires ReceiveGoods(t, r, quantity).Committed?
    ensures RowsLive(GoodsIn(t, r, quantity), ReceiveGoods(t, r, quantity).tables)
  {
    if t.requests[r].order.Some? { ReconcileLives(GoodsIn(t, r, quantity), t.requests[r].order.value); }
  }

  /** The requests once a receipt, if that is the call, has closed its own. */
  function AfterReceipt(t: Tables, step: Step): seq<PurchaseRequest> {
    if step.StepReceiveGoods? && Call(t, step).Committed?
    then t.requests[step.request := t.requests[step.request].(status := PurchaseStatus.Received)] else t.requests
  }

  /** In every call, only a fulfilment uses a reservation up and only a receipt closes a request as received, its own;
      whatever else ends is released or cancelled. What has ended stays as it is. */
  lemma EveryCallStepsRows(t: Tables, step: Step)
    ensures ReservationsLive(t.reservations, Next(t, step).reservations,
                             if step.StepFulfillWithdrawal? then Consumed else ReservationStatus.Released)
    ensures RequestsLive(AfterReceipt(t, step), Next(t, step).requests)
  {
    if !Moves(step) {
      QuietCallLives(t, step);
    } else if step.StepSendBudget? || step.StepApproveBudget? || step.StepDecideBudget? {
      BudgetCallLives(t, step);
    } else if Call(t, step).Committed? {
      match step
      case StepReconcile(o) => ReconcileLives(t, o);
      case StepReceiveGoods(r, units) => ReceiptLives(t, r, units);
      case StepFulfillWithdrawal(w) => FulfilmentLives(t, w);
      case StepRequestWithdrawal(_, _, _) =>
    }
  }

  /** What has ended stays ended, over any run. */
  lemma {:induction false} EndedForGood(t: Tables, steps: seq<Step>)
    ensures var t' := Run(t, steps);
            && (forall i :: 0 <= i < |t.reservations| && t.reservations[i].status != Active ==>
                  i < |t'.reservations| && t'.reservations[i] == t.reservations[i])
            && (forall i :: 0 <= i < |t.requests| && Filed(t.requests[i]) ==> i < |t'.requests| && t'.requests[i] == t.requests[i])
  {
    if steps != [] {
      EndedForGood(t, steps[..|steps| - 1]);
      EveryCallStepsRows(Run(t, steps[..|steps| - 1]), steps[|steps| - 1]);
    }
  }

  // ---- what rows that have ended stand for ----

  ghost predicate Receipted(receipts: seq<Receipt>, r: nat) {
    exists g :: 0 <= g < |receipts| && receipts[g].request == r
  }

  /** A request is received exactly when it has a receipt, and then it has one; a reservation is used up only for units
      really taken; and no request is ever ordered. */
  ghost predicate RowsTell(t: Tables) {
    && (forall g :: 0 <= g < |t.receipts| ==> t.receipts[g].request < |t.requests|)
    && (forall g, h :: 0 <= g < h < |t.receipts| ==> t.receipts[g].request != t.receipts[h].request)
    && (forall r: nat :: r < |t.requests| ==> (t.requests[r].status == PurchaseStatus.Received <==> Receipted(t.receipts, r)))
    && (forall r: nat :: r < |t.requests| ==> t.requests[r].status != Ordered)
    && (forall i: nat :: i < |t.reservations| && t.reservations[i].status == Consumed ==>
          Taken(t.withdrawals, t.reservations[i].order, t.reservations[i].product) > 0)
  }

  lemma LivingRowsTell(t: Tables, t': Tables)
    requires RowsTell(t) && RowsLive(t, t')
    ensures RowsTell(t')
  {
    forall r: nat | r < |t'.requests|
      ensures t'.requests[r].status == PurchaseStatus.Received <==> Receipted(t'.receipts, r)
      ensures t'.requests[r].status != Ordered
    {
      if r < |t.requests| { assert RequestLives(t.requests[r], t'.requests[r]); }
    }
    forall i: nat | i < |t'.reservations| && t'.reservations[i].status == Consumed
      ensures Taken(t'.withdrawals, t'.reservations[i].order, t'.reservations[i].product) > 0
    {
      assert i < |t.reservations| && ReservationLives(t.reservations[i], t'.reservations[i], ReservationStatus.Released);
    }
  }

  lemma GoodsInTells(t: Tables, r: nat, quantity: Pos)
    requires RowsTell(t) && r < |t.requests| && t.requests[r].product < |t.stock| && !Filed(t.requests[r])
    ensures RowsTell(GoodsIn(t, r, quantity))
  {
    var t' := GoodsIn(t, r, quantity);
    forall x: nat | x < |t'.requests|
      ensures t'.requests[x].status == PurchaseStatus.Received <==> Receipted(t'.receipts, x)
    {
      if x == r {
        assert t'.receipts[|t.receipts|].request == r;
      } else if Receipted(t.receipts, x) {
        var g :| 0 <= g < |t.receipts| && t.receipts[g].request == x;
        assert t'.receipts[g].request == x;
      }
    }
  }

  lemma RequestTells(t: Tables, o: nat, p: nat, quantity: int)
    requires RowsTell(t) && RequestWithdrawal(t, o, p, quantity).Committed?
    ensures RowsTell(RequestWithdrawal(t, o, p, quantity).tables)
  {
    forall x: nat, q: nat ensures Taken(RequestWithdrawal(t, o, p, quantity).tables.withdrawals, x, q) >= Taken(t.withdrawals, x, q) {
      SumsAppend(t.withdrawals, Withdrawal(o, p, quantity, Unfulfilled), x, q);
    }
  }

  lemma FulfilmentTells(t: Tables, w: nat)
    requires RowsTell(t) && FulfillWithdrawal(t, w).Committed?
    ensures RowsTell(FulfillWithdrawal(t, w).tables)
  {
    var t', taken := FulfillWithdrawal(t, w).tables, t.withdrawals[w];
    forall i: nat | i < |t'.reservations| && t'.reservations[i].status == Consumed
      ensures Taken(t'.withdrawals, t'.reservations[i].order, t'.reservations[i].product) > 0
    {
      SumsUpdate(t.withdrawals, w, taken.(status := Fulfilled), t'.reservations[i].order, t'.reservations[i].product);
      if i != FindActive(t.reservations, taken.order, taken.product).value { assert t'.reservations[i] == t.reservations[i]; }
    }
  }

  lemma EveryCallKeepsTelling(t: Tables, step: Step)
    requires RowsTell(t)
    ensures RowsTell(Next(t, step))
  {
    if !Moves(step) {
      QuietCallLives(t, step);
      LivingRowsTell(t, Next(t, step));
    } else if step.StepSendBudget? || step.StepApproveBudget? || step.StepDecideBudget? {
      BudgetCallLives(t, step);
      LivingRowsTell(t, Next(t, step));
    } else if Call(t, step).Committed? {
      match step
      case StepReconcile(o) =>
        ReconcileLives(t, o);
        LivingRowsTell(t, Next(t, step));
      case StepReceiveGoods(r, units) =>
        GoodsInTells(t, r, units);
        ReceiptLives(t, r, units);
        LivingRowsTell(GoodsIn(t, r, units), Next(t, step));
      case StepFulfillWithdrawal(w) => FulfilmentTells(t, w);
      case StepRequestWithdrawal(o, p, units) => RequestTells(t, o, p, units);
    }
  }

  /** So it is in every reachable state. */
  lemma {:induction false} EveryRunTells(steps: seq<Step>)
    ensures RowsTell(Run(Empty, steps))
  {
    if steps != [] {
      EveryRunTells(steps[..|steps| - 1]);
      EveryCallKeepsTelling(Run(Empty, steps[..|steps| - 1]), steps[|steps| - 1]);
    }
  }

  // ---- receipts ----

  /** Goods can be received exactly for an open request, in a positive quantity. The receipt is filed, the request is
      received, and the product's stock grows by the quantity. */
  lemma ReceiptDoes(t: Tables, r: nat, quantity: int)
    requires Sound(t)
    ensures ReceiveGoods(t, r, quantity).Committed? <==>
            && r < |t.requests| && quantity > 0 && (t.requests[r].status == Pending || t.requests[r].status == Ordered)
    ensures ReceiveGoods(t, r, quantity).Committed? ==>
              var t', p := ReceiveGoods(t, r, quantity).tables, t.requests[r].product;
              && p < |t.stock| && t'.stock == t.stock[p := t.stock[p] + quantity]
              && t'.receipts == t.receipts + [Receipt(r, quantity)]
              && r < |t'.requests| && t'.requests[r] == t.requests[r].(status := PurchaseStatus.Received)
  {
    if r < |t.requests| && quantity > 0 && (t.requests[r].status == Pending || t.requests[r].status == Ordered) {
      GoodsInKeepsSound(t, r, quantity);
      if t.requests[r].order.Some? { ReconcileLeavesStock(GoodsIn(t, r, quantity), t.requests[r].order.value); }
      ReceiptLives(t, r, quantity);
    }
  }

  lemma ReconcileLeavesStock(t: Tables, o: nat)
    requires Sound(t) && o < |t.orders|
    ensures Reconcile(t, o).Committed? && Reconcile(t, o).tables.stock == t.stock
  {
    if Waiting(t.orders[o].status) { ReconcileRows(t, o); }
  }
}
