/** What reconciling an order guarantees to it and to everyone it competes with. */
module Fairness {
  import opened Schema
  import opened Reservations
  import opened Purchases
  import opened AgeQueue
  import opened Greedy
  import opened Inventory

  // ---- the order table under a reconcile ----

  /** Orders change only in status, and only between the two waiting statuses. */
  ghost predicate OnlyWaitingMoves(orders': seq<Order>, orders: seq<Order>) {
    && |orders'| == |orders|
    && forall x :: 0 <= x < |orders| ==>
         && orders'[x] == orders[x].(status := orders'[x].status)
         && (orders'[x].status != orders[x].status ==> Waiting(orders[x].status) && Waiting(orders'[x].status))
  }

  lemma RefreshMovesOnlyWaiting(t: Tables, o: nat)
    requires RowsSound(t) && o < |t.orders| && Waiting(t.orders[o].status)
    ensures OnlyWaitingMoves(ReconcileWaiting(t, o).orders, t.orders)
  {
  }

  lemma SameQueues(orders': seq<Order>, orders: seq<Order>, p: nat)
    requires OnlyWaitingMoves(orders', orders)
    ensures Queue(orders', p) == Queue(orders, p)
    ensures Demands(orders', p) == Demands(orders, p)
  {
    QueueFrame(orders, orders', p);
  }

  lemma ReconcileRows(t: Tables, o: nat)
    requires RowsSound(t) && o < |t.orders| && Waiting(t.orders[o].status)
    ensures var t' := ReconcileWaiting(t, o);
            && t' == t.(orders := t'.orders, reservations := t'.reservations, requests := t'.requests)
            && RowsSound(t')
            && RequestsGrow(t.requests, t'.requests)
            && OnlyWaitingMoves(t'.orders, t.orders)
  {
    ReallocateRows(t, o);
    RefreshMovesOnlyWaiting(t, o);
  }

  // ---- first come, first served ----

  /** Every order in the queue of one of o's products ends with exactly what the orders ahead of it leave of the stock
      that nobody outside the queue holds, up to its demand, and with the rest of its demand on order. */
  lemma FirstComeFirstServed(t: Tables, o: nat, p: nat, k: nat)
    requires RowsSound(t) && o < |t.orders| && Waiting(t.orders[o].status)
    requires p in Items(t.orders[o].products) && p < |t.stock| && k < |Queue(t.orders, p)|
    ensures var t' := ReconcileWaiting(t, o);
            var x := Queue(t.orders, p)[k];
            var demand := Demands(t.orders, p);
            var free := Max(t.stock[p] - Held(t.reservations, Members(Queue(t.orders, p)), false, p), 0);
            && Qty(t'.reservations, x, p) == Min(demand[k], Max(free - Sum(demand[..k]), 0))
            && Qty(t'.reservations, x, p) + OnOrder(t'.requests, x, p) == demand[k]
  {
    ReallocateSettles(t, o, p);
    SettledAt(Reallocate(t, o), t, p, k);
    SameRows(t, o);
  }

  lemma SameRows(t: Tables, o: nat)
    requires o < |t.orders|
    ensures ReconcileWaiting(t, o).reservations == Reallocate(t, o).reservations
    ensures ReconcileWaiting(t, o).requests == Reallocate(t, o).requests
  {
  }

  lemma SettledAt(t': Tables, t: Tables, p: nat, k: nat)
    requires p < |t.stock| && Settled(t', t, p) && k < |Queue(t.orders, p)|
    ensures var x := Queue(t.orders, p)[k];
            var demand := Demands(t.orders, p);
            var free := Max(t.stock[p] - Held(t.reservations, Members(Queue(t.orders, p)), false, p), 0);
            && Qty(t'.reservations, x, p) == Min(demand[k], Max(free - Sum(demand[..k]), 0))
            && Qty(t'.reservations, x, p) + OnOrder(t'.requests, x, p) == demand[k]
  {
    ShareClosedForm(Demands(t.orders, p), Available(t, p), k);
    assert Qty(t'.reservations, Queue(t.orders, p)[k], p) == FairShares(t, p)[k];
  }

  /** Whoever ends short of p leaves nothing of p to anyone behind: the fully served form a prefix. */
  lemma NobodyIsServedPastAShortage(t: Tables, o: nat, p: nat, i: nat, j: nat)
    requires RowsSound(t) && o < |t.orders| && Waiting(t.orders[o].status)
    requires p in Items(t.orders[o].products) && p < |t.stock| && i < j < |Queue(t.orders, p)|
    requires Qty(ReconcileWaiting(t, o).reservations, Queue(t.orders, p)[i], p) < Demands(t.orders, p)[i]
    ensures Qty(ReconcileWaiting(t, o).reservations, Queue(t.orders, p)[j], p) == 0
  {
    ReallocateSettles(t, o, p);
    ShortageBlocksTheRest(Demands(t.orders, p), Available(t, p), i, j);
  }

  /** All active reservations of p after a reconcile: those outside the queue, untouched, plus as much of the
      queue's demand as the rest of the stock covers. So the bound by the stock is restored
      exactly when the reservations outside the queue fit in it. */
  lemma TotalAfterReconcile(t: Tables, o: nat, p: nat)
    requires RowsSound(t) && o < |t.orders| && Waiting(t.orders[o].status)
    requires p in Items(t.orders[o].products) && p < |t.stock|
    ensures var t' := ReconcileWaiting(t, o);
            var outside := Held(t.reservations, Members(Queue(t.orders, p)), false, p);
            && Total(t'.reservations, p) == outside + Min(Sum(Demands(t.orders, p)), Max(t.stock[p] - outside, 0))
            && (Total(t'.reservations, p) <= t.stock[p] <==> outside <= t.stock[p])
  {
    var t' := ReconcileWaiting(t, o);
    var queue := Queue(t.orders, p);
    ReallocateSettles(t, o, p);
    NoRepeats(t.orders, queue);
    HeldPeel(t'.reservations, {}, queue, FairShares(t, p), p);
    assert {} + Members(queue) == Members(queue);
    QueueIsBeyond(t.orders, p);
    ReallocateHeld(t, o, Members(queue), false, p);
    ShareTotal(Demands(t.orders, p), Available(t, p));
  }

  /** Nothing in stock is left unreserved while somebody is short: if any order that waits for one of o's products ends
      with less than it asks for, all of the stock is reserved. */
  lemma NothingLiesFree(t: Tables, o: nat, p: nat, x: nat)
    requires RowsSound(t) && o < |t.orders| && Waiting(t.orders[o].status)
    requires p in Items(t.orders[o].products) && p < |t.stock|
    requires x < |t.orders| && Waiting(t.orders[x].status)
    requires Qty(ReconcileWaiting(t, o).reservations, x, p) < Required(t.orders[x].products, p)
    ensures Total(ReconcileWaiting(t, o).reservations, p) >= t.stock[p]
  {
    var queue, demand := Queue(t.orders, p), Demands(t.orders, p);
    assert x in queue;
    var k :| 0 <= k < |queue| && queue[k] == x;
    ReallocateSettles(t, o, p);
    ShortMeansUsedUp(demand, Available(t, p), k);
    TotalAfterReconcile(t, o, p);
  }

  /** Whoever is served short has used up the supply. */
  lemma ShortMeansUsedUp(demands: seq<nat>, supply: nat, k: nat)
    requires k < |demands| && Share(demands, supply)[k] < demands[k]
    ensures Sum(demands) > supply
  {
    ShareClosedForm(demands, supply, k);
    SumPrefixGrows(demands, k, |demands|);
    assert demands[..|demands|] == demands;
  }

  /** No order ever holds more of a product than it asks for, once its own queue position is settled. */
  lemma ReservedWithinScope(t: Tables, o: nat, x: nat, p: nat)
    requires RowsSound(t) && o < |t.orders| && Waiting(t.orders[o].status) && x < |t.orders|
    requires x == o || Qty(t.reservations, x, p) <= Required(t.orders[x].products, p)
    ensures Qty(ReconcileWaiting(t, o).reservations, x, p) <= Required(t.orders[x].products, p)
  {
    var lines := t.orders[o].products;
    if p in Items(lines) && x in Queue(t.orders, p) {
      if p < |t.stock| {
        var k :| 0 <= k < |Queue(t.orders, p)| && Queue(t.orders, p)[k] == x;
        FirstComeFirstServed(t, o, p, k);
      } else {
        ReconcileRows(t, o);
        QtyZero(ReconcileWaiting(t, o).reservations, x, p);
      }
    } else {
      if x == o && p in Items(lines) { RequestedIsQueued(t, o, p); assert false; }
      assert x !in Queue(t.orders, p) ==> Beyond(Queue(t.orders, p), {x}, true);
      ReallocateHeld(t, o, {x}, true, p);
    }
  }

  /** Orders that are not waiting keep every unit they hold, and everything on order for them. */
  lemma OthersKeepTheirs(t: Tables, o: nat, x: nat, p: nat)
    requires RowsSound(t) && o < |t.orders| && Waiting(t.orders[o].status)
    requires x != o
    requires p !in Items(t.orders[o].products) || x >= |t.orders| || !Queued(t.orders[x], p)
    ensures Qty(ReconcileWaiting(t, o).reservations, x, p) == Qty(t.reservations, x, p)
    ensures OnOrder(ReconcileWaiting(t, o).requests, x, p) == OnOrder(t.requests, x, p)
  {
    if p in Items(t.orders[o].products) {
      assert x !in Queue(t.orders, p);
      assert Beyond(Queue(t.orders, p), {x}, true);
    }
    ReallocateHeld(t, o, {x}, true, p);
    ReallocateOnOrder(t, o, x, p);
  }

  /** An order gives up what it no longer asks for; the purchase request that was opened for it stays open. */
  lemma DroppedProducts(t: Tables, o: nat, q: nat)
    requires RowsSound(t) && o < |t.orders| && Waiting(t.orders[o].status)
    requires q !in Items(t.orders[o].products)
    ensures Qty(ReconcileWaiting(t, o).reservations, o, q) == 0
    ensures OnOrder(ReconcileWaiting(t, o).requests, o, q) == OnOrder(t.requests, o, q)
  {
    ReallocateHeld(t, o, {o}, true, q);
    ReallocateOnOrder(t, o, o, q);
  }

  // ---- statuses ----

  /** A waiting order is ready to start exactly when it holds everything it asks for. */
  ghost predicate StatusExact(orders: seq<Order>, rs: seq<Reservation>, x: nat)
    requires x < |orders|
  {
    Waiting(orders[x].status) ==> (orders[x].status == AguardandoInicio <==> Covered(orders[x], x, rs))
  }

  lemma NonCandidateIsNotQueued(orders: seq<Order>, o: nat, x: nat, p: nat)
    requires o < |orders| && x < |orders| && !Candidate(orders, o, x)
    ensures p !in Items(orders[o].products) || !Queued(orders[x], p)
  {
  }

  /** A reconcile keeps every other status exact and makes its own exact: each order whose
      reservations it moves is among those it refreshes. */
  lemma ReconcileStatuses(t: Tables, o: nat, x: nat)
    requires RowsSound(t) && o < |t.orders| && Waiting(t.orders[o].status) && x < |t.orders|
    requires x == o || StatusExact(t.orders, t.reservations, x)
    ensures var t' := ReconcileWaiting(t, o);
            |t'.orders| == |t.orders| && StatusExact(t'.orders, t'.reservations, x)
  {
    var t' := ReconcileWaiting(t, o);
    ShortIsNotCovered(t.orders[x], x, t'.reservations);
    if !Candidate(t.orders, o, x) && Waiting(t.orders[x].status) {
      forall p ensures Required(t.orders[x].products, p) <= Qty(t'.reservations, x, p) <==>
                       Required(t.orders[x].products, p) <= Qty(t.reservations, x, p)
      {
        if Required(t.orders[x].products, p) > 0 {
          NonCandidateIsNotQueued(t.orders, o, x, p);
          OthersKeepTheirs(t, o, x, p);
        }
      }
    }
  }

  // ---- running it again ----

  lemma AllocateQueueIdle(t: Tables, p: nat)
    requires RowsSound(t) && p < |t.stock| && Settled(t, t, p)
    ensures AllocateQueue(t, p) == t
  {
    ReserveAllIdle(t.reservations, p, Queue(t.orders, p), FairShares(t, p));
    BackorderAllIdle(t.requests, p, Queue(t.orders, p), Shortfalls(t, p));
  }

  lemma {:induction false} AllocateProductsIdle(t: Tables, ps: seq<nat>)
    requires RowsSound(t)
    requires forall p :: p in ps && p < |t.stock| ==> Settled(t, t, p)
    ensures AllocateProducts(t, ps) == t
  {
    if ps != [] {
      var n := |ps| - 1;
      var p := ps[n];
      AllocateProductsIdle(t, ps[..n]);
      if p < |t.stock| { AllocateQueueIdle(t, p); }
    }
  }

  lemma SettledAgain(t: Tables, o: nat, p: nat)
    requires RowsSound(t) && o < |t.orders| && Waiting(t.orders[o].status)
    requires p in Items(t.orders[o].products) && p < |t.stock|
    ensures var t' := ReconcileWaiting(t, o); t'.stock == t.stock && Settled(t', t', p)
  {
    var t' := ReconcileWaiting(t, o);
    ReconcileRows(t, o);
    SameQueues(t'.orders, t.orders, p);
    ReallocateSettles(t, o, p);
    QueueIsBeyond(t.orders, p);
    ReallocateHeld(t, o, Members(Queue(t.orders, p)), false, p);
    SharesFrame(t', t, p);
  }

  /** Reconciling twice is reconciling once, down to the last row. */
  lemma ReconcileIdempotent(t: Tables, o: nat)
    requires RowsSound(t) && o < |t.orders|
    ensures Reconcile(t, o).Committed?
    ensures Reconcile(Reconcile(t, o).tables, o) == Reconcile(t, o)
  {
    if Waiting(t.orders[o].status) {
      var t' := ReconcileWaiting(t, o);
      var lines := t.orders[o].products;
      ReconcileRows(t, o);
      forall q | q !in Items(lines) ensures Qty(t'.reservations, o, q) == 0 { DroppedProducts(t, o, q); }
      ReleaseEffect(t'.reservations, o, Items(lines));
      forall p | p in SortedItems(lines) && p < |t'.stock| ensures Settled(t', t', p) { SettledAgain(t, o, p); }
      AllocateProductsIdle(t', SortedItems(lines));
      assert Reallocate(t', o) == t';
      RefreshAgain(t, o);
    } else {
      var t' := ReleaseOrder(t, o);
      ReleaseEffect(t.reservations, o, {});
      ReleaseEffect(t'.reservations, o, {});
      CancelAllEffect(t.requests, o);
    }
  }

  lemma RefreshAgain(t: Tables, o: nat)
    requires RowsSound(t) && o < |t.orders| && Waiting(t.orders[o].status)
    ensures var t' := ReconcileWaiting(t, o);
            |t'.orders| == |t.orders| && RefreshStatuses(t'.orders, o, t'.reservations) == t'.orders
  {
  }

  // ---- more stock, younger orders ----

  /** More stock of a product never lowers what any order in its queue gets. */
  lemma MoreStockNeverHurts(t: Tables, o: nat, p: nat, extra: nat, k: nat)
    requires RowsSound(t) && o < |t.orders| && Waiting(t.orders[o].status)
    requires p in Items(t.orders[o].products) && p < |t.stock| && k < |Queue(t.orders, p)|
    ensures var more := t.(stock := t.stock[p := t.stock[p] + extra]);
            var x := Queue(t.orders, p)[k];
            Qty(ReconcileWaiting(t, o).reservations, x, p) <= Qty(ReconcileWaiting(more, o).reservations, x, p)
  {
    var more := t.(stock := t.stock[p := t.stock[p] + extra]);
    ReallocateSettles(t, o, p);
    ReallocateSettles(more, o, p);
    ShareMonotone(Demands(t.orders, p), Available(t, p), Available(more, p), k);
  }

  /** Adding an order that is younger than all others changes no older order's allocation. */
  lemma YoungerOrderNeverHurts(t: Tables, o: nat, p: nat, young: Order, k: nat)
    requires RowsSound(t) && o < |t.orders| && Waiting(t.orders[o].status)
    requires p in Items(t.orders[o].products) && p < |t.stock| && k < |Queue(t.orders, p)|
    requires forall x :: 0 <= x < |t.orders| ==> t.orders[x].createdAt <= young.createdAt
    requires Queued(young, p)
    ensures var x := Queue(t.orders, p)[k];
            Qty(ReconcileWaiting(t.(orders := t.orders + [young]), o).reservations, x, p) ==
            Qty(ReconcileWaiting(t, o).reservations, x, p)
  {
    var joined := t.(orders := t.orders + [young]);
    var queue := Queue(t.orders, p);
    ReallocateSettles(t, o, p);
    ReallocateSettles(joined, o, p);
    JoinedShares(t, p, young);
    assert Queue(joined.orders, p)[k] == queue[k];
    assert FairShares(joined, p)[..|queue|][k] == FairShares(joined, p)[k];
  }

  lemma JoinedShares(t: Tables, p: nat, young: Order)
    requires RowsSound(t) && p < |t.stock| && Queued(young, p)
    requires forall x :: 0 <= x < |t.orders| ==> t.orders[x].createdAt <= young.createdAt
    ensures var joined := t.(orders := t.orders + [young]);
            && Queue(joined.orders, p) == Queue(t.orders, p) + [|t.orders|]
            && FairShares(joined, p)[..|Queue(t.orders, p)|] == FairShares(t, p)
  {
    var joined := t.(orders := t.orders + [young]);
    var n := |t.orders|;
    var queue := Queue(t.orders, p);
    YoungestJoinsLast(t.orders, young, p);
    assert Members(queue + [n]) == Members(queue) + {n};
    HeldSplit(t.reservations, Members(queue), n, p);
    QtyZero(t.reservations, n, p);
    assert Demands(joined.orders, p) == Demands(t.orders, p) + [Required(young.products, p)];
    ShareOfPrefix(Demands(t.orders, p), [Required(young.products, p)], Available(t, p));
  }
}
