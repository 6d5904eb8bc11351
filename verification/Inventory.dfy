/** The reservation engine: first-come first-served allocation, back-orders and the status refresh. */
module Inventory {
  import opened Schema
  import opened Reservations
  import opened Purchases
  import opened AgeQueue
  import opened Greedy

  /** What both row tables keep under every step. */
  ghost predicate RowsSound(t: Tables) {
    && OneActive(t.reservations)
    && OneOpen(t.requests)
    && RowsRefer(t.reservations, |t.orders|, |t.stock|)
    && RequestsRefer(t.requests, |t.orders|, |t.stock|)
  }

  // ---- one product ----

  /** Stock of p that reservations outside p's queue do not hold. */
  function Available(t: Tables, p: nat): nat
    requires p < |t.stock|
  {
    Max(t.stock[p] - Held(t.reservations, Members(Queue(t.orders, p)), false, p), 0)
  }

  function Demands(orders: seq<Order>, p: nat): (d: seq<nat>)
    ensures |d| == |Queue(orders, p)|
    ensures forall k :: 0 <= k < |d| ==>
              Queue(orders, p)[k] < |orders| && d[k] == Required(orders[Queue(orders, p)[k]].products, p)
  {
    var queue := Queue(orders, p);
    seq(|queue|, k requires 0 <= k < |queue| => Required(orders[queue[k]].products, p))
  }

  /** What the greedy rule gives each place of p's queue. */
  function FairShares(t: Tables, p: nat): (s: seq<nat>)
    requires p < |t.stock|
    ensures |s| == |Queue(t.orders, p)|
  {
    Share(Demands(t.orders, p), Available(t, p))
  }

  function Shortfalls(t: Tables, p: nat): (s: seq<nat>)
    requires p < |t.stock|
    ensures |s| == |Queue(t.orders, p)|
    ensures forall k :: 0 <= k < |s| ==> s[k] + FairShares(t, p)[k] == Demands(t.orders, p)[k]
  {
    var d, s := Demands(t.orders, p), FairShares(t, p);
    ShareWithinDemand(d, Available(t, p));
    seq(|d|, k requires 0 <= k < |d| => d[k] - s[k])
  }

  /** Reconcile the queue of one product; a product that does not exist is skipped. */
  function AllocateQueue(t: Tables, p: nat): Tables {
    if p < |t.stock| then
      t.(reservations := ReserveAll(t.reservations, p, Queue(t.orders, p), FairShares(t, p)),
         requests := BackorderAll(t.requests, p, Queue(t.orders, p), Shortfalls(t, p)))
    else t
  }

  /** In t', every order queued for p holds its fair share of t and has exactly the rest on order. */
  ghost predicate Settled(t': Tables, t: Tables, p: nat)
    requires p < |t.stock|
  {
    forall k :: 0 <= k < |Queue(t.orders, p)| ==>
      && Qty(t'.reservations, Queue(t.orders, p)[k], p) == FairShares(t, p)[k]
      && OnOrder(t'.requests, Queue(t.orders, p)[k], p) == Shortfalls(t, p)[k]
  }

  ghost predicate RowsStep(t': Tables, t: Tables) {
    && t' == t.(reservations := t'.reservations, requests := t'.requests)
    && RowsSound(t')
    && RequestsGrow(t.requests, t'.requests)
  }

  lemma AllocateQueueRows(t: Tables, p: nat)
    requires RowsSound(t)
    ensures RowsStep(AllocateQueue(t, p), t)
  {
    if p < |t.stock| {
      ReserveAllSound(t.reservations, p, Queue(t.orders, p), FairShares(t, p), |t.orders|, |t.stock|);
      BackorderAllSound(t.requests, p, Queue(t.orders, p), Shortfalls(t, p), |t.orders|, |t.stock|);
    }
  }

  /** Allocation hands out exactly the greedy shares. */
  lemma AllocateQueueSettles(t: Tables, p: nat)
    requires RowsSound(t) && p < |t.stock|
    ensures Settled(AllocateQueue(t, p), t, p)
  {
    var queue := Queue(t.orders, p);
    NoRepeats(t.orders, queue);
    forall k | 0 <= k < |queue|
      ensures Qty(AllocateQueue(t, p).reservations, queue[k], p) == FairShares(t, p)[k]
      ensures OnOrder(AllocateQueue(t, p).requests, queue[k], p) == Shortfalls(t, p)[k]
    {
      ReserveAllGives(t.reservations, p, queue, FairShares(t, p), k);
      BackorderAllUnits(t.requests, p, queue, Shortfalls(t, p), queue[k], p);
    }
  }

  /** Sums that count no order of p's queue, or another product, stay as they were. */
  lemma AllocateQueueHeld(t: Tables, p: nat, ids: set<nat>, inside: bool, q: nat)
    requires RowsSound(t)
    requires q != p || Beyond(Queue(t.orders, p), ids, inside)
    ensures Held(AllocateQueue(t, p).reservations, ids, inside, q) == Held(t.reservations, ids, inside, q)
  {
    if p < |t.stock| {
      ReserveAllKeeps(t.reservations, p, Queue(t.orders, p), FairShares(t, p), ids, inside, q);
    }
  }

  lemma AllocateQueueOnOrder(t: Tables, p: nat, x: nat, q: nat)
    requires RowsSound(t)
    requires q != p || x !in Queue(t.orders, p)
    ensures OnOrder(AllocateQueue(t, p).requests, x, q) == OnOrder(t.requests, x, q)
  {
    if p < |t.stock| {
      NoRepeats(t.orders, Queue(t.orders, p));
      BackorderAllUnits(t.requests, p, Queue(t.orders, p), Shortfalls(t, p), x, q);
    }
  }

  // ---- all products of one order ----

  function AllocateProducts(t: Tables, ps: seq<nat>): (t': Tables)
    ensures t'.orders == t.orders
  {
    if ps == [] then t
    else AllocateQueue(AllocateProducts(t, ps[..|ps| - 1]), ps[|ps| - 1])
  }

  lemma {:induction false} AllocateProductsRows(t: Tables, ps: seq<nat>)
    requires RowsSound(t)
    ensures RowsStep(AllocateProducts(t, ps), t)
  {
    if ps != [] {
      AllocateProductsRows(t, ps[..|ps| - 1]);
      AllocateQueueRows(AllocateProducts(t, ps[..|ps| - 1]), ps[|ps| - 1]);
    }
  }

  lemma {:induction false} AllocateProductsHeld(t: Tables, ps: seq<nat>, ids: set<nat>, inside: bool, q: nat)
    requires RowsSound(t)
    requires q !in ps || Beyond(Queue(t.orders, q), ids, inside)
    ensures Held(AllocateProducts(t, ps).reservations, ids, inside, q) == Held(t.reservations, ids, inside, q)
  {
    if ps != [] {
      var n := |ps| - 1;
      AllocateProductsRows(t, ps[..n]);
      AllocateProductsHeld(t, ps[..n], ids, inside, q);
      AllocateQueueHeld(AllocateProducts(t, ps[..n]), ps[n], ids, inside, q);
    }
  }

  lemma {:induction false} AllocateProductsOnOrder(t: Tables, ps: seq<nat>, x: nat, q: nat)
    requires RowsSound(t)
    requires q !in ps || x !in Queue(t.orders, q)
    ensures OnOrder(AllocateProducts(t, ps).requests, x, q) == OnOrder(t.requests, x, q)
  {
    if ps != [] {
      var n := |ps| - 1;
      AllocateProductsRows(t, ps[..n]);
      AllocateProductsOnOrder(t, ps[..n], x, q);
      AllocateQueueOnOrder(AllocateProducts(t, ps[..n]), ps[n], x, q);
    }
  }

  lemma QueueIsBeyond(orders: seq<Order>, p: nat)
    ensures Beyond(Queue(orders, p), Members(Queue(orders, p)), false)
  {
  }

  /** Tables that differ only in other products' rows have the same fair shares. */
  lemma SharesFrame(t1: Tables, t: Tables, p: nat)
    requires t1.stock == t.stock && p < |t.stock| && Queue(t1.orders, p) == Queue(t.orders, p)
    requires Demands(t1.orders, p) == Demands(t.orders, p)
    requires var ids := Members(Queue(t.orders, p));
             Held(t1.reservations, ids, false, p) == Held(t.reservations, ids, false, p)
    ensures FairShares(t1, p) == FairShares(t, p) && Shortfalls(t1, p) == Shortfalls(t, p)
  {
  }

  /** Products do not disturb each other: after all of them, each is settled as of the start. */
  lemma {:induction false} AllocateProductsSettle(t: Tables, ps: seq<nat>, p: nat)
    requires RowsSound(t) && Distinct(ps) && p in ps && p < |t.stock|
    ensures Settled(AllocateProducts(t, ps), t, p)
  {
    var n := |ps| - 1;
    var t1 := AllocateProducts(t, ps[..n]);
    AllocateProductsRows(t, ps[..n]);
    if ps[n] == p {
      QueueIsBeyond(t.orders, p);
      AllocateProductsHeld(t, ps[..n], Members(Queue(t.orders, p)), false, p);
      SharesFrame(t1, t, p);
      AllocateQueueSettles(t1, p);
    } else {
      AllocateProductsSettle(t, ps[..n], p);
      forall k | 0 <= k < |Queue(t.orders, p)|
        ensures Qty(AllocateProducts(t, ps).reservations, Queue(t.orders, p)[k], p) == FairShares(t, p)[k]
        ensures OnOrder(AllocateProducts(t, ps).requests, Queue(t.orders, p)[k], p) == Shortfalls(t, p)[k]
      {
        AllocateQueueHeld(t1, ps[n], {Queue(t.orders, p)[k]}, true, p);
        AllocateQueueOnOrder(t1, ps[n], Queue(t.orders, p)[k], p);
      }
    }
  }

  // ---- one order ----

  function Bound(lines: seq<Line>): (n: nat)
    ensures forall k :: 0 <= k < |lines| ==> lines[k].item < n
  {
    if lines == [] then 0 else Max(Bound(lines[..|lines| - 1]), lines[|lines| - 1].item + 1)
  }

  function ItemsBelow(lines: seq<Line>, n: nat): (ps: seq<nat>)
    ensures forall p: nat :: p in ps <==> p < n && Required(lines, p) > 0
    ensures forall j, k :: 0 <= j < k < |ps| ==> ps[j] < ps[k]
  {
    if n == 0 then []
    else
      var ps := ItemsBelow(lines, n - 1);
      assert forall k :: 0 <= k < |ps| ==> ps[k] in ps;
      if Required(lines, n - 1) > 0 then ps + [n - 1] else ps
  }

  /** The products an order asks for, in ascending order. */
  function SortedItems(lines: seq<Line>): (ps: seq<nat>)
    ensures forall p: nat :: p in ps <==> p in Items(lines)
    ensures Distinct(ps)
  {
    var ps := ItemsBelow(lines, Bound(lines));
    assert forall p: nat :: p in ps <==> p in Items(lines) by {
      forall p: nat ensures p in ps <==> p in Items(lines) { RequiredIffListed(lines, p); }
    }
    ps
  }

  /** Some line's product is not fully covered by the order's own active reservations. */
  predicate Short(o: Order, x: nat, rs: seq<Reservation>) {
    exists k :: 0 <= k < |o.products| && Qty(rs, x, o.products[k].item) < Required(o.products, o.products[k].item)
  }

  ghost predicate Covered(o: Order, x: nat, rs: seq<Reservation>) {
    forall p :: Required(o.products, p) <= Qty(rs, x, p)
  }

  lemma ShortIsNotCovered(o: Order, x: nat, rs: seq<Reservation>)
    ensures Short(o, x, rs) <==> !Covered(o, x, rs)
  {
    if !Covered(o, x, rs) {
      var p :| Qty(rs, x, p) < Required(o.products, p);
      RequiredIffListed(o.products, p);
      var k :| 0 <= k < |o.products| && o.products[k].item == p;
    }
  }

  function Target(o: Order, x: nat, rs: seq<Reservation>): OrderStatus {
    if Short(o, x, rs) then AguardandoCompra else AguardandoInicio
  }

  /** The orders whose status a reconcile of o looks at: o, and everyone queued for one of o's products. */
  predicate Candidate(orders: seq<Order>, o: nat, x: nat)
    requires o < |orders| && x < |orders|
  {
    x == o || exists k :: 0 <= k < |orders[o].products| && Queued(orders[x], orders[o].products[k].item)
  }

  function RefreshStatuses(orders: seq<Order>, o: nat, rs: seq<Reservation>): (orders': seq<Order>)
    requires o < |orders|
    ensures |orders'| == |orders|
  {
    seq(|orders|, x requires 0 <= x < |orders| =>
      if Candidate(orders, o, x) then orders[x].(status := Target(orders[x], x, rs)) else orders[x])
  }

  /** The part of a reconcile that moves rows: drop what o no longer needs, then serve its products' queues. */
  function Reallocate(t: Tables, o: nat): (t': Tables)
    requires o < |t.orders|
    ensures t'.orders == t.orders
  {
    var lines := t.orders[o].products;
    AllocateProducts(t.(reservations := ReleaseExcept(t.reservations, o, Items(lines))), SortedItems(lines))
  }

  function ReconcileWaiting(t: Tables, o: nat): Tables
    requires o < |t.orders|
  {
    var t' := Reallocate(t, o);
    t'.(orders := RefreshStatuses(t'.orders, o, t'.reservations))
  }

  /** Release everything an order holds and cancel what is on order for it. */
  function ReleaseOrder(t: Tables, o: nat): Tables {
    t.(reservations := ReleaseExcept(t.reservations, o, {}), requests := CancelAll(t.requests, o))
  }

  function Reconcile(t: Tables, o: nat): Outcome {
    if o >= |t.orders| then RolledBack(NotFound)
    else if !Waiting(t.orders[o].status) then Committed(ReleaseOrder(t, o))
    else Committed(ReconcileWaiting(t, o))
  }

  // ---- what a reconcile does ----

  lemma ReallocateRows(t: Tables, o: nat)
    requires RowsSound(t) && o < |t.orders|
    ensures RowsStep(Reallocate(t, o), t)
  {
    var lines := t.orders[o].products;
    ReleaseEffect(t.reservations, o, Items(lines));
    AllocateProductsRows(t.(reservations := ReleaseExcept(t.reservations, o, Items(lines))), SortedItems(lines));
  }

  /** A sum that counts nobody who queues for q changes only by what o drops. */
  lemma ReallocateHeld(t: Tables, o: nat, ids: set<nat>, inside: bool, q: nat)
    requires RowsSound(t) && o < |t.orders|
    requires q !in Items(t.orders[o].products) || Beyond(Queue(t.orders, q), ids, inside)
    ensures Held(Reallocate(t, o).reservations, ids, inside, q) == Held(t.reservations, ids, inside, q) -
            if q !in Items(t.orders[o].products) && (o in ids) == inside then Qty(t.reservations, o, q) else 0
  {
    var lines := t.orders[o].products;
    ReleaseEffect(t.reservations, o, Items(lines));
    ReleaseHeld(t.reservations, o, Items(lines), ids, inside, q);
    AllocateProductsHeld(t.(reservations := ReleaseExcept(t.reservations, o, Items(lines))), SortedItems(lines), ids, inside, q);
  }

  lemma ReallocateOnOrder(t: Tables, o: nat, x: nat, q: nat)
    requires RowsSound(t) && o < |t.orders|
    requires q !in Items(t.orders[o].products) || x !in Queue(t.orders, q)
    ensures OnOrder(Reallocate(t, o).requests, x, q) == OnOrder(t.requests, x, q)
  {
    var lines := t.orders[o].products;
    ReleaseEffect(t.reservations, o, Items(lines));
    AllocateProductsOnOrder(t.(reservations := ReleaseExcept(t.reservations, o, Items(lines))), SortedItems(lines), x, q);
  }

  lemma ReallocateSettles(t: Tables, o: nat, p: nat)
    requires RowsSound(t) && o < |t.orders| && p in Items(t.orders[o].products) && p < |t.stock|
    ensures Settled(Reallocate(t, o), t, p)
  {
    var lines := t.orders[o].products;
    var t1 := t.(reservations := ReleaseExcept(t.reservations, o, Items(lines)));
    ReleaseEffect(t.reservations, o, Items(lines));
    ReleaseHeld(t.reservations, o, Items(lines), Members(Queue(t.orders, p)), false, p);
    SharesFrame(t1, t, p);
    AllocateProductsSettle(t1, SortedItems(lines), p);
  }

  /** The order being reconciled is always in the queue of each of its products already,
      so the step that would append it never has anything to do. */
  lemma RequestedIsQueued(t: Tables, o: nat, p: nat)
    requires o < |t.orders| && Waiting(t.orders[o].status) && p in Items(t.orders[o].products)
    ensures o in Queue(t.orders, p)
  {
    RequiredIffListed(t.orders[o].products, p);
  }
}
