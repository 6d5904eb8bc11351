/** The inventory service over a live database: the loops of the service, each proved equal to the step it implements. */
module InventoryService {
  import opened Schema
  import opened Reservations
  import opened Purchases
  import opened AgeQueue
  import opened Greedy
  import opened Inventory
  import Workshop

  lemma {:induction false} SumNext(s: seq<nat>, k: nat)
    requires k < |s|
    ensures Sum(s[..k + 1]) == Sum(s[..k]) + s[k]
  {
    if k == 0 {
      assert s[..1] == [s[0]] && s[..0] == [];
      assert [s[0]][1..] == [];
    } else {
      SumNext(s[1..], k - 1);
      assert s[..k + 1][1..] == s[1..][..k] && s[..k][1..] == s[1..][..k - 1];
    }
  }

  /** What the loop over one product's queue has to work with, and the tables it starts from. */
  datatype Plan = Plan(p: nat, queue: seq<nat>, supply: nat, demands: seq<nat>, shares: seq<nat>, missing: seq<nat>, left: seq<nat>,
                       reservations: seq<Reservation>, requests: seq<PurchaseRequest>)

  /** What the first 0, 1, 2, ... demands leave of the supply. */
  function Leftovers(demands: seq<nat>, supply: nat): (left: seq<nat>)
    ensures |left| == |demands| + 1
  {
    seq(|demands| + 1, k requires 0 <= k <= |demands| => Max(supply - Sum(demands[..k]), 0))
  }

  predicate Shaped(plan: Plan) {
    |plan.queue| == |plan.demands| == |plan.shares| == |plan.missing| == |plan.left| - 1
  }

  /** Shares are the greedy ones, and what is missing makes up the demand. */
  ghost predicate Fair(plan: Plan) {
    && Shaped(plan)
    && plan.shares == Share(plan.demands, plan.supply)
    && plan.left == Leftovers(plan.demands, plan.supply)
    && forall k :: 0 <= k < |plan.queue| ==> plan.missing[k] + plan.shares[k] == plan.demands[k]
  }

  /** At place k as much as is left, up to the demand, is handed out; the rest of the demand is missing. */
  ghost predicate FairAt(plan: Plan, k: nat) {
    && Shaped(plan) && k < |plan.queue|
    && plan.shares[k] == Min(plan.demands[k], plan.left[k])
    && plan.missing[k] == plan.demands[k] - plan.shares[k]
    && plan.left[k + 1] == plan.left[k] - plan.shares[k]
  }

  /** The first k orders of the queue have their shares and their missing units on order; this much remains. */
  ghost predicate Served(plan: Plan, k: nat, remaining: int, rs: seq<Reservation>, requests: seq<PurchaseRequest>) {
    && Shaped(plan) && k <= |plan.queue|
    && remaining == plan.left[k]
    && rs == ReserveAll(plan.reservations, plan.p, plan.queue[..k], plan.shares[..k])
    && requests == BackorderAll(plan.requests, plan.p, plan.queue[..k], plan.missing[..k])
  }

  lemma NothingServed(plan: Plan)
    requires Shaped(plan) && plan.left[0] == plan.supply
    ensures Served(plan, 0, plan.supply, plan.reservations, plan.requests)
  {
  }

  lemma AllServed(plan: Plan, remaining: int, rs: seq<Reservation>, requests: seq<PurchaseRequest>)
    requires Served(plan, |plan.queue|, remaining, rs, requests)
    ensures rs == ReserveAll(plan.reservations, plan.p, plan.queue, plan.shares)
    ensures requests == BackorderAll(plan.requests, plan.p, plan.queue, plan.missing)
  {
    var n := |plan.queue|;
    assert plan.queue[..n] == plan.queue && plan.shares[..n] == plan.shares && plan.missing[..n] == plan.missing;
  }

  /** Taking the smaller of demand and remainder, place after place, is the greedy rule. */
  lemma TurnIsGreedy(plan: Plan, k: nat)
    requires Fair(plan) && k < |plan.queue|
    ensures FairAt(plan, k)
  {
    ShareClosedForm(plan.demands, plan.supply, k);
    SumNext(plan.demands, k);
  }

  /** The plan for the queue of p. */
  ghost function PlanOf(t: Tables, p: nat): Plan
    requires p < |t.stock|
  {
    var demands, supply := Demands(t.orders, p), Available(t, p);
    Plan(p, Queue(t.orders, p), supply, demands, FairShares(t, p), Shortfalls(t, p), Leftovers(demands, supply), t.reservations, t.requests)
  }

  lemma PlanIsFair(t: Tables, p: nat)
    requires p < |t.stock|
    ensures Shaped(PlanOf(t, p)) && PlanOf(t, p).left[0] == Available(t, p)
    ensures forall k: nat :: k < |Queue(t.orders, p)| ==> FairAt(PlanOf(t, p), k)
  {
    forall k: nat | k < |Queue(t.orders, p)| ensures FairAt(PlanOf(t, p), k) { TurnIsGreedy(PlanOf(t, p), k); }
  }

  lemma ReserveAllNext(rs: seq<Reservation>, p: nat, queue: seq<nat>, shares: seq<nat>, k: nat)
    requires |queue| == |shares| && k < |queue|
    ensures ReserveAll(rs, p, queue[..k + 1], shares[..k + 1]) ==
            SetReservation(ReserveAll(rs, p, queue[..k], shares[..k]), queue[k], p, shares[k])
  {
    assert queue[..k + 1][..k] == queue[..k] && shares[..k + 1][..k] == shares[..k];
  }

  lemma BackorderAllNext(rs: seq<PurchaseRequest>, p: nat, queue: seq<nat>, missing: seq<nat>, k: nat)
    requires |queue| == |missing| && k < |queue|
    ensures BackorderAll(rs, p, queue[..k + 1], missing[..k + 1]) ==
            SetBackorder(BackorderAll(rs, p, queue[..k], missing[..k]), queue[k], p, missing[k])
  {
    assert queue[..k + 1][..k] == queue[..k] && missing[..k + 1][..k] == missing[..k];
  }

  lemma RowsNext(plan: Plan, k: nat, rs: seq<Reservation>, requests: seq<PurchaseRequest>)
    requires |plan.queue| == |plan.shares| == |plan.missing| && k < |plan.queue|
    requires rs == ReserveAll(plan.reservations, plan.p, plan.queue[..k], plan.shares[..k])
    requires requests == BackorderAll(plan.requests, plan.p, plan.queue[..k], plan.missing[..k])
    ensures SetReservation(rs, plan.queue[k], plan.p, plan.shares[k]) ==
            ReserveAll(plan.reservations, plan.p, plan.queue[..k + 1], plan.shares[..k + 1])
    ensures SetBackorder(requests, plan.queue[k], plan.p, plan.missing[k]) ==
            BackorderAll(plan.requests, plan.p, plan.queue[..k + 1], plan.missing[..k + 1])
  {
    ReserveAllNext(plan.reservations, plan.p, plan.queue, plan.shares, k);
    BackorderAllNext(plan.requests, plan.p, plan.queue, plan.missing, k);
  }

  lemma TurnNext(plan: Plan, k: nat, remaining: nat, rs: seq<Reservation>, requests: seq<PurchaseRequest>)
    requires FairAt(plan, k) && Served(plan, k, remaining, rs, requests)
    ensures var given := Min(plan.demands[k], remaining);
            Served(plan, k + 1, remaining - given, SetReservation(rs, plan.queue[k], plan.p, given),
                   SetBackorder(requests, plan.queue[k], plan.p, plan.demands[k] - given))
  {
    RowsNext(plan, k, rs, requests);
    ServedNext(plan, k, SetReservation(rs, plan.queue[k], plan.p, plan.shares[k]), SetBackorder(requests, plan.queue[k], plan.p, plan.missing[k]));
  }

  lemma ServedNext(plan: Plan, k: nat, rs: seq<Reservation>, requests: seq<PurchaseRequest>)
    requires Shaped(plan) && k < |plan.queue|
    requires rs == ReserveAll(plan.reservations, plan.p, plan.queue[..k + 1], plan.shares[..k + 1])
    requires requests == BackorderAll(plan.requests, plan.p, plan.queue[..k + 1], plan.missing[..k + 1])
    ensures Served(plan, k + 1, plan.left[k + 1], rs, requests)
  {
  }

  /** Required quantities per product, as the services collect them. */
  method RequiredByProduct(lines: seq<Line>) returns (required: map<nat, nat>)
    ensures forall p :: p in required <==> p in Items(lines)
    ensures forall p :: p in required ==> required[p] == Required(lines, p)
  {
    required := map[];
    for k := 0 to |lines|
      invariant forall p :: p in required <==> p in Items(lines[..k])
      invariant forall p :: p in required ==> required[p] == Required(lines[..k], p)
    {
      var line := lines[k];
      assert lines[..k + 1][..k] == lines[..k];
      assert Items(lines[..k + 1]) == Items(lines[..k]) + {line.item} by {
        forall x | x in Items(lines[..k]) ensures x in Items(lines[..k + 1]) {
          var i :| 0 <= i < k && lines[..k][i].item == x;
          assert lines[..k + 1][i].item == x;
        }
        assert lines[..k + 1][k].item == line.item;
        forall x | x in Items(lines[..k + 1]) ensures x in Items(lines[..k]) + {line.item} {
          var i :| 0 <= i < k + 1 && lines[..k + 1][i].item == x;
          assert i < k ==> lines[..k][i].item == x;
        }
      }
      RequiredIffListed(lines[..k], line.item);
      required := required[line.item := (if line.item in required then required[line.item] else 0) + line.quantity];
    }
    assert lines[..|lines|] == lines;
  }

  class Database {
    var stock: seq<int>
    var budgets: seq<Budget>
    var orders: seq<Order>
    var reservations: seq<Reservation>
    var requests: seq<PurchaseRequest>
    var receipts: seq<Receipt>
    var withdrawals: seq<Withdrawal>
    var invoices: seq<Invoice>

    ghost function Db(): Tables
      reads this
    {
      Tables(stock, budgets, orders, reservations, requests, receipts, withdrawals, invoices)
    }

    /** The units of p that active reservations outside the queue hold. */
    method ReservedOutside(p: nat, queueIds: set<nat>) returns (units: nat)
      ensures units == Held(reservations, queueIds, false, p)
    {
      units := 0;
      for i := 0 to |reservations|
        invariant units == Held(reservations[..i], queueIds, false, p)
      {
        assert reservations[..i + 1][..i] == reservations[..i];
        var r := reservations[i];
        if r.product == p && r.status == Active && r.order !in queueIds {
          units := units + r.quantity;
        }
      }
      assert reservations[..|reservations|] == reservations;
    }

    method ReconcileBackorder(o: nat, p: nat, missing: int)
      modifies this`requests
      ensures requests == SetBackorder(old(requests), o, p, missing)
    {
      var existing := FindOpen(requests, o, p);
      if missing <= 0 {
        if existing.Some? {
          requests := requests[existing.value := requests[existing.value].(status := PurchaseStatus.Cancelled)];
        }
        return;
      }
      if existing.Some? {
        requests := requests[existing.value := requests[existing.value].(quantity := missing)];
        return;
      }
      requests := requests + [PurchaseRequest(p, Some(o), missing, Pending)];
    }

    /** One turn of the allocation loop on the reservation of o. */
    method Reserve(o: nat, p: nat, desired: nat)
      modifies this`reservations
      ensures reservations == SetReservation(old(reservations), o, p, desired)
    {
      var current := FindActive(reservations, o, p);
      if current.Some? {
        var i := current.value;
        if desired == 0 {
          reservations := reservations[i := reservations[i].(status := ReservationStatus.Released)];
        } else if reservations[i].quantity != desired {
          reservations := reservations[i := reservations[i].(quantity := desired)];
        }
      } else if desired > 0 {
        reservations := reservations + [Reservation(o, p, desired, Active)];
      }
    }

    /** One turn: as much as remains, up to the demand, is reserved, and the rest is put on order. */
    method ServeTurn(p: nat, x: nat, remaining: nat, ghost k: nat, ghost plan: Plan) returns (left: nat)
      requires FairAt(plan, k) && Served(plan, k, remaining, reservations, requests)
      requires plan.p == p && plan.queue[k] == x && x < |orders| && plan.demands[k] == Required(orders[x].products, p)
      modifies this`reservations, this`requests
      ensures Served(plan, k + 1, left, reservations, requests)
    {
      var required := Required(orders[x].products, p);
      var desired := Min(required, remaining);
      TurnNext(plan, k, remaining, reservations, requests);
      Reserve(x, p, desired);
      left := remaining - desired;
      ReconcileBackorder(x, p, required - desired);
    }

    /** The loop that hands out the remaining stock in age order refines the greedy sharing rule. */
    method ServeQueue(p: nat, queue: seq<nat>, supply: nat, ghost plan: Plan)
      requires Shaped(plan) && plan.left[0] == supply
      requires forall k :: 0 <= k < |queue| ==> FairAt(plan, k)
      requires plan.p == p && plan.queue == queue && plan.supply == supply
      requires plan.reservations == reservations && plan.requests == requests
      requires forall k :: 0 <= k < |queue| ==>
                 queue[k] < |orders| && plan.demands[k] == Required(orders[queue[k]].products, p)
      modifies this`reservations, this`requests
      ensures reservations == ReserveAll(old(reservations), p, queue, plan.shares)
      ensures requests == BackorderAll(old(requests), p, queue, plan.missing)
    {
      var remaining := supply;
      NothingServed(plan);
      for k := 0 to |queue|
        invariant Served(plan, k, remaining, reservations, requests)
      {
        remaining := ServeTurn(p, queue[k], remaining, k, plan);
      }
      AllServed(plan, remaining, reservations, requests);
    }

    /** Reconcile one product's queue; a product that does not exist is skipped. */
    method ReconcileProductQueue(p: nat)
      modifies this`reservations, this`requests
      ensures Db() == AllocateQueue(old(Db()), p)
    {
      if p >= |stock| {
        return;
      }
      var queue := Queue(orders, p);
      var outside := ReservedOutside(p, Members(queue));
      var supply := Max(stock[p] - outside, 0);
      PlanIsFair(Db(), p);
      ServeQueue(p, queue, supply, PlanOf(Db(), p));
    }

    /** The active quantity of every (order, product), as the refresh collects it. */
    method ActiveQuantities() returns (active: map<(nat, nat), nat>)
      requires OneActive(reservations)
      ensures forall o: nat, p: nat :: Qty(reservations, o, p) == if (o, p) in active then active[(o, p)] else 0
    {
      active := map[];
      for i := 0 to |reservations|
        invariant forall o: nat, p: nat :: Qty(reservations[..i], o, p) == if (o, p) in active then active[(o, p)] else 0
      {
        assert reservations[..i + 1][..i] == reservations[..i];
        var r := reservations[i];
        if r.status == Active {
          QtyZero(reservations[..i], r.order, r.product);
          active := active[(r.order, r.product) := r.quantity];
        }
      }
      assert reservations[..|reservations|] == reservations;
    }

    method HasShortage(x: nat, active: map<(nat, nat), nat>) returns (short: bool)
      requires x < |orders|
      requires forall o: nat, p: nat :: Qty(reservations, o, p) == if (o, p) in active then active[(o, p)] else 0
      ensures short == Short(orders[x], x, reservations)
    {
      var lines := orders[x].products;
      var required := RequiredByProduct(lines);
      for k := 0 to |lines|
        invariant forall i :: 0 <= i < k ==> Qty(reservations, x, lines[i].item) >= Required(lines, lines[i].item)
      {
        var p := lines[k].item;
        assert p in Items(lines);
        if (if (x, p) in active then active[(x, p)] else 0) < required[p] {
          return true;
        }
      }
      return false;
    }

    /** The status change goes through only along the two edges between the waiting statuses. */
    method SetReservationStatus(x: nat, status: OrderStatus) returns (failure: Option<Failure>)
      modifies this`orders
      ensures failure == Some(NotFound) <==> x >= |old(orders)|
      ensures failure.None? <==> x < |old(orders)|
                                 && (status == old(orders)[x].status
                                     || (status == AguardandoCompra && old(orders)[x].status == AguardandoInicio)
                                     || (status == AguardandoInicio && old(orders)[x].status == AguardandoCompra))
      ensures orders == if failure.None? then old(orders)[x := old(orders)[x].(status := status)] else old(orders)
    {
      if x >= |orders| {
        return Some(NotFound);
      }
      var current := orders[x].status;
      if current == status {
        return None;
      }
      if (status == AguardandoCompra && current == AguardandoInicio) || (status == AguardandoInicio && current == AguardandoCompra) {
        orders := orders[x := orders[x].(status := status)];
        return None;
      }
      return Some(Invalid);
    }

    /** Collect everyone queued for one of the order's products, then set each one's status. No illegal
        transition is ever attempted. */
    method RefreshQueueStatuses(o: nat)
      requires o < |orders| && Waiting(orders[o].status) && OneActive(reservations)
      modifies this`orders
      ensures orders == RefreshStatuses(old(orders), o, reservations)
    {
      var lines := orders[o].products;
      var candidates: set<nat> := {};
      for k := 0 to |lines|
        invariant forall x: nat :: x in candidates <==> x < |orders| && exists i :: 0 <= i < k && Queued(orders[x], lines[i].item)
      {
        candidates := candidates + Members(Queue(orders, lines[k].item));
      }
      candidates := candidates + {o};
      var active := ActiveQuantities();
      ghost var before, target := orders, RefreshStatuses(orders, o, reservations);
      var todo := candidates;
      while todo != {}
        invariant todo <= candidates && |orders| == |before|
        invariant forall x: nat :: x in candidates <==> x < |before| && Candidate(before, o, x)
        invariant forall x :: 0 <= x < |before| ==> orders[x] == if x in candidates - todo then target[x] else before[x]
        decreases todo
      {
        var x :| x in todo;
        var short := HasShortage(x, active);
        var status := if short then AguardandoCompra else AguardandoInicio;
        assert Waiting(before[x].status);
        if orders[x].status != status {
          var failure := SetReservationStatus(x, status);
          assert failure.None?;
        }
        todo := todo - {x};
      }
    }

    method ReleaseRemoved(o: nat, keep: set<nat>)
      modifies this`reservations
      ensures reservations == ReleaseExcept(old(reservations), o, keep)
    {
      for i := 0 to |reservations|
        invariant |reservations| == |old(reservations)|
        invariant forall j :: 0 <= j < |reservations| ==>
                    reservations[j] == if j < i then ReleaseRow(old(reservations)[j], o, keep) else old(reservations)[j]
      {
        var r := reservations[i];
        if r.order == o && r.status == Active && r.product !in keep {
          reservations := reservations[i := r.(status := ReservationStatus.Released)];
        }
      }
    }

    method ReleaseForServiceOrder(o: nat)
      modifies this`reservations, this`requests
      ensures Db() == ReleaseOrder(old(Db()), o)
    {
      ReleaseRemoved(o, {});
      requests := CancelAll(requests, o);
    }

    method ReconcileProducts(products: seq<nat>)
      modifies this`reservations, this`requests
      ensures Db() == AllocateProducts(old(Db()), products)
    {
      assert products[..0] == [];
      for k := 0 to |products|
        invariant Db() == AllocateProducts(old(Db()), products[..k])
      {
        ReconcileProductQueue(products[k]);
        assert products[..k + 1][..k] == products[..k];
      }
      assert products[..|products|] == products;
    }

    /** Reconcile one order: nothing happens if it does not exist. */
    method ReconcileForServiceOrder(o: nat) returns (failure: Option<Failure>)
      requires RowsSound(Db())
      modifies this`orders, this`reservations, this`requests
      ensures match Reconcile(old(Db()), o)
              case Committed(t) => failure.None? && Db() == t
              case RolledBack(e) => failure == Some(e) && Db() == old(Db())
    {
      if o >= |orders| {
        return Some(NotFound);
      }
      if !Waiting(orders[o].status) {
        ReleaseForServiceOrder(o);
        return None;
      }
      var required := RequiredByProduct(orders[o].products);
      ghost var before := Db();
      ReleaseRemoved(o, required.Keys);
      assert required.Keys == Items(before.orders[o].products);
      ReleaseEffect(before.reservations, o, required.Keys);
      ghost var released := Db();
      var products := SortedItems(orders[o].products);
      ReconcileProducts(products);
      AllocateProductsRows(released, products);
      RefreshQueueStatuses(o);
      return None;
    }

    /** Book goods in, unless the request is closed, which is found out after the first writes and rolls them back. */
    method BookIn(r: nat, quantity: Pos) returns (ok: bool)
      requires r < |requests| && requests[r].product < |stock| && RowsSound(Db())
      modifies this`receipts, this`stock, this`requests
      ensures ok <==> old(requests[r]).status == Pending || old(requests[r]).status == Ordered
      ensures Db() == if ok then Workshop.GoodsIn(old(Db()), r, quantity) else old(Db())
      ensures RowsSound(Db())
    {
      var request := requests[r];
      var savedReceipts, savedStock := receipts, stock;
      receipts := receipts + [Receipt(r, quantity)];
      stock := stock[request.product := stock[request.product] + quantity];
      if request.status != Pending && request.status != Ordered {
        receipts, stock := savedReceipts, savedStock;
        return false;
      }
      requests := requests[r := request.(status := PurchaseStatus.Received)];
      return true;
    }

    /** Register a receipt and reconcile the order it was bought for, which exists by its foreign key. */
    method RegisterReceipt(r: nat, quantity: int) returns (failure: Option<Failure>)
      requires RowsSound(Db())
      modifies this
      ensures match Workshop.ReceiveGoods(old(Db()), r, quantity)
              case Committed(t) => failure.None? && Db() == t
              case RolledBack(e) => failure == Some(e) && Db() == old(Db())
    {
      if r >= |requests| {
        return Some(NotFound);
      }
      if quantity <= 0 {
        return Some(Invalid);
      }
      var request := requests[r];
      var booked := BookIn(r, quantity);
      if !booked {
        return Some(Invalid);
      }
      if request.order.None? {
        return None;
      }
      failure := ReconcileForServiceOrder(request.order.value);
    }
  }
}
