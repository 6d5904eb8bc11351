/** The reservation queue of a product: the waiting orders that need it, oldest first, ties by id. */
module AgeQueue {
  import opened Schema

  predicate Queued(o: Order, p: nat) {
    Waiting(o.status) && Required(o.products, p) > 0
  }

  predicate Before(orders: seq<Order>, a: nat, b: nat)
    requires a < |orders| && b < |orders|
  {
    orders[a].createdAt < orders[b].createdAt || (orders[a].createdAt == orders[b].createdAt && a < b)
  }

  ghost predicate InAgeOrder(orders: seq<Order>, q: seq<nat>) {
    && (forall k :: 0 <= k < |q| ==> q[k] < |orders|)
    && (forall j, k :: 0 <= j < k < |q| ==> Before(orders, q[j], q[k]))
  }

  function Insert(orders: seq<Order>, q: seq<nat>, x: nat): (r: seq<nat>)
    requires x < |orders| && InAgeOrder(orders, q)
    requires x !in q
    ensures InAgeOrder(orders, r)
    ensures forall y :: y in r <==> y == x || y in q
    ensures |r| == |q| + 1
  {
    if q == [] then [x]
    else
      var n := |q| - 1;
      if Before(orders, q[n], x) then q + [x]
      else
        var front := Insert(orders, q[..n], x);
        assert q == q[..n] + [q[n]];
        assert forall k :: 0 <= k < |front| ==> front[k] in front;
        front + [q[n]]
  }

  /** The queue over the first n orders of the table. */
  function QueueUpTo(orders: seq<Order>, p: nat, n: nat): (q: seq<nat>)
    requires n <= |orders|
    ensures InAgeOrder(orders, q)
    ensures forall x: nat :: x in q <==> x < n && Queued(orders[x], p)
  {
    if n == 0 then []
    else
      var q := QueueUpTo(orders, p, n - 1);
      if Queued(orders[n - 1], p) then Insert(orders, q, n - 1) else q
  }

  function Queue(orders: seq<Order>, p: nat): (q: seq<nat>)
    ensures InAgeOrder(orders, q)
    ensures forall x: nat :: x in q <==> x < |orders| && Queued(orders[x], p)
  {
    QueueUpTo(orders, p, |orders|)
  }

  lemma NoRepeats(orders: seq<Order>, q: seq<nat>)
    requires InAgeOrder(orders, q)
    ensures Distinct(q)
  {
  }

  lemma LastIsYoungest(orders: seq<Order>, q: seq<nat>, x: nat)
    requires InAgeOrder(orders, q) && x in q
    ensures x < |orders| && (x == q[|q| - 1] || Before(orders, x, q[|q| - 1]))
  {
  }

  lemma FrontMembers(q: seq<nat>, x: nat)
    requires q != [] && Distinct(q)
    ensures x in q[..|q| - 1] <==> x in q && x != q[|q| - 1]
  {
  }

  /** Age order leaves no choice: two queues with the same members are the same queue. */
  lemma {:induction false} AgeOrderIsUnique(orders: seq<Order>, q: seq<nat>, r: seq<nat>)
    requires InAgeOrder(orders, q) && InAgeOrder(orders, r)
    requires forall x :: x in q <==> x in r
    ensures q == r
  {
    assert q != [] ==> q[0] in q;
    assert r != [] ==> r[0] in r;
    if q != [] {
      var m, n := |q| - 1, |r| - 1;
      LastIsYoungest(orders, r, q[m]);
      LastIsYoungest(orders, q, r[n]);
      assert q[m] == r[n];
      NoRepeats(orders, q);
      NoRepeats(orders, r);
      forall x: nat ensures x in q[..m] <==> x in r[..n] {
        FrontMembers(q, x);
        FrontMembers(r, x);
      }
      AgeOrderIsUnique(orders, q[..m], r[..n]);
      assert q == q[..m] + [q[m]] && r == r[..n] + [r[n]];
    }
  }

  /** Two order tables that agree on who waits for p and on the ages have the same queue for p. */
  lemma QueueFrame(orders: seq<Order>, orders': seq<Order>, p: nat)
    requires |orders'| == |orders|
    requires forall x :: 0 <= x < |orders| ==> Queued(orders'[x], p) == Queued(orders[x], p)
    requires forall x :: 0 <= x < |orders| ==> orders'[x].createdAt == orders[x].createdAt
    ensures Queue(orders', p) == Queue(orders, p)
  {
    var q, q' := Queue(orders, p), Queue(orders', p);
    assert InAgeOrder(orders, q') by {
      forall j, k | 0 <= j < k < |q'| ensures Before(orders, q'[j], q'[k]) {
        assert Before(orders', q'[j], q'[k]);
      }
    }
    AgeOrderIsUnique(orders, q, q');
  }

  /** An order younger than all others joins at the back. */
  lemma YoungestJoinsLast(orders: seq<Order>, o: Order, p: nat)
    requires Queued(o, p)
    requires forall x :: 0 <= x < |orders| ==> orders[x].createdAt <= o.createdAt
    ensures Queue(orders + [o], p) == Queue(orders, p) + [|orders|]
  {
    var orders' := orders + [o];
    var q := Queue(orders, p) + [|orders|];
    assert InAgeOrder(orders', q) by {
      forall j, k | 0 <= j < k < |q| ensures Before(orders', q[j], q[k]) {
        assert q[j] in Queue(orders, p);
        if k < |q| - 1 { assert Before(orders, q[j], q[k]); }
      }
    }
    AgeOrderIsUnique(orders', Queue(orders', p), q);
  }
}
