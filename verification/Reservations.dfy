/** The reservations table: lookups, bulk updates and the sums the services take over it. */
module Reservations {
  import opened Schema
  import opened Greedy

  predicate IsActive(r: Reservation, o: nat, p: nat) {
    r.status == Active && r.order == o && r.product == p
  }

  /** At most one active reservation per order and product. No constraint of the database says so. */
  ghost predicate OneActive(rs: seq<Reservation>) {
    forall i, j :: 0 <= i < j < |rs| && rs[i].status == Active && rs[j].status == Active ==>
      rs[i].order != rs[j].order || rs[i].product != rs[j].product
  }

  ghost predicate RowsRefer(rs: seq<Reservation>, orders: nat, products: nat) {
    forall i :: 0 <= i < |rs| ==> rs[i].order < orders && rs[i].product < products
  }

  function Counted(r: Reservation, ids: set<nat>, inside: bool, p: nat): nat {
    if r.status == Active && r.product == p && (r.order in ids) == inside then r.quantity else 0
  }

  /** Units of p held by active reservations of the orders in ids (inside) or of all others (!inside). */
  function Held(rs: seq<Reservation>, ids: set<nat>, inside: bool, p: nat): nat {
    if rs == [] then 0
    else Held(rs[..|rs| - 1], ids, inside, p) + Counted(rs[|rs| - 1], ids, inside, p)
  }

  /** Units of p that order o holds. */
  function Qty(rs: seq<Reservation>, o: nat, p: nat): nat {
    Held(rs, {o}, true, p)
  }

  /** Units of p that all active reservations hold together. */
  function Total(rs: seq<Reservation>, p: nat): nat {
    Held(rs, {}, false, p)
  }

  lemma {:induction false} HeldUpdate(rs: seq<Reservation>, i: nat, r: Reservation, ids: set<nat>, inside: bool, p: nat)
    requires i < |rs|
    ensures Held(rs[i := r], ids, inside, p) ==
            Held(rs, ids, inside, p) - Counted(rs[i], ids, inside, p) + Counted(r, ids, inside, p)
  {
    var n := |rs| - 1;
    if i == n {
      assert rs[i := r][..n] == rs[..n];
    } else {
      HeldUpdate(rs[..n], i, r, ids, inside, p);
      assert rs[i := r][..n] == rs[..n][i := r];
    }
  }

  lemma {:induction false} HeldAppend(rs: seq<Reservation>, r: Reservation, ids: set<nat>, inside: bool, p: nat)
    ensures Held(rs + [r], ids, inside, p) == Held(rs, ids, inside, p) + Counted(r, ids, inside, p)
  {
  }

  /** Moving one order across the boundary moves exactly its own units. */
  lemma {:induction false} HeldSplit(rs: seq<Reservation>, ids: set<nat>, o: nat, p: nat)
    requires o !in ids
    ensures Held(rs, ids, false, p) == Held(rs, ids + {o}, false, p) + Qty(rs, o, p)
  {
    if rs != [] {
      HeldSplit(rs[..|rs| - 1], ids, o, p);
    }
  }

  lemma {:induction false} HeldMonotone(rs: seq<Reservation>, ids: set<nat>, p: nat)
    ensures Held(rs, ids, false, p) <= Total(rs, p)
  {
    if rs != [] {
      HeldMonotone(rs[..|rs| - 1], ids, p);
    }
  }

  /** The first active reservation of o for p. */
  function FindActive(rs: seq<Reservation>, o: nat, p: nat): (f: Option<nat>)
    ensures f.Some? ==> f.value < |rs| && IsActive(rs[f.value], o, p) &&
                        forall j :: 0 <= j < f.value ==> !IsActive(rs[j], o, p)
    ensures f.None? ==> forall j :: 0 <= j < |rs| ==> !IsActive(rs[j], o, p)
  {
    if rs == [] then None
    else
      var n := |rs| - 1;
      var f := FindActive(rs[..n], o, p);
      if f.Some? then f
      else if IsActive(rs[n], o, p) then Some(n)
      else
        assert forall j :: 0 <= j < n ==> !IsActive(rs[..n][j], o, p);
        None
  }

  /** An order holds a product exactly when a row says so. */
  lemma {:induction false} QtyZero(rs: seq<Reservation>, o: nat, p: nat)
    ensures Qty(rs, o, p) == 0 <==> forall j :: 0 <= j < |rs| ==> !IsActive(rs[j], o, p)
  {
    if rs != [] {
      var n := |rs| - 1;
      QtyZero(rs[..n], o, p);
      assert forall j :: 0 <= j < n ==> rs[..n][j] == rs[j];
      if IsActive(rs[n], o, p) { assert Counted(rs[n], {o}, true, p) > 0; }
      if Qty(rs, o, p) == 0 {
        forall j | 0 <= j < |rs| ensures !IsActive(rs[j], o, p) {
          if j < n { assert !IsActive(rs[..n][j], o, p); }
        }
      }
    }
  }

  /** With one active row per key, the first row found carries the whole quantity. */
  lemma {:induction false} QtyIsFirst(rs: seq<Reservation>, o: nat, p: nat)
    requires OneActive(rs)
    ensures match FindActive(rs, o, p)
            case None => Qty(rs, o, p) == 0
            case Some(i) => Qty(rs, o, p) == rs[i].quantity
  {
    QtyZero(rs, o, p);
    match FindActive(rs, o, p)
    case None =>
    case Some(i) =>
      var gone := rs[i := rs[i].(status := ReservationStatus.Released)];
      HeldUpdate(rs, i, gone[i], {o}, true, p);
      QtyZero(gone, o, p);
      forall j | 0 <= j < |gone| ensures !IsActive(gone[j], o, p) {
      }
  }

  /** The reservation half of one turn of the allocation loop: bring o's reservation of p to `desired`. */
  function SetReservation(rs: seq<Reservation>, o: nat, p: nat, desired: nat): seq<Reservation> {
    match FindActive(rs, o, p)
    case Some(i) =>
      if desired == 0 then rs[i := rs[i].(status := ReservationStatus.Released)]
      else if rs[i].quantity != desired then rs[i := rs[i].(quantity := desired)]
      else rs
    case None =>
      if desired > 0 then rs + [Reservation(o, p, desired, Active)] else rs
  }

  lemma SetReservationHeld(rs: seq<Reservation>, o: nat, p: nat, desired: nat, ids: set<nat>, inside: bool, q: nat)
    requires OneActive(rs)
    ensures Held(SetReservation(rs, o, p, desired), ids, inside, q) ==
            Held(rs, ids, inside, q) + if q == p && (o in ids) == inside then desired - Qty(rs, o, p) else 0
  {
    QtyIsFirst(rs, o, p);
    var found := FindActive(rs, o, p);
    if found.Some? {
      var r := SetReservation(rs, o, p, desired)[found.value];
      assert SetReservation(rs, o, p, desired) == rs[found.value := r];
      HeldUpdate(rs, found.value, r, ids, inside, q);
    } else if desired > 0 {
      HeldAppend(rs, Reservation(o, p, desired, Active), ids, inside, q);
    }
  }

  lemma SetReservationRows(rs: seq<Reservation>, o: nat, p: nat, desired: nat)
    requires OneActive(rs)
    ensures OneActive(SetReservation(rs, o, p, desired))
  {
  }

  lemma SetReservationRefs(rs: seq<Reservation>, o: nat, p: nat, desired: nat, n: nat, m: nat)
    requires o < n && p < m && RowsRefer(rs, n, m)
    ensures RowsRefer(SetReservation(rs, o, p, desired), n, m)
  {
  }

  lemma SetReservationIdle(rs: seq<Reservation>, o: nat, p: nat, desired: nat)
    requires OneActive(rs) && Qty(rs, o, p) == desired
    ensures SetReservation(rs, o, p, desired) == rs
  {
    QtyIsFirst(rs, o, p);
  }

  /** Bringing one key to a quantity leaves every other sum alone, and does nothing when it is there already. */
  lemma SetReservationEffect(rs: seq<Reservation>, o: nat, p: nat, desired: nat)
    requires OneActive(rs)
    ensures var rs' := SetReservation(rs, o, p, desired);
            && OneActive(rs')
            && Qty(rs', o, p) == desired
            && (forall ids, inside, q :: q != p || (o in ids) != inside ==> Held(rs', ids, inside, q) == Held(rs, ids, inside, q))
            && (Qty(rs, o, p) == desired ==> rs' == rs)
            && (forall n, m :: o < n && p < m && RowsRefer(rs, n, m) ==> RowsRefer(rs', n, m))
  {
    var rs' := SetReservation(rs, o, p, desired);
    SetReservationRows(rs, o, p, desired);
    SetReservationHeld(rs, o, p, desired, {o}, true, p);
    if Qty(rs, o, p) == desired { SetReservationIdle(rs, o, p, desired); }
    forall n: nat, m: nat | o < n && p < m && RowsRefer(rs, n, m) ensures RowsRefer(rs', n, m) {
      SetReservationRefs(rs, o, p, desired, n, m);
    }
    forall ids, inside, q | q != p || (o in ids) != inside
      ensures Held(rs', ids, inside, q) == Held(rs, ids, inside, q)
    {
      SetReservationHeld(rs, o, p, desired, ids, inside, q);
    }
  }

  /** The rows an UPDATE ... WHERE order and status select, with their status replaced. */
  function ReleaseRow(r: Reservation, o: nat, keep: set<nat>): Reservation {
    if r.order == o && r.status == Active && r.product !in keep
    then r.(status := ReservationStatus.Released) else r
  }

  /** Release o's active reservations, except those of the products to keep. */
  function ReleaseExcept(rs: seq<Reservation>, o: nat, keep: set<nat>): (rs': seq<Reservation>)
    ensures |rs'| == |rs| && forall i :: 0 <= i < |rs| ==> rs'[i] == ReleaseRow(rs[i], o, keep)
  {
    seq(|rs|, i requires 0 <= i < |rs| => ReleaseRow(rs[i], o, keep))
  }

  lemma {:induction false} ReleaseHeld(rs: seq<Reservation>, o: nat, keep: set<nat>, ids: set<nat>, inside: bool, q: nat)
    ensures Held(ReleaseExcept(rs, o, keep), ids, inside, q) ==
            Held(rs, ids, inside, q) - if q !in keep && (o in ids) == inside then Qty(rs, o, q) else 0
  {
    if rs != [] {
      var n := |rs| - 1;
      ReleaseHeld(rs[..n], o, keep, ids, inside, q);
      assert ReleaseExcept(rs, o, keep)[..n] == ReleaseExcept(rs[..n], o, keep);
    }
  }

  /** A release empties the order's reservations outside `keep` and changes nobody else's. */
  lemma ReleaseEffect(rs: seq<Reservation>, o: nat, keep: set<nat>)
    ensures var rs' := ReleaseExcept(rs, o, keep);
            && (OneActive(rs) ==> OneActive(rs'))
            && (forall q :: q !in keep ==> Qty(rs', o, q) == 0)
            && (forall ids, inside, q :: q in keep || (o in ids) != inside ==> Held(rs', ids, inside, q) == Held(rs, ids, inside, q))
            && (forall q :: Total(rs', q) <= Total(rs, q))
            && ((forall q :: q !in keep ==> Qty(rs, o, q) == 0) ==> rs' == rs)
            && (forall n, m :: RowsRefer(rs, n, m) ==> RowsRefer(rs', n, m))
  {
    var rs' := ReleaseExcept(rs, o, keep);
    forall q ensures Total(rs', q) <= Total(rs, q) { ReleaseHeld(rs, o, keep, {}, false, q); }
    forall q | q !in keep ensures Qty(rs', o, q) == 0 { ReleaseHeld(rs, o, keep, {o}, true, q); }
    forall ids, inside, q | q in keep || (o in ids) != inside
      ensures Held(rs', ids, inside, q) == Held(rs, ids, inside, q)
    {
      ReleaseHeld(rs, o, keep, ids, inside, q);
    }
    if forall q :: q !in keep ==> Qty(rs, o, q) == 0 {
      forall i | 0 <= i < |rs| ensures rs'[i] == rs[i] {
        QtyZero(rs, o, rs[i].product);
      }
    }
  }

  /** Take units out of a reservation; the last ones consume it. */
  function Consume(rs: seq<Reservation>, i: nat, quantity: Pos): seq<Reservation>
    requires i < |rs| && quantity <= rs[i].quantity
  {
    if rs[i].quantity == quantity then rs[i := rs[i].(status := ReservationStatus.Consumed)]
    else rs[i := rs[i].(quantity := rs[i].quantity - quantity)]
  }

  /** Exactly the units taken leave every sum that counts the order, and no other. */
  lemma ConsumeHeld(rs: seq<Reservation>, i: nat, quantity: Pos, ids: set<nat>, inside: bool, q: nat)
    requires i < |rs| && rs[i].status == Active && quantity <= rs[i].quantity
    ensures Held(Consume(rs, i, quantity), ids, inside, q) ==
            Held(rs, ids, inside, q) - if q == rs[i].product && (rs[i].order in ids) == inside then quantity else 0
  {
    var r := Consume(rs, i, quantity)[i];
    assert Consume(rs, i, quantity) == rs[i := r];
    HeldUpdate(rs, i, r, ids, inside, q);
  }

  // ---- a whole queue at once ----

  /** Each order of the queue in turn is brought to its share. */
  function ReserveAll(rs: seq<Reservation>, p: nat, queue: seq<nat>, shares: seq<nat>): seq<Reservation>
    requires |queue| == |shares|
  {
    if queue == [] then rs
    else
      var n := |queue| - 1;
      SetReservation(ReserveAll(rs, p, queue[..n], shares[..n]), queue[n], p, shares[n])
  }

  /** The selection counts no order of the queue. */
  ghost predicate Beyond(queue: seq<nat>, ids: set<nat>, inside: bool) {
    forall k :: 0 <= k < |queue| ==> (queue[k] in ids) != inside
  }

  lemma {:induction false} ReserveAllSound(rs: seq<Reservation>, p: nat, queue: seq<nat>, shares: seq<nat>, n: nat, m: nat)
    requires |queue| == |shares| && OneActive(rs) && RowsRefer(rs, n, m)
    requires p < m && forall k :: 0 <= k < |queue| ==> queue[k] < n
    ensures OneActive(ReserveAll(rs, p, queue, shares)) && RowsRefer(ReserveAll(rs, p, queue, shares), n, m)
  {
    if queue != [] {
      var l := |queue| - 1;
      ReserveAllSound(rs, p, queue[..l], shares[..l], n, m);
      SetReservationEffect(ReserveAll(rs, p, queue[..l], shares[..l]), queue[l], p, shares[l]);
    }
  }

  /** Sums that count no order of the queue, or another product, stay as they were. */
  lemma {:induction false} ReserveAllKeeps(rs: seq<Reservation>, p: nat, queue: seq<nat>, shares: seq<nat>, ids: set<nat>, inside: bool, q: nat)
    requires |queue| == |shares| && OneActive(rs)
    requires q != p || Beyond(queue, ids, inside)
    ensures OneActive(ReserveAll(rs, p, queue, shares))
    ensures Held(ReserveAll(rs, p, queue, shares), ids, inside, q) == Held(rs, ids, inside, q)
  {
    if queue != [] {
      var l := |queue| - 1;
      assert Beyond(queue, ids, inside) ==> Beyond(queue[..l], ids, inside);
      ReserveAllKeeps(rs, p, queue[..l], shares[..l], ids, inside, q);
      SetReservationEffect(ReserveAll(rs, p, queue[..l], shares[..l]), queue[l], p, shares[l]);
    }
  }

  /** Every order of the queue ends with its share. */
  lemma {:induction false} ReserveAllGives(rs: seq<Reservation>, p: nat, queue: seq<nat>, shares: seq<nat>, k: nat)
    requires |queue| == |shares| && OneActive(rs) && Distinct(queue) && k < |queue|
    ensures OneActive(ReserveAll(rs, p, queue, shares))
    ensures Qty(ReserveAll(rs, p, queue, shares), queue[k], p) == shares[k]
  {
    var l := |queue| - 1;
    var before := ReserveAll(rs, p, queue[..l], shares[..l]);
    if k < l {
      ReserveAllGives(rs, p, queue[..l], shares[..l], k);
      assert queue[l] !in {queue[k]};
    } else {
      ReserveAllKeeps(rs, p, queue[..l], shares[..l], {}, true, p);
    }
    SetReservationEffect(before, queue[l], p, shares[l]);
  }

  /** A queue that already holds its shares is left exactly as it is. */
  lemma {:induction false} ReserveAllIdle(rs: seq<Reservation>, p: nat, queue: seq<nat>, shares: seq<nat>)
    requires |queue| == |shares| && OneActive(rs)
    requires forall k :: 0 <= k < |queue| ==> Qty(rs, queue[k], p) == shares[k]
    ensures ReserveAll(rs, p, queue, shares) == rs
  {
    if queue != [] {
      var l := |queue| - 1;
      ReserveAllIdle(rs, p, queue[..l], shares[..l]);
      SetReservationEffect(rs, queue[l], p, shares[l]);
    }
  }

  /** All units of p: those outside the queue plus the shares. */
  lemma {:induction false} HeldPeel(rs: seq<Reservation>, ids: set<nat>, queue: seq<nat>, shares: seq<nat>, p: nat)
    requires |queue| == |shares| && Distinct(queue)
    requires forall k :: 0 <= k < |queue| ==> queue[k] !in ids && Qty(rs, queue[k], p) == shares[k]
    ensures Held(rs, ids, false, p) == Held(rs, ids + Members(queue), false, p) + Sum(shares)
    decreases |queue|
  {
    if queue == [] {
      assert ids + Members(queue) == ids;
    } else {
      HeldSplit(rs, ids, queue[0], p);
      HeldPeel(rs, ids + {queue[0]}, queue[1..], shares[1..], p);
      assert ids + {queue[0]} + Members(queue[1..]) == ids + Members(queue);
    }
  }
}
