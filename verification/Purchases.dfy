/** The purchase-request table: what is on order for each service order, and the back-order step. */
module Purchases {
  import opened Schema

  predicate IsOpen(r: PurchaseRequest, o: nat, p: nat) {
    (r.status == Pending || r.status == Ordered) && r.order == Some(o) && r.product == p
  }

  predicate Standing(r: PurchaseRequest) {
    (r.status == Pending || r.status == Ordered) && r.order.Some?
  }

  /** At most one open request per order and product; requests without an order are not limited. */
  ghost predicate OneOpen(rs: seq<PurchaseRequest>) {
    forall i, j :: 0 <= i < j < |rs| && Standing(rs[i]) && Standing(rs[j]) ==>
      rs[i].order != rs[j].order || rs[i].product != rs[j].product
  }

  ghost predicate RequestsRefer(rs: seq<PurchaseRequest>, orders: nat, products: nat) {
    forall i :: 0 <= i < |rs| ==> rs[i].product < products && (rs[i].order.Some? ==> rs[i].order.value < orders)
  }

  function OpenUnits(r: PurchaseRequest, o: nat, p: nat): nat {
    if IsOpen(r, o, p) then r.quantity else 0
  }

  /** Units of p on order for o. */
  function OnOrder(rs: seq<PurchaseRequest>, o: nat, p: nat): nat {
    if rs == [] then 0
    else OnOrder(rs[..|rs| - 1], o, p) + OpenUnits(rs[|rs| - 1], o, p)
  }

  lemma {:induction false} OnOrderUpdate(rs: seq<PurchaseRequest>, i: nat, r: PurchaseRequest, o: nat, p: nat)
    requires i < |rs|
    ensures OnOrder(rs[i := r], o, p) == OnOrder(rs, o, p) - OpenUnits(rs[i], o, p) + OpenUnits(r, o, p)
  {
    var n := |rs| - 1;
    if i == n {
      assert rs[i := r][..n] == rs[..n];
    } else {
      OnOrderUpdate(rs[..n], i, r, o, p);
      assert rs[i := r][..n] == rs[..n][i := r];
    }
  }

  lemma OnOrderAppend(rs: seq<PurchaseRequest>, r: PurchaseRequest, o: nat, p: nat)
    ensures OnOrder(rs + [r], o, p) == OnOrder(rs, o, p) + OpenUnits(r, o, p)
  {
  }

  /** The open request of o for p with the lowest id. */
  function FindOpen(rs: seq<PurchaseRequest>, o: nat, p: nat): (f: Option<nat>)
    ensures f.Some? ==> f.value < |rs| && IsOpen(rs[f.value], o, p) &&
                        forall j :: 0 <= j < f.value ==> !IsOpen(rs[j], o, p)
    ensures f.None? ==> forall j :: 0 <= j < |rs| ==> !IsOpen(rs[j], o, p)
  {
    if rs == [] then None
    else
      var n := |rs| - 1;
      var f := FindOpen(rs[..n], o, p);
      if f.Some? then f
      else if IsOpen(rs[n], o, p) then Some(n)
      else
        assert forall j :: 0 <= j < n ==> !IsOpen(rs[..n][j], o, p);
        None
  }

  lemma {:induction false} NothingOnOrder(rs: seq<PurchaseRequest>, o: nat, p: nat)
    requires forall j :: 0 <= j < |rs| ==> !IsOpen(rs[j], o, p)
    ensures OnOrder(rs, o, p) == 0
  {
    if rs != [] {
      assert forall j :: 0 <= j < |rs| - 1 ==> rs[..|rs| - 1][j] == rs[j];
      NothingOnOrder(rs[..|rs| - 1], o, p);
    }
  }

  lemma {:induction false} OnOrderIsFirst(rs: seq<PurchaseRequest>, o: nat, p: nat)
    requires OneOpen(rs)
    ensures match FindOpen(rs, o, p)
            case None => OnOrder(rs, o, p) == 0
            case Some(i) => OnOrder(rs, o, p) == rs[i].quantity
  {
    match FindOpen(rs, o, p)
    case None => NothingOnOrder(rs, o, p);
    case Some(i) =>
      var gone := rs[i := rs[i].(status := PurchaseStatus.Cancelled)];
      OnOrderUpdate(rs, i, gone[i], o, p);
      forall j | 0 <= j < |gone| ensures !IsOpen(gone[j], o, p) {
        if j < i { assert !IsOpen(rs[j], o, p); } else if j > i { assert !IsOpen(rs[j], o, p); }
      }
      NothingOnOrder(gone, o, p);
  }

  /** Bring what is on order for o to the missing quantity: cancel, rewrite or open one request. */
  function SetBackorder(rs: seq<PurchaseRequest>, o: nat, p: nat, missing: int): seq<PurchaseRequest> {
    match FindOpen(rs, o, p)
    case Some(i) =>
      if missing <= 0 then rs[i := rs[i].(status := PurchaseStatus.Cancelled)]
      else rs[i := rs[i].(quantity := missing)]
    case None =>
      if missing <= 0 then rs else rs + [PurchaseRequest(p, Some(o), missing, Pending)]
  }

  lemma SetBackorderUnits(rs: seq<PurchaseRequest>, o: nat, p: nat, missing: nat, x: nat, q: nat)
    requires OneOpen(rs)
    ensures OnOrder(SetBackorder(rs, o, p, missing), x, q) == if x == o && q == p then missing else OnOrder(rs, x, q)
  {
    OnOrderIsFirst(rs, o, p);
    var found := FindOpen(rs, o, p);
    if found.Some? {
      var r := SetBackorder(rs, o, p, missing)[found.value];
      assert SetBackorder(rs, o, p, missing) == rs[found.value := r];
      OnOrderUpdate(rs, found.value, r, x, q);
    } else if missing > 0 {
      OnOrderAppend(rs, PurchaseRequest(p, Some(o), missing, Pending), x, q);
    }
  }

  /** The rows that exist keep their product and their order for good; new rows come after them. */
  ghost predicate RequestsGrow(rs: seq<PurchaseRequest>, rs': seq<PurchaseRequest>) {
    |rs| <= |rs'| && forall i :: 0 <= i < |rs| ==> rs'[i].product == rs[i].product && rs'[i].order == rs[i].order
  }

  lemma SetBackorderRows(rs: seq<PurchaseRequest>, o: nat, p: nat, missing: nat)
    requires OneOpen(rs)
    ensures OneOpen(SetBackorder(rs, o, p, missing)) && RequestsGrow(rs, SetBackorder(rs, o, p, missing))
  {
  }

  lemma SetBackorderRefs(rs: seq<PurchaseRequest>, o: nat, p: nat, missing: nat, n: nat, m: nat)
    requires o < n && p < m && RequestsRefer(rs, n, m)
    ensures RequestsRefer(SetBackorder(rs, o, p, missing), n, m)
  {
  }

  lemma SetBackorderIdle(rs: seq<PurchaseRequest>, o: nat, p: nat, missing: nat)
    requires OneOpen(rs) && OnOrder(rs, o, p) == missing
    ensures SetBackorder(rs, o, p, missing) == rs
  {
    OnOrderIsFirst(rs, o, p);
  }

  lemma SetBackorderEffect(rs: seq<PurchaseRequest>, o: nat, p: nat, missing: nat)
    requires OneOpen(rs)
    ensures var rs' := SetBackorder(rs, o, p, missing);
            && OneOpen(rs')
            && OnOrder(rs', o, p) == missing
            && (forall x, q :: x != o || q != p ==> OnOrder(rs', x, q) == OnOrder(rs, x, q))
            && (OnOrder(rs, o, p) == missing ==> rs' == rs)
            && RequestsGrow(rs, rs')
            && (forall n, m :: o < n && p < m && RequestsRefer(rs, n, m) ==> RequestsRefer(rs', n, m))
  {
    var rs' := SetBackorder(rs, o, p, missing);
    SetBackorderRows(rs, o, p, missing);
    SetBackorderUnits(rs, o, p, missing, o, p);
    if OnOrder(rs, o, p) == missing { SetBackorderIdle(rs, o, p, missing); }
    forall n: nat, m: nat | o < n && p < m && RequestsRefer(rs, n, m) ensures RequestsRefer(rs', n, m) {
      SetBackorderRefs(rs, o, p, missing, n, m);
    }
    forall x, q | x != o || q != p ensures OnOrder(rs', x, q) == OnOrder(rs, x, q) {
      SetBackorderUnits(rs, o, p, missing, x, q);
    }
  }

  // ---- a whole queue at once ----

  /** Each order of the queue in turn has its open request brought to what it is missing. */
  function BackorderAll(rs: seq<PurchaseRequest>, p: nat, queue: seq<nat>, missing: seq<nat>): seq<PurchaseRequest>
    requires |queue| == |missing|
  {
    if queue == [] then rs
    else
      var n := |queue| - 1;
      SetBackorder(BackorderAll(rs, p, queue[..n], missing[..n]), queue[n], p, missing[n])
  }

  lemma {:induction false} BackorderAllSound(rs: seq<PurchaseRequest>, p: nat, queue: seq<nat>, missing: seq<nat>, n: nat, m: nat)
    requires |queue| == |missing| && OneOpen(rs) && RequestsRefer(rs, n, m)
    requires p < m && forall k :: 0 <= k < |queue| ==> queue[k] < n
    ensures var rs' := BackorderAll(rs, p, queue, missing);
            OneOpen(rs') && RequestsRefer(rs', n, m) && RequestsGrow(rs, rs')
  {
    if queue != [] {
      var l := |queue| - 1;
      BackorderAllSound(rs, p, queue[..l], missing[..l], n, m);
      SetBackorderEffect(BackorderAll(rs, p, queue[..l], missing[..l]), queue[l], p, missing[l]);
    }
  }

  /** Every order of the queue has exactly its missing units on order; nobody else's requests move. */
  lemma {:induction false} BackorderAllUnits(rs: seq<PurchaseRequest>, p: nat, queue: seq<nat>, missing: seq<nat>, x: nat, q: nat)
    requires |queue| == |missing| && OneOpen(rs)
    requires Distinct(queue)
    ensures var rs' := BackorderAll(rs, p, queue, missing);
            && OneOpen(rs')
            && (q != p || x !in queue ==> OnOrder(rs', x, q) == OnOrder(rs, x, q))
            && (forall k :: 0 <= k < |queue| && queue[k] == x && q == p ==> OnOrder(rs', x, q) == missing[k])
  {
    if queue != [] {
      var l := |queue| - 1;
      BackorderAllUnits(rs, p, queue[..l], missing[..l], x, q);
      SetBackorderEffect(BackorderAll(rs, p, queue[..l], missing[..l]), queue[l], p, missing[l]);
      assert x in queue[..l] ==> x in queue;
      forall k | 0 <= k < |queue| && queue[k] == x && q == p
        ensures OnOrder(BackorderAll(rs, p, queue, missing), x, q) == missing[k]
      {
        if k < l { assert queue[..l][k] == x && x != queue[l]; }
      }
    }
  }

  lemma {:induction false} BackorderAllIdle(rs: seq<PurchaseRequest>, p: nat, queue: seq<nat>, missing: seq<nat>)
    requires |queue| == |missing| && OneOpen(rs)
    requires forall k :: 0 <= k < |queue| ==> OnOrder(rs, queue[k], p) == missing[k]
    ensures BackorderAll(rs, p, queue, missing) == rs
  {
    if queue != [] {
      var l := |queue| - 1;
      BackorderAllIdle(rs, p, queue[..l], missing[..l]);
      SetBackorderEffect(rs, queue[l], p, missing[l]);
    }
  }

  function CancelRow(r: PurchaseRequest, o: nat): PurchaseRequest {
    if r.order == Some(o) && (r.status == Pending || r.status == Ordered)
    then r.(status := PurchaseStatus.Cancelled) else r
  }

  /** Cancel every open request of an order. */
  function CancelAll(rs: seq<PurchaseRequest>, o: nat): (rs': seq<PurchaseRequest>)
    ensures |rs'| == |rs| && forall i :: 0 <= i < |rs| ==> rs'[i] == CancelRow(rs[i], o)
  {
    seq(|rs|, i requires 0 <= i < |rs| => CancelRow(rs[i], o))
  }

  lemma {:induction false} CancelAllUnits(rs: seq<PurchaseRequest>, o: nat, x: nat, q: nat)
    ensures OnOrder(CancelAll(rs, o), x, q) == if x == o then 0 else OnOrder(rs, x, q)
  {
    if rs != [] {
      CancelAllUnits(rs[..|rs| - 1], o, x, q);
      assert CancelAll(rs, o)[..|rs| - 1] == CancelAll(rs[..|rs| - 1], o);
    }
  }

  lemma CancelAllEffect(rs: seq<PurchaseRequest>, o: nat)
    ensures var rs' := CancelAll(rs, o);
            && (OneOpen(rs) ==> OneOpen(rs'))
            && (forall q :: OnOrder(rs', o, q) == 0)
            && (forall x, q :: x != o ==> OnOrder(rs', x, q) == OnOrder(rs, x, q))
            && RequestsGrow(rs, rs')
            && CancelAll(rs', o) == rs'
            && (forall n, m :: RequestsRefer(rs, n, m) ==> RequestsRefer(rs', n, m))
  {
    var rs' := CancelAll(rs, o);
    forall q ensures OnOrder(rs', o, q) == 0 { CancelAllUnits(rs, o, o, q); }
    forall x, q | x != o ensures OnOrder(rs', x, q) == OnOrder(rs, x, q) { CancelAllUnits(rs, o, x, q); }
  }

  // ---- goods received ----

  function UnitsArrived(r: Receipt, rs: seq<PurchaseRequest>, p: nat): nat {
    if r.request < |rs| && rs[r.request].product == p then r.quantity else 0
  }

  /** Units of p that have come in, over all receipts. */
  function Arrived(gs: seq<Receipt>, rs: seq<PurchaseRequest>, p: nat): nat {
    if gs == [] then 0
    else Arrived(gs[..|gs| - 1], rs, p) + UnitsArrived(gs[|gs| - 1], rs, p)
  }

  lemma {:induction false} ArrivedFrame(gs: seq<Receipt>, rs: seq<PurchaseRequest>, rs': seq<PurchaseRequest>, p: nat)
    requires RequestsGrow(rs, rs')
    requires forall i :: 0 <= i < |gs| ==> gs[i].request < |rs|
    ensures Arrived(gs, rs', p) == Arrived(gs, rs, p)
  {
    if gs != [] {
      assert forall i :: 0 <= i < |gs| - 1 ==> gs[..|gs| - 1][i] == gs[i];
      ArrivedFrame(gs[..|gs| - 1], rs, rs', p);
    }
  }
}
