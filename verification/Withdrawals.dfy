/** The stock-withdrawal table and the sums taken over it. */
module Withdrawals {
  import opened Schema

  function UnitsAsked(w: Withdrawal, o: nat, p: nat): nat {
    if w.order == o && w.product == p && w.status != Abandoned then w.quantity else 0
  }

  function UnitsTaken(w: Withdrawal, o: nat, p: nat): nat {
    if w.order == o && w.product == p && w.status == Fulfilled then w.quantity else 0
  }

  function UnitsShipped(w: Withdrawal, p: nat): nat {
    if w.product == p && w.status == Fulfilled then w.quantity else 0
  }

  /** Units of p asked for o and not cancelled, whether fulfilled or still pending. */
  function Asked(ws: seq<Withdrawal>, o: nat, p: nat): nat {
    if ws == [] then 0 else Asked(ws[..|ws| - 1], o, p) + UnitsAsked(ws[|ws| - 1], o, p)
  }

  /** Units of p actually taken out for o. */
  function Taken(ws: seq<Withdrawal>, o: nat, p: nat): nat {
    if ws == [] then 0 else Taken(ws[..|ws| - 1], o, p) + UnitsTaken(ws[|ws| - 1], o, p)
  }

  /** Units of p taken out over all orders. */
  function Shipped(ws: seq<Withdrawal>, p: nat): nat {
    if ws == [] then 0 else Shipped(ws[..|ws| - 1], p) + UnitsShipped(ws[|ws| - 1], p)
  }

  lemma {:induction false} SumsUpdate(ws: seq<Withdrawal>, i: nat, w: Withdrawal, o: nat, p: nat)
    requires i < |ws|
    ensures Asked(ws[i := w], o, p) == Asked(ws, o, p) - UnitsAsked(ws[i], o, p) + UnitsAsked(w, o, p)
    ensures Taken(ws[i := w], o, p) == Taken(ws, o, p) - UnitsTaken(ws[i], o, p) + UnitsTaken(w, o, p)
    ensures Shipped(ws[i := w], p) == Shipped(ws, p) - UnitsShipped(ws[i], p) + UnitsShipped(w, p)
  {
    var n := |ws| - 1;
    if i == n {
      assert ws[i := w][..n] == ws[..n];
    } else {
      SumsUpdate(ws[..n], i, w, o, p);
      assert ws[i := w][..n] == ws[..n][i := w];
    }
  }

  lemma SumsAppend(ws: seq<Withdrawal>, w: Withdrawal, o: nat, p: nat)
    ensures Asked(ws + [w], o, p) == Asked(ws, o, p) + UnitsAsked(w, o, p)
    ensures Taken(ws + [w], o, p) == Taken(ws, o, p) + UnitsTaken(w, o, p)
    ensures Shipped(ws + [w], p) == Shipped(ws, p) + UnitsShipped(w, p)
  {
  }

  lemma {:induction false} TakenWithinAsked(ws: seq<Withdrawal>, o: nat, p: nat)
    ensures Taken(ws, o, p) <= Asked(ws, o, p)
  {
    if ws != [] { TakenWithinAsked(ws[..|ws| - 1], o, p); }
  }

  /** Everything asked has been taken exactly when no request of that key is pending. */
  lemma {:induction false} NonePending(ws: seq<Withdrawal>, o: nat, p: nat)
    ensures Asked(ws, o, p) == Taken(ws, o, p) <==>
            forall i :: 0 <= i < |ws| && ws[i].order == o && ws[i].product == p ==> ws[i].status != Unfulfilled
  {
    if ws != [] {
      var n := |ws| - 1;
      NonePending(ws[..n], o, p);
      TakenWithinAsked(ws[..n], o, p);
      assert forall i :: 0 <= i < n ==> ws[..n][i] == ws[i];
      if Asked(ws, o, p) == Taken(ws, o, p) {
        forall i | 0 <= i < |ws| && ws[i].order == o && ws[i].product == p ensures ws[i].status != Unfulfilled {
          if i < n { assert ws[..n][i] == ws[i]; }
        }
      }
    }
  }

  /** A pending request is part of what is asked but not yet taken. */
  lemma {:induction false} PendingCounts(ws: seq<Withdrawal>, i: nat)
    requires i < |ws| && ws[i].status == Unfulfilled
    ensures Taken(ws, ws[i].order, ws[i].product) + ws[i].quantity <= Asked(ws, ws[i].order, ws[i].product)
  {
    var o, p := ws[i].order, ws[i].product;
    var w := ws[i].(status := Fulfilled);
    SumsUpdate(ws, i, w, o, p);
    TakenWithinAsked(ws[i := w], o, p);
  }

  lemma {:induction false} NothingAsked(ws: seq<Withdrawal>, o: nat, p: nat)
    requires forall i :: 0 <= i < |ws| ==> ws[i].order != o
    ensures Asked(ws, o, p) == 0
  {
    if ws != [] {
      assert forall i :: 0 <= i < |ws| - 1 ==> ws[..|ws| - 1][i] == ws[i];
      NothingAsked(ws[..|ws| - 1], o, p);
    }
  }
}
