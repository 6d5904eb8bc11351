/** The execution service over a live database, each call proved equal to the step it implements. */
module ExecutionService {
  import opened Schema
  import opened Reservations
  import opened Withdrawals
  import opened Inventory
  import opened InventoryService
  import opened Workshop

  class Executor {
    const db: Database

    constructor (db: Database)
      ensures this.db == db
    {
      this.db := db;
    }

    /** Units of p that order o holds, summed over its active reservations. */
    method ActiveQuantityForProduct(o: nat, p: nat) returns (units: nat)
      ensures units == Qty(db.reservations, o, p)
    {
      units := 0;
      for i := 0 to |db.reservations|
        invariant units == Qty(db.reservations[..i], o, p)
      {
        assert db.reservations[..i + 1][..i] == db.reservations[..i];
        if IsActive(db.reservations[i], o, p) {
          units := units + db.reservations[i].quantity;
        }
      }
      assert db.reservations[..|db.reservations|] == db.reservations;
    }

    method AlreadyRequested(o: nat, p: nat) returns (units: nat)
      ensures units == Asked(db.withdrawals, o, p)
    {
      units := 0;
      for i := 0 to |db.withdrawals|
        invariant units == Asked(db.withdrawals[..i], o, p)
      {
        assert db.withdrawals[..i + 1][..i] == db.withdrawals[..i];
        var w := db.withdrawals[i];
        if w.order == o && w.product == p && w.status != Abandoned {
          units := units + w.quantity;
        }
      }
      assert db.withdrawals[..|db.withdrawals|] == db.withdrawals;
    }

    method FulfilledQuantity(o: nat, p: nat) returns (units: nat)
      ensures units == Taken(db.withdrawals, o, p)
    {
      units := 0;
      for i := 0 to |db.withdrawals|
        invariant units == Taken(db.withdrawals[..i], o, p)
      {
        assert db.withdrawals[..i + 1][..i] == db.withdrawals[..i];
        var w := db.withdrawals[i];
        if w.order == o && w.product == p && w.status == Fulfilled {
          units := units + w.quantity;
        }
      }
      assert db.withdrawals[..|db.withdrawals|] == db.withdrawals;
    }

    method FullyReserved(o: nat) returns (ok: bool)
      requires o < |db.orders|
      ensures ok == !Short(db.orders[o], o, db.reservations)
    {
      var lines := db.orders[o].products;
      var required := RequiredByProduct(lines);
      for k := 0 to |lines|
        invariant forall i :: 0 <= i < k ==> Required(lines, lines[i].item) <= Qty(db.reservations, o, lines[i].item)
      {
        assert lines[k].item in Items(lines);
        var reserved := ActiveQuantityForProduct(o, lines[k].item);
        if reserved < required[lines[k].item] {
          return false;
        }
      }
      return true;
    }

    method FullyTaken(o: nat) returns (ok: bool)
      requires o < |db.orders|
      ensures ok == !Untaken(db.Db(), o)
    {
      var lines := db.orders[o].products;
      var required := RequiredByProduct(lines);
      for k := 0 to |lines|
        invariant forall i :: 0 <= i < k ==> Required(lines, lines[i].item) <= Taken(db.withdrawals, o, lines[i].item)
      {
        assert lines[k].item in Items(lines);
        var taken := FulfilledQuantity(o, lines[k].item);
        if taken < required[lines[k].item] {
          return false;
        }
      }
      return true;
    }

    /** Start an order, checking again that every product is reserved in full. */
    method Start(o: nat) returns (failure: Option<Failure>)
      modifies db`orders
      ensures match StartService(old(db.Db()), o)
              case Committed(t) => failure.None? && db.Db() == t
              case RolledBack(e) => failure == Some(e) && db.Db() == old(db.Db())
    {
      if o >= |db.orders| {
        return Some(NotFound);
      }
      if db.orders[o].status != AguardandoInicio || db.orders[o].mechanic.None? {
        return Some(Invalid);
      }
      var reserved := FullyReserved(o);
      if !reserved {
        return Some(Invalid);
      }
      db.orders := db.orders[o := db.orders[o].(status := EmExecucao)];
      return None;
    }

    method RequestStockWithdrawal(o: nat, p: nat, quantity: int) returns (failure: Option<Failure>)
      modifies db`withdrawals
      ensures match RequestWithdrawal(old(db.Db()), o, p, quantity)
              case Committed(t) => failure.None? && db.Db() == t
              case RolledBack(e) => failure == Some(e) && db.Db() == old(db.Db())
    {
      if o >= |db.orders| {
        return Some(NotFound);
      }
      var alreadyRequested := AlreadyRequested(o, p);
      if db.orders[o].status != EmExecucao {
        return Some(Invalid);
      }
      var required := Required(db.orders[o].products, p);
      if required == 0 || alreadyRequested + quantity > required || quantity <= 0 {
        return Some(Invalid);
      }
      db.withdrawals := db.withdrawals + [Withdrawal(o, p, quantity, Unfulfilled)];
      return None;
    }

    /** The reservation is consumed before the withdrawal is checked and the stock decremented; a failure of
        either rolls the consumption back. */
    method Fulfill(w: nat) returns (failure: Option<Failure>)
      modifies db`reservations, db`withdrawals, db`stock
      ensures match FulfillWithdrawal(old(db.Db()), w)
              case Committed(t) => failure.None? && db.Db() == t
              case RolledBack(e) => failure == Some(e) && db.Db() == old(db.Db())
    {
      if w >= |db.withdrawals| {
        return Some(NotFound);
      }
      var saved := db.reservations;
      var withdrawal := db.withdrawals[w];
      var found := FindActive(db.reservations, withdrawal.order, withdrawal.product);
      if found.None? || db.reservations[found.value].quantity < withdrawal.quantity {
        return Some(Invalid);
      }
      var i := found.value;
      if db.reservations[i].quantity == withdrawal.quantity {
        db.reservations := db.reservations[i := db.reservations[i].(status := ReservationStatus.Consumed)];
      } else {
        db.reservations := db.reservations[i := db.reservations[i].(quantity := db.reservations[i].quantity - withdrawal.quantity)];
      }
      if withdrawal.status != Unfulfilled {
        db.reservations := saved;
        return Some(Invalid);
      }
      if withdrawal.product >= |db.stock| {
        db.reservations := saved;
        return Some(NotFound);
      }
      if db.stock[withdrawal.product] < withdrawal.quantity {
        db.reservations := saved;
        return Some(Invalid);
      }
      db.stock := db.stock[withdrawal.product := db.stock[withdrawal.product] - withdrawal.quantity];
      db.withdrawals := db.withdrawals[w := withdrawal.(status := Fulfilled)];
      return None;
    }

    /** Finish an order once every product has been taken out in full; what is still held is released. */
    method Finish(o: nat) returns (failure: Option<Failure>)
      modifies db`orders, db`reservations
      ensures match FinishService(old(db.Db()), o)
              case Committed(t) => failure.None? && db.Db() == t
              case RolledBack(e) => failure == Some(e) && db.Db() == old(db.Db())
    {
      if o >= |db.orders| {
        return Some(NotFound);
      }
      if db.orders[o].status != EmExecucao {
        return Some(Invalid);
      }
      var taken := FullyTaken(o);
      if !taken {
        return Some(Invalid);
      }
      db.orders := db.orders[o := db.orders[o].(status := Finalizada)];
      db.ReleaseRemoved(o, {});
      return None;
    }
  }
}
