/** The budget and approval services over a live database, each call proved equal to the step it implements. */
module BudgetService {
  import opened Schema
  import opened Inventory
  import opened Revisions
  import opened Families
  import opened Workshop
  import opened InventoryService
  import opened Safety

  /** In a sound tree the member with the highest number is unique, however the family is walked. */
  lemma LatestIsUnique(budgets: seq<Budget>, root: nat, status: BudgetStatus, b: nat)
    requires TreeSound(budgets) && b < |budgets|
    requires RootOf(budgets, b) == root && budgets[b].status == status
    requires forall x :: 0 <= x < |budgets| && RootOf(budgets, x) == root && budgets[x].status == status ==>
               budgets[x].revision <= budgets[b].revision
    ensures Latest(budgets, root, status, |budgets|) == Some(b)
  {
    forall x: nat | x < |budgets| && RootOf(budgets, x) == root && budgets[x].revision == budgets[b].revision ensures x == b {
      NumbersAreUnique(budgets, x, b);
    }
    TopIsLatest(budgets, root, status, b);
  }

  lemma NumbersAreUnique(budgets: seq<Budget>, x: nat, y: nat)
    requires TreeSound(budgets) && x < |budgets| && y < |budgets|
    requires RootOf(budgets, x) == RootOf(budgets, y) && budgets[x].revision == budgets[y].revision
    ensures x == y
  {
  }

  lemma TopIsLatest(budgets: seq<Budget>, root: nat, status: BudgetStatus, b: nat)
    requires b < |budgets| && RootOf(budgets, b) == root && budgets[b].status == status
    requires forall x :: 0 <= x < |budgets| && RootOf(budgets, x) == root && budgets[x].status == status ==>
               budgets[x].revision <= budgets[b].revision
    requires forall x :: 0 <= x < |budgets| && RootOf(budgets, x) == root && budgets[x].revision == budgets[b].revision ==> x == b
    ensures Latest(budgets, root, status, |budgets|) == Some(b)
  {
    var best := Latest(budgets, root, status, |budgets|);
    assert best.Some?;
    assert budgets[best.value].revision == budgets[b].revision;
  }

  /** The budgets with this root, all of them. */
  ghost predicate Rooting(budgets: seq<Budget>, related: set<nat>, root: nat) {
    forall x: nat :: x in related <==> x < |budgets| && RootOf(budgets, x) == root
  }

  lemma RevisionStep(t: Tables, b: nat, source: Option<nat>, number: int)
    requires b < |t.budgets| && source == Latest(t.budgets, RootOf(t.budgets, b), BudgetStatus.Approved, |t.budgets|)
    requires source.Some? ==>
               number == HighestNumber(t.budgets, RootOf(t.budgets, b), t.budgets[source.value].revision, |t.budgets|) + 1
    ensures Workshop.CreateRevision(t, b) ==
            if source.None? then RolledBack(Invalid)
            else Committed(t.(budgets := t.budgets + [t.budgets[source.value].(
              status := Draft, revision := number, supersedes := Some(source.value), used := false, expires := None)]))
  {
  }

  class Budgeting {
    const db: Database

    constructor (db: Database)
      ensures this.db == db
    {
      this.db := db;
    }

    /** The whole family of a budget, by its links. */
    method Related(b: nat) returns (related: set<nat>)
      requires TreeSound(db.budgets) && b < |db.budgets|
      ensures b in related
      ensures Rooting(db.budgets, related, RootOf(db.budgets, b))
    {
      related := ListRevisionFamily(db.budgets, b);
      FamilySharesRoot(db.budgets, b, related);
    }

    /** The approved member of a family with the highest number. */
    method ApprovedSource(related: set<nat>, ghost root: nat) returns (source: Option<nat>)
      requires TreeSound(db.budgets)
      requires Rooting(db.budgets, related, root)
      ensures source == Latest(db.budgets, root, BudgetStatus.Approved, |db.budgets|)
    {
      source := None;
      var todo := related;
      while todo != {}
        invariant todo <= related
        invariant source.Some? ==> source.value in related - todo && db.budgets[source.value].status == BudgetStatus.Approved
        invariant forall x :: x in related - todo && db.budgets[x].status == BudgetStatus.Approved ==>
                    source.Some? && db.budgets[x].revision <= db.budgets[source.value].revision
        decreases todo
      {
        var x :| x in todo;
        if db.budgets[x].status == BudgetStatus.Approved &&
           (source.None? || db.budgets[source.value].revision < db.budgets[x].revision) {
          source := Some(x);
        }
        todo := todo - {x};
      }
      if source.Some? { LatestIsUnique(db.budgets, root, BudgetStatus.Approved, source.value); }
    }

    /** The highest revision number of a family. */
    method HighestRevision(related: set<nat>, member: nat, ghost root: nat) returns (number: int)
      requires Rooting(db.budgets, related, root)
      requires member in related
      ensures number == HighestNumber(db.budgets, root, db.budgets[member].revision, |db.budgets|)
    {
      number := db.budgets[member].revision;
      var todo := related;
      while todo != {}
        invariant todo <= related && number >= db.budgets[member].revision
        invariant forall x :: x in related - todo ==> db.budgets[x].revision <= number
        invariant exists x :: x in related && db.budgets[x].revision == number
        decreases todo
      {
        var x :| x in todo;
        number := Max(number, db.budgets[x].revision);
        todo := todo - {x};
      }
      HighestIsReached(db.budgets, root, db.budgets[member].revision, |db.budgets|);
    }

    /** A new draft that follows the family's latest approved revision and tops the family's numbers. */
    method CreateRevision(b: nat) returns (failure: Option<Failure>)
      requires TreeSound(db.budgets)
      modifies db`budgets
      ensures match Workshop.CreateRevision(old(db.Db()), b)
              case Committed(t) => failure.None? && db.Db() == t
              case RolledBack(e) => failure == Some(e) && db.Db() == old(db.Db())
    {
      if b >= |db.budgets| {
        return Some(NotFound);
      }
      var related := Related(b);
      ghost var root := RootOf(db.budgets, b);
      var source := ApprovedSource(related, root);
      if source.None? {
        RevisionStep(db.Db(), b, source, 0);
        return Some(Invalid);
      }
      var from := db.budgets[source.value];
      var number := HighestRevision(related, source.value, root);
      RevisionStep(db.Db(), b, source, number + 1);
      db.budgets := db.budgets + [from.(status := Draft, revision := number + 1, supersedes := Some(source.value), used := false, expires := None)];
      return None;
    }

    /** Create the family's order or rewrite it with the approved scope, then reconcile it. */
    method ApplyApprovedRevision(b: nat, now: int) returns (failure: Option<Failure>)
      requires Sound(db.Db()) && Rooted(db.budgets) && b < |db.budgets|
      modifies db`orders, db`reservations, db`requests
      ensures match ApplyApproved(old(db.Db()), b, now)
              case Committed(t) => failure.None? && db.Db() == t
              case RolledBack(e) => failure == Some(e) && db.Db() == old(db.Db())
    {
      ghost var before := db.Db();
      var budget := db.budgets[b];
      var found := FindOrderForBudget(db.budgets, db.orders, b);
      if found.Some? {
        var o := found.value;
        if !Revisable(db.orders[o].status) {
          return Some(Invalid);
        }
        RevisedOrderIsSoundApart(before, o, Revise(before.orders[o], budget));
        db.orders := db.orders[o := Revise(db.orders[o], budget)];
        failure := db.ReconcileForServiceOrder(o);
      } else {
        if VehicleBusy(db.orders, budget.vehicle) {
          return Some(Conflict);
        }
        var root := RootBudgetId(db.budgets, b);
        var order := Order(root, budget.vehicle, AguardandoInicio, None, budget.total, now, budget.services, budget.products);
        NewOrderIsSoundApart(before, order);
        db.orders := db.orders + [order];
        failure := db.ReconcileForServiceOrder(|db.orders| - 1);
      }
    }

    /** Staff approval; a failure after the budget was marked rolls the mark back. */
    method Approve(b: nat, now: int) returns (failure: Option<Failure>)
      requires Sound(db.Db()) && Rooted(db.budgets)
      modifies db`budgets, db`orders, db`reservations, db`requests
      ensures match ApproveBudget(old(db.Db()), b, now)
              case Committed(t) => failure.None? && db.Db() == t
              case RolledBack(e) => failure == Some(e) && db.Db() == old(db.Db())
    {
      if b >= |db.budgets| {
        return Some(NotFound);
      }
      var budget := db.budgets[b];
      if !Approvable(budget) {
        return Some(Invalid);
      }
      var saved := db.budgets;
      BudgetKeepsSound(db.Db(), MarkDecided(db.Db(), b, BudgetStatus.Approved).budgets);
      db.budgets := db.budgets[b := budget.(status := BudgetStatus.Approved, used := true)];
      failure := ApplyApprovedRevision(b, now);
      if failure.Some? {
        db.budgets := saved;
      }
    }

    /** The customer's decision by link; a failure after the budget was marked rolls the mark back. */
    method Decide(b: nat, approve: bool, now: int) returns (failure: Option<Failure>)
      requires Sound(db.Db()) && Rooted(db.budgets)
      modifies db`budgets, db`orders, db`reservations, db`requests
      ensures match DecideBudget(old(db.Db()), b, approve, now)
              case Committed(t) => failure.None? && db.Db() == t
              case RolledBack(e) => failure == Some(e) && db.Db() == old(db.Db())
    {
      if b >= |db.budgets| {
        return Some(NotFound);
      }
      var budget := db.budgets[b];
      var decision := if approve then BudgetStatus.Approved else BudgetStatus.Rejected;
      if budget.used {
        return if budget.status == decision then None else Some(Invalid);
      }
      if budget.expires.None? || budget.expires.value <= now {
        return Some(NotFound);
      }
      if budget.status != BudgetStatus.Sent || (approve && !Approvable(budget)) {
        return Some(Invalid);
      }
      var saved := db.budgets;
      BudgetKeepsSound(db.Db(), MarkDecided(db.Db(), b, decision).budgets);
      db.budgets := db.budgets[b := budget.(status := decision, used := true)];
      failure := None;
      if approve {
        failure := ApplyApprovedRevision(b, now);
      } else {
        failure := ReturnToDiagnosis(b);
      }
      if failure.Some? {
        db.budgets := saved;
      }
    }

    /** After a rejection the family's order, if there is one, goes back to diagnosis and gives up what it holds. */
    method ReturnToDiagnosis(b: nat) returns (failure: Option<Failure>)
      requires Rooted(db.budgets)
      modifies db`orders, db`reservations, db`requests
      ensures var t := old(db.Db());
              match FindOrder(t.budgets, t.orders, b)
              case None => failure.None? && db.Db() == t
              case Some(o) =>
                if t.orders[o].status != AguardandoAprovacao then failure == Some(Invalid) && db.Db() == t
                else failure.None? && db.Db() == ReleaseOrder(WithStatus(t, o, EmDiagnostico), o)
    {
      var found := FindOrderForBudget(db.budgets, db.orders, b);
      if found.None? {
        return None;
      }
      var o := found.value;
      if db.orders[o].status != AguardandoAprovacao {
        return Some(Invalid);
      }
      db.orders := db.orders[o := db.orders[o].(status := EmDiagnostico)];
      db.ReleaseForServiceOrder(o);
      return None;
    }

    /** Send a budget: its order moves to "awaiting approval" only from diagnosis, and is released either way. */
    method Send(b: nat, expires: int) returns (failure: Option<Failure>)
      requires Rooted(db.budgets)
      modifies db`budgets, db`orders, db`reservations, db`requests
      ensures match SendBudget(old(db.Db()), b, expires)
              case Committed(t) => failure.None? && db.Db() == t
              case RolledBack(e) => failure == Some(e) && db.Db() == old(db.Db())
    {
      if b >= |db.budgets| {
        return Some(NotFound);
      }
      var budget := db.budgets[b];
      if budget.status == BudgetStatus.Sent {
        if budget.used {
          return Some(Invalid);
        }
        db.budgets := db.budgets[b := budget.(expires := Some(expires))];
      } else {
        if budget.status != Draft {
          return Some(Invalid);
        }
        db.budgets := db.budgets[b := budget.(status := BudgetStatus.Sent, expires := Some(expires), used := false)];
      }
      var found := FindOrderForBudget(db.budgets, db.orders, b);
      if found.Some? {
        if db.orders[found.value].status == EmDiagnostico {
          db.orders := db.orders[found.value := db.orders[found.value].(status := AguardandoAprovacao)];
        }
        db.ReleaseForServiceOrder(found.value);
      }
      return None;
    }
  }
}
