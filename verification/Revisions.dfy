/** The tree of budget revisions, the searches over it and the order that belongs to it. */
module Revisions {
  import opened Schema

  // ---- the searches, on any data ----

  function Ids(n: nat): (s: set<nat>)
    ensures forall x: nat :: x in s <==> x < n
  {
    if n == 0 then {} else Ids(n - 1) + {n - 1}
  }

  /** Every link leads to an older budget: ids are handed out in order and links are never rewritten. */
  ghost predicate Rooted(budgets: seq<Budget>) {
    forall b :: 0 <= b < |budgets| && budgets[b].supersedes.Some? ==> budgets[b].supersedes.value < b
  }

  /** The original budget of a revision. */
  function RootOf(budgets: seq<Budget>, b: nat): (r: nat)
    ensures r <= b
  {
    if b < |budgets| && budgets[b].supersedes.Some? && budgets[b].supersedes.value < b
    then RootOf(budgets, budgets[b].supersedes.value) else b
  }

  /** The first order attached to a budget. */
  function OrderOf(orders: seq<Order>, b: nat): (f: Option<nat>)
    ensures f.Some? ==> f.value < |orders| && orders[f.value].budget == b
    ensures f.None? ==> forall x :: 0 <= x < |orders| ==> orders[x].budget != b
  {
    if orders == [] then None
    else
      var n := |orders| - 1;
      var f := OrderOf(orders[..n], b);
      if f.Some? then f
      else if orders[n].budget == b then Some(n)
      else
        assert forall x :: 0 <= x < n ==> orders[..n][x].budget != b;
        None
  }

  /** The order found by walking up from a revision. */
  function FindOrder(budgets: seq<Budget>, orders: seq<Order>, b: nat): (f: Option<nat>)
    ensures f.Some? ==> f.value < |orders|
  {
    var here := OrderOf(orders, b);
    if here.Some? then here
    else if b < |budgets| && budgets[b].supersedes.Some? && budgets[b].supersedes.value < b
    then FindOrder(budgets, orders, budgets[b].supersedes.value)
    else None
  }

  function Parent(budgets: seq<Budget>, b: nat): Option<nat> {
    if b < |budgets| then budgets[b].supersedes else None
  }

  /** The budget n links up, on any data. */
  function Ancestor(budgets: seq<Budget>, b: nat, n: nat): Option<nat> {
    if n == 0 then Some(b)
    else
      match Ancestor(budgets, b, n - 1)
      case None => None
      case Some(x) => Parent(budgets, x)
  }

  /** The n-th budget upwards is the first with an order, and this is the order. */
  ghost predicate FoundAt(budgets: seq<Budget>, orders: seq<Order>, b: nat, n: nat, order: Option<nat>) {
    && Ancestor(budgets, b, n).Some? && order.Some? && OrderOf(orders, Ancestor(budgets, b, n).value) == order
    && forall m: nat :: m < n ==> Ancestor(budgets, b, m).Some? && OrderOf(orders, Ancestor(budgets, b, m).value).None?
  }

  /** The n-th budget upwards has no link, or is the first that was met before. */
  ghost predicate StopsAt(budgets: seq<Budget>, b: nat, n: nat) {
    && Ancestor(budgets, b, n).Some?
    && (forall i: nat, j: nat :: i < j < n ==> Ancestor(budgets, b, i) != Ancestor(budgets, b, j))
    && (Parent(budgets, Ancestor(budgets, b, n).value).None? || exists m: nat :: m < n && Ancestor(budgets, b, m) == Ancestor(budgets, b, n))
  }

  /** A set that no link leaves upwards holds all ancestors of its members. */
  lemma {:induction false} AncestorsWithin(budgets: seq<Budget>, b: nat, s: set<nat>, n: nat)
    requires b in s && forall v :: v in s && Parent(budgets, v).Some? ==> Parent(budgets, v).value in s
    ensures Ancestor(budgets, b, n).Some? ==> Ancestor(budgets, b, n).value in s
  {
    if n > 0 { AncestorsWithin(budgets, b, s, n - 1); }
  }

  /** The upward search with its visited set: it ends on any data, cyclic or not, with the order of the first budget
      upwards that has one, or with none when no budget upwards does. */
  method FindOrderForBudget(budgets: seq<Budget>, orders: seq<Order>, budgetId: nat) returns (found: Option<nat>)
    ensures found.Some? ==> exists n: nat :: FoundAt(budgets, orders, budgetId, n, found)
    ensures found.None? ==> forall n: nat :: Ancestor(budgets, budgetId, n).Some? ==> OrderOf(orders, Ancestor(budgets, budgetId, n).value).None?
    ensures Rooted(budgets) ==> found == FindOrder(budgets, orders, budgetId)
    ensures found.Some? ==> found.value < |orders|
  {
    var currentId: nat := budgetId;
    var visited: set<nat> := {};
    ghost var ids := Ids(|budgets|);
    ghost var n: nat := 0;
    while currentId !in visited
      invariant Ancestor(budgets, budgetId, n) == Some(currentId) && budgetId in visited + {currentId}
      invariant forall m: nat :: m < n ==> Ancestor(budgets, budgetId, m).Some? && Ancestor(budgets, budgetId, m).value in visited
      invariant forall v :: v in visited ==> OrderOf(orders, v).None?
      invariant forall v :: v in visited && Parent(budgets, v).Some? ==> Parent(budgets, v).value in visited + {currentId}
      invariant Rooted(budgets) ==> forall v :: v in visited ==> currentId < v
      invariant Rooted(budgets) ==> FindOrder(budgets, orders, currentId) == FindOrder(budgets, orders, budgetId)
      decreases ids - visited
    {
      visited := visited + {currentId};
      var order := OrderOf(orders, currentId);
      if order.Some? {
        assert FoundAt(budgets, orders, budgetId, n, order);
        return order;
      }
      if currentId >= |budgets| || budgets[currentId].supersedes.None? {
        forall k: nat ensures Ancestor(budgets, budgetId, k).Some? ==> Ancestor(budgets, budgetId, k).value in visited {
          AncestorsWithin(budgets, budgetId, visited, k);
        }
        return None;
      }
      assert currentId in ids;
      currentId := budgets[currentId].supersedes.value;
      n := n + 1;
    }
    forall k: nat ensures Ancestor(budgets, budgetId, k).Some? ==> Ancestor(budgets, budgetId, k).value in visited {
      AncestorsWithin(budgets, budgetId, visited, k);
    }
    return None;
  }

  /** After n links upwards: these budgets were met, all different, and this one is next. */
  ghost predicate Climbed(budgets: seq<Budget>, b: nat, n: nat, visited: set<nat>, current: nat) {
    && Ancestor(budgets, b, n) == Some(current)
    && (forall m: nat :: m < n ==> Ancestor(budgets, b, m).Some? && Ancestor(budgets, b, m).value in visited)
    && (forall v :: v in visited ==> exists m: nat :: m < n && Ancestor(budgets, b, m) == Some(v))
    && (forall i: nat, j: nat :: i < j < n ==> Ancestor(budgets, b, i) != Ancestor(budgets, b, j))
  }

  lemma ClimbOn(budgets: seq<Budget>, b: nat, n: nat, visited: set<nat>, current: nat, next: nat)
    requires Climbed(budgets, b, n, visited, current) && current !in visited && Parent(budgets, current) == Some(next)
    ensures Climbed(budgets, b, n + 1, visited + {current}, next)
  {
    assert Ancestor(budgets, b, n + 1) == Some(next);
    forall v | v in visited + {current} ensures exists m: nat :: m < n + 1 && Ancestor(budgets, b, m) == Some(v) {
      if v == current { assert Ancestor(budgets, b, n) == Some(v); } else { var m: nat :| m < n && Ancestor(budgets, b, m) == Some(v); }
    }
    forall i: nat, j: nat | i < j < n + 1 ensures Ancestor(budgets, b, i) != Ancestor(budgets, b, j) {
      if j == n { assert Ancestor(budgets, b, i).value in visited; }
    }
  }

  lemma ClimbStops(budgets: seq<Budget>, b: nat, n: nat, visited: set<nat>, current: nat)
    requires Climbed(budgets, b, n, visited, current) && (Parent(budgets, current).None? || current in visited)
    ensures StopsAt(budgets, b, n)
  {
  }

  /** The walk to the original: it ends on any data, at a budget without a link or at the first one met twice. */
  method RootBudgetId(budgets: seq<Budget>, budgetId: nat) returns (root: nat)
    ensures exists n: nat :: StopsAt(budgets, budgetId, n) && Ancestor(budgets, budgetId, n) == Some(root)
    ensures Rooted(budgets) ==> root == RootOf(budgets, budgetId)
  {
    var currentId: nat := budgetId;
    var visited: set<nat> := {};
    ghost var ids := Ids(|budgets|);
    ghost var n: nat := 0;
    while currentId !in visited
      invariant Climbed(budgets, budgetId, n, visited, currentId)
      invariant Rooted(budgets) ==> forall v :: v in visited ==> currentId < v
      invariant Rooted(budgets) ==> RootOf(budgets, currentId) == RootOf(budgets, budgetId)
      decreases ids - visited
    {
      if currentId >= |budgets| || budgets[currentId].supersedes.None? {
        ClimbStops(budgets, budgetId, n, visited, currentId);
        return currentId;
      }
      assert currentId in ids;
      ClimbOn(budgets, budgetId, n, visited, currentId, budgets[currentId].supersedes.value);
      visited := visited + {currentId};
      currentId := budgets[currentId].supersedes.value;
      n := n + 1;
    }
    ClimbStops(budgets, budgetId, n, visited, currentId);
    return currentId;
  }

  // ---- the family of a budget ----

  predicate Linked(budgets: seq<Budget>, child: nat, parent: nat) {
    child < |budgets| && parent < |budgets| && budgets[child].supersedes == Some(parent)
  }

  /** A set of budgets that no link leaves or enters. */
  ghost predicate ClosedUnderLinks(budgets: seq<Budget>, s: set<nat>) {
    && (forall x :: x in s ==> x < |budgets|)
    && (forall c, p :: Linked(budgets, c, p) ==> (c in s <==> p in s))
  }

  /** The connected component of b: closed, contains b, and inside every closed set that does. */
  ghost predicate IsFamily(budgets: seq<Budget>, b: nat, s: set<nat>) {
    && b in s
    && ClosedUnderLinks(budgets, s)
    && forall other: set<nat> :: ClosedUnderLinks(budgets, other) && b in other ==> s <= other
  }

  /** Walk up, then breadth-first down. On any data, cycles included, it ends with exactly the family. */
  method ListRevisionFamily(budgets: seq<Budget>, budgetId: nat) returns (found: set<nat>)
    ensures budgetId >= |budgets| ==> found == {}
    ensures budgetId < |budgets| ==> IsFamily(budgets, budgetId, found)
  {
    found := {};
    if budgetId >= |budgets| {
      return;
    }
    found := {budgetId};
    ghost var ids := Ids(|budgets|);
    var ancestor: nat := budgetId;
    while budgets[ancestor].supersedes.Some?
      invariant budgetId in found && ancestor in found && found <= ids
      invariant forall c, p :: Linked(budgets, c, p) && c in found && c != ancestor ==> p in found
      invariant forall other: set<nat> :: ClosedUnderLinks(budgets, other) && budgetId in other ==> found <= other
      decreases ids - found
    {
      var next := budgets[ancestor].supersedes.value;
      if next in found || next >= |budgets| {
        break;
      }
      assert Linked(budgets, ancestor, next);
      assert next in ids;
      found := found + {next};
      ancestor := next;
    }
    assert forall c, p :: Linked(budgets, c, p) && c in found ==> p in found;
    var frontier := found;
    while frontier != {}
      invariant budgetId in found && frontier <= found <= ids
      invariant forall c, p :: Linked(budgets, c, p) && c in found ==> p in found
      invariant forall c, p :: Linked(budgets, c, p) && p in found && p !in frontier ==> c in found
      invariant forall other: set<nat> :: ClosedUnderLinks(budgets, other) && budgetId in other ==> found <= other
      decreases ids - found, frontier != {}
    {
      var children := set c | 0 <= c < |budgets| && budgets[c].supersedes.Some? && budgets[c].supersedes.value in frontier;
      assert forall c :: c in children ==> Linked(budgets, c, budgets[c].supersedes.value);
      frontier := children - found;
      found := found + frontier;
    }
  }

  /** Every member of a family leads to the same family. */
  lemma SameFamilyFromEveryMember(budgets: seq<Budget>, b: nat, c: nat, s: set<nat>)
    requires IsFamily(budgets, b, s) && c in s
    ensures IsFamily(budgets, c, s)
  {
    forall other: set<nat> | ClosedUnderLinks(budgets, other) && c in other
      ensures s <= other
    {
      // Otherwise what is left of s outside `other` would be closed too, and hold b but not c.
      if b !in other {
        assert ClosedUnderLinks(budgets, s - other);
        assert false;
      }
    }
  }

  lemma {:induction false} RootIsOriginal(budgets: seq<Budget>, b: nat)
    requires Rooted(budgets) && b < |budgets|
    ensures RootOf(budgets, b) < |budgets| && budgets[RootOf(budgets, b)].supersedes.None?
    ensures RootOf(budgets, RootOf(budgets, b)) == RootOf(budgets, b)
    decreases b
  {
    if budgets[b].supersedes.Some? { RootIsOriginal(budgets, budgets[b].supersedes.value); }
  }

  /** A closed set holds a budget exactly when it holds its root. */
  lemma {:induction false} ClosedSetsHoldRoots(budgets: seq<Budget>, s: set<nat>, b: nat)
    requires Rooted(budgets) && ClosedUnderLinks(budgets, s) && b < |budgets|
    ensures b in s <==> RootOf(budgets, b) in s
    decreases b
  {
    if budgets[b].supersedes.Some? {
      assert Linked(budgets, b, budgets[b].supersedes.value);
      ClosedSetsHoldRoots(budgets, s, budgets[b].supersedes.value);
    }
  }

  /** In the data the services build, a family is exactly the budgets that share a root. */
  lemma FamilySharesRoot(budgets: seq<Budget>, b: nat, s: set<nat>)
    requires Rooted(budgets) && b < |budgets| && IsFamily(budgets, b, s)
    ensures s == set x | 0 <= x < |budgets| && RootOf(budgets, x) == RootOf(budgets, b)
  {
    var same: set<nat> := set x | 0 <= x < |budgets| && RootOf(budgets, x) == RootOf(budgets, b);
    assert ClosedUnderLinks(budgets, same);
    ClosedSetsHoldRoots(budgets, s, b);
    forall x | x in same ensures x in s { ClosedSetsHoldRoots(budgets, s, x); }
  }

  // ---- revision numbers ----

  /** The member of a family with a given status and the highest revision number, among the first n budgets. */
  function Latest(budgets: seq<Budget>, root: nat, status: BudgetStatus, n: nat): (f: Option<nat>)
    requires n <= |budgets|
    ensures f.Some? ==> f.value < n && RootOf(budgets, f.value) == root && budgets[f.value].status == status
    ensures f.None? ==> forall x :: 0 <= x < n ==> RootOf(budgets, x) != root || budgets[x].status != status
    ensures f.Some? ==> forall x :: 0 <= x < n && RootOf(budgets, x) == root && budgets[x].status == status ==>
                          budgets[x].revision <= budgets[f.value].revision
  {
    if n == 0 then None
    else
      var best := Latest(budgets, root, status, n - 1);
      if RootOf(budgets, n - 1) == root && budgets[n - 1].status == status &&
         (best.None? || budgets[best.value].revision < budgets[n - 1].revision)
      then Some(n - 1) else best
  }

  /** The highest revision number of a family, at least `floor`. */
  function HighestNumber(budgets: seq<Budget>, root: nat, floor: int, n: nat): (r: int)
    requires n <= |budgets|
    ensures r >= floor
    ensures forall x :: 0 <= x < n && RootOf(budgets, x) == root ==> budgets[x].revision <= r
  {
    if n == 0 then floor
    else
      var rest := HighestNumber(budgets, root, floor, n - 1);
      if RootOf(budgets, n - 1) == root then Max(rest, budgets[n - 1].revision) else rest
  }

  lemma {:induction false} HighestIsReached(budgets: seq<Budget>, root: nat, floor: int, n: nat)
    requires n <= |budgets|
    ensures var r := HighestNumber(budgets, root, floor, n);
            r == floor || exists x :: 0 <= x < n && RootOf(budgets, x) == root && budgets[x].revision == r
  {
    if n > 0 { HighestIsReached(budgets, root, floor, n - 1); }
  }

  /** The invariant of the revision tree. */
  ghost predicate TreeSound(budgets: seq<Budget>) {
    && Rooted(budgets)
    && (forall c: nat, p: nat :: Linked(budgets, c, p) ==>
          budgets[p].revision < budgets[c].revision && budgets[p].vehicle == budgets[c].vehicle)
    && (forall x, y :: 0 <= x < y < |budgets| && RootOf(budgets, x) == RootOf(budgets, y) ==>
          budgets[x].revision != budgets[y].revision)
  }

  /** Only the links matter to the root. */
  lemma {:induction false} RootFrame(budgets: seq<Budget>, budgets': seq<Budget>, b: nat)
    requires |budgets| <= |budgets'| && b < |budgets|
    requires forall x :: 0 <= x < |budgets| ==> budgets'[x].supersedes == budgets[x].supersedes
    ensures RootOf(budgets', b) == RootOf(budgets, b)
    decreases b
  {
    if budgets[b].supersedes.Some? && budgets[b].supersedes.value < b {
      RootFrame(budgets, budgets', budgets[b].supersedes.value);
    }
  }

  /** Edits that leave links, numbers and vehicles alone keep the tree sound. */
  lemma TreeFrame(budgets: seq<Budget>, budgets': seq<Budget>)
    requires TreeSound(budgets) && |budgets'| == |budgets|
    requires forall x :: 0 <= x < |budgets| ==>
               && budgets'[x].supersedes == budgets[x].supersedes
               && budgets'[x].revision == budgets[x].revision
               && budgets'[x].vehicle == budgets[x].vehicle
    ensures TreeSound(budgets')
    ensures forall x :: 0 <= x < |budgets| ==> RootOf(budgets', x) == RootOf(budgets, x)
  {
    forall x: nat | x < |budgets| ensures RootOf(budgets', x) == RootOf(budgets, x) { RootFrame(budgets, budgets', x); }
    forall x: nat, y: nat | x < y < |budgets| && RootOf(budgets', x) == RootOf(budgets', y)
      ensures budgets'[x].revision != budgets'[y].revision
    {
      assert RootOf(budgets, x) == RootOf(budgets, y);
    }
    forall c: nat, p: nat | Linked(budgets', c, p)
      ensures budgets'[p].revision < budgets'[c].revision && budgets'[p].vehicle == budgets'[c].vehicle
    {
      assert Linked(budgets, c, p);
    }
  }

  /** A new budget keeps the tree sound if it is an original, or follows its source with a number above its whole family. */
  lemma TreeGrows(budgets: seq<Budget>, new': Budget)
    requires TreeSound(budgets)
    requires new'.supersedes.Some? ==>
               && new'.supersedes.value < |budgets|
               && new'.vehicle == budgets[new'.supersedes.value].vehicle
               && forall x :: 0 <= x < |budgets| && RootOf(budgets, x) == RootOf(budgets, new'.supersedes.value) ==>
                    budgets[x].revision < new'.revision
    ensures TreeSound(budgets + [new'])
    ensures forall x :: 0 <= x < |budgets| ==> RootOf(budgets + [new'], x) == RootOf(budgets, x)
    ensures RootOf(budgets + [new'], |budgets|) ==
            if new'.supersedes.Some? then RootOf(budgets, new'.supersedes.value) else |budgets|
  {
    var budgets' := budgets + [new'];
    forall x | 0 <= x < |budgets| ensures RootOf(budgets', x) == RootOf(budgets, x) { RootFrame(budgets, budgets', x); }
    forall c: nat, p: nat | Linked(budgets', c, p)
      ensures budgets'[p].revision < budgets'[c].revision && budgets'[p].vehicle == budgets'[c].vehicle
    {
      if c < |budgets| { assert p < c && Linked(budgets, c, p); }
    }
  }

  // ---- one order per family ----

  /** Every order hangs on an original budget, and no two on the same one. */
  ghost predicate OneOrderPerFamily(budgets: seq<Budget>, orders: seq<Order>) {
    && (forall x :: 0 <= x < |orders| ==> orders[x].budget < |budgets| && budgets[orders[x].budget].supersedes.None?)
    && (forall x, y :: 0 <= x < y < |orders| ==> orders[x].budget != orders[y].budget)
  }

  /** Only links matter to the upward search. */
  lemma {:induction false} SearchFrame(budgets: seq<Budget>, budgets': seq<Budget>, orders: seq<Order>, b: nat)
    requires |budgets'| == |budgets|
    requires forall x :: 0 <= x < |budgets| ==> budgets'[x].supersedes == budgets[x].supersedes
    ensures FindOrder(budgets', orders, b) == FindOrder(budgets, orders, b)
    decreases b
  {
    if b < |budgets| && budgets[b].supersedes.Some? && budgets[b].supersedes.value < b {
      SearchFrame(budgets, budgets', orders, budgets[b].supersedes.value);
    }
  }

  /** From any revision, the upward search finds the order of the family's root, if there is one. */
  lemma {:induction false} SearchFindsFamilyOrder(budgets: seq<Budget>, orders: seq<Order>, b: nat)
    requires Rooted(budgets) && OneOrderPerFamily(budgets, orders) && b < |budgets|
    ensures FindOrder(budgets, orders, b) == OrderOf(orders, RootOf(budgets, b))
    decreases b
  {
    if budgets[b].supersedes.Some? {
      SearchFindsFamilyOrder(budgets, orders, budgets[b].supersedes.value);
    }
  }
}
