/** Which executing orders can still be finished. */
module Finishing {
  import opened Schema
  import opened Reservations
  import opened Withdrawals
  import opened Inventory
  import opened Revisions
  import opened Workshop
  import opened Lifecycle
  import opened Safety
  import opened Stock
  import opened Execution
  import opened Families

  /** An executing order holds exactly what has not been taken yet. */
  ghost predicate Intact(t: Tables, o: nat) {
    && o < |t.orders| && t.orders[o].status == EmExecucao
    && forall p :: Qty(t.reservations, o, p) + Taken(t.withdrawals, o, p) == Required(t.orders[o].products, p)
  }

  /** An executing order is either intact or stranded. */
  lemma IntactOrStranded(t: Tables, o: nat)
    requires Sound(t) && o < |t.orders| && t.orders[o].status == EmExecucao
    ensures Intact(t, o) <==> !exists p :: Stranded(t, o, p)
  {
    forall p ensures Qty(t.reservations, o, p) + Taken(t.withdrawals, o, p) <= Required(t.orders[o].products, p) {
      assert Fits(t.orders[o], o, p, t.reservations, t.withdrawals);
    }
    if !Intact(t, o) {
      var p :| Qty(t.reservations, o, p) + Taken(t.withdrawals, o, p) != Required(t.orders[o].products, p);
      assert Qty(t.reservations, o, p) + Taken(t.withdrawals, o, p) <= Required(t.orders[o].products, p);
      assert Stranded(t, o, p);
    }
  }

  ghost predicate SomethingLeft(t: Tables, o: nat)
    requires o < |t.orders|
  {
    exists p :: Taken(t.withdrawals, o, p) < Required(t.orders[o].products, p)
  }

  /** Exactly these calls strand an intact order: reconciling it, receiving goods for one of its requests, or
      sending a revision of its budget, as long as something remains to be taken out. */
  lemma StrandedByCallIff(t: Tables, step: Step, o: nat)
    requires Sound(t) && Rooted(t.budgets) && Intact(t, o) && step != StepFinishService(o)
    ensures (exists p :: Stranded(Next(t, step), o, p)) <==> Releases(t, step, o) && SomethingLeft(t, o)
  {
    var t' := Next(t, step);
    OnlyFinishLeaves(t, step, o);
    EveryCallStepsOrders(t, step);
    assert OrderStep(t.orders[o], t'.orders[o], step.StepOverrideStatus?);
    assert t'.orders[o].products == t.orders[o].products;
    forall p ensures Qty(t'.reservations, o, p) + Taken(t'.withdrawals, o, p) ==
                     (if Releases(t, step, o) then 0 else Qty(t.reservations, o, p)) + Taken(t.withdrawals, o, p)
    {
      ExecutingUnits(t, step, o, p);
    }
    if Releases(t, step, o) && SomethingLeft(t, o) {
      var p :| Taken(t.withdrawals, o, p) < Required(t.orders[o].products, p);
      assert Stranded(t', o, p);
    }
  }

  /** Once stranded, an order stays in execution, stranded, in every run whatsoever. */
  lemma {:induction false} StrandedForever(t: Tables, steps: seq<Step>, o: nat, p: nat)
    requires Sound(t) && FamiliesSound(t) && Stranded(t, o, p)
    ensures Sound(Run(t, steps)) && FamiliesSound(Run(t, steps)) && Stranded(Run(t, steps), o, p)
  {
    if steps != [] {
      var t1 := Run(t, steps[..|steps| - 1]);
      StrandedForever(t, steps[..|steps| - 1], o, p);
      EveryCallKeepsSound(t1, steps[|steps| - 1]);
      EveryCallKeepsFamilies(t1, steps[|steps| - 1]);
      StrandedStays(t1, steps[|steps| - 1], o, p);
    }
  }

  // ---- an intact order can be finished ----

  lemma RunOne(t: Tables, step: Step)
    ensures Run(t, [step]) == Next(t, step)
  {
  }

  /** Units of the first n products still to be taken out. */
  function Left(t: Tables, o: nat, n: nat): int
    requires o < |t.orders|
  {
    if n == 0 then 0
    else Left(t, o, n - 1) + Required(t.orders[o].products, n - 1) - Taken(t.withdrawals, o, n - 1)
  }

  lemma {:induction false} LeftShrinks(t: Tables, t': Tables, o: nat, p: nat, n: nat)
    requires o < |t.orders| && o < |t'.orders| && t'.orders[o].products == t.orders[o].products
    requires forall q :: Taken(t.withdrawals, o, q) <= Taken(t'.withdrawals, o, q)
    ensures Left(t', o, n) <= Left(t, o, n)
    ensures p < n && Taken(t.withdrawals, o, p) < Taken(t'.withdrawals, o, p) ==> Left(t', o, n) < Left(t, o, n)
  {
    if n > 0 { LeftShrinks(t, t', o, p, n - 1); }
  }

  lemma {:induction false} LeftIsNatural(t: Tables, o: nat, n: nat)
    requires Sound(t) && Intact(t, o)
    ensures Left(t, o, n) >= 0
  {
    if n > 0 { LeftIsNatural(t, o, n - 1); }
  }

  ghost predicate Going(t: Tables, o: nat) {
    Sound(t) && NoOverselling(t) && Intact(t, o)
  }

  /** More of p has been taken out for the order, no less of anything else, and the order still goes. */
  ghost predicate MoreTaken(t: Tables, t': Tables, o: nat, p: nat) {
    && Going(t', o) && |t'.stock| == |t.stock| && t'.orders == t.orders
    && (forall q :: Taken(t.withdrawals, o, q) <= Taken(t'.withdrawals, o, q))
    && Taken(t.withdrawals, o, p) < Taken(t'.withdrawals, o, p)
  }

  /** A pending withdrawal of an intact order goes through. */
  lemma FulfillGoes(t: Tables, w: nat, o: nat, p: nat)
    requires Going(t, o) && w < |t.withdrawals|
    requires t.withdrawals[w].order == o && t.withdrawals[w].product == p && t.withdrawals[w].status == Unfulfilled
    ensures MoreTaken(t, Next(t, StepFulfillWithdrawal(w)), o, p)
  {
    var t' := Next(t, StepFulfillWithdrawal(w));
    PendingCounts(t.withdrawals, w);
    assert Fits(t.orders[o], o, p, t.reservations, t.withdrawals);
    assert InStock(t, p);
    FulfillNeedsOnlyItsReservation(t, w);
    FulfillKeepsSound(t, w);
    forall q ensures InStock(t', q) {
      assert InStock(t, q);
      FulfillKeepsInStock(t, w, q);
    }
    forall q
      ensures Qty(t'.reservations, o, q) + Taken(t'.withdrawals, o, q) == Required(t.orders[o].products, q)
      ensures Taken(t.withdrawals, o, q) <= Taken(t'.withdrawals, o, q)
      ensures q == p ==> Taken(t.withdrawals, o, q) < Taken(t'.withdrawals, o, q)
    {
      FulfillMovesUnits(t, w, o, q);
      SumsUpdate(t.withdrawals, w, t.withdrawals[w].(status := Fulfilled), o, q);
    }
  }

  /** With nothing pending, the missing units can be asked for. */
  lemma RequestGoes(t: Tables, o: nat, p: nat)
    requires Going(t, o) && Asked(t.withdrawals, o, p) == Taken(t.withdrawals, o, p) < Required(t.orders[o].products, p)
    ensures var units := Required(t.orders[o].products, p) - Taken(t.withdrawals, o, p);
            var t' := Next(t, StepRequestWithdrawal(o, p, units));
            && Going(t', o) && t'.stock == t.stock && t'.orders == t.orders
            && t'.withdrawals == t.withdrawals + [Withdrawal(o, p, units, Unfulfilled)]
            && (forall q :: Taken(t'.withdrawals, o, q) == Taken(t.withdrawals, o, q))
  {
    var units := Required(t.orders[o].products, p) - Taken(t.withdrawals, o, p);
    var t' := Next(t, StepRequestWithdrawal(o, p, units));
    RequestWithdrawalKeepsSound(t, o, p, units);
    forall q ensures Taken(t'.withdrawals, o, q) == Taken(t.withdrawals, o, q) {
      SumsAppend(t.withdrawals, Withdrawal(o, p, units, Unfulfilled), o, q);
    }
    StillInStock(t, t');
  }

  lemma StillInStock(t: Tables, t': Tables)
    requires NoOverselling(t) && t'.stock == t.stock && t'.reservations == t.reservations
    ensures NoOverselling(t')
  {
    forall q ensures InStock(t', q) { assert InStock(t, q); }
  }

  lemma RunTwo(t: Tables, first: Step, second: Step)
    ensures Run(t, [first] + [second]) == Next(Next(t, first), second)
  {
    RunOne(t, first);
    RunOne(Next(t, first), second);
    RunThen(t, [first], [second]);
  }

  /** What is missing of p can be asked for and taken out at once. */
  lemma TakeRest(t: Tables, o: nat, p: nat)
    requires Going(t, o) && Asked(t.withdrawals, o, p) == Taken(t.withdrawals, o, p) < Required(t.orders[o].products, p)
    ensures var units := Required(t.orders[o].products, p) - Taken(t.withdrawals, o, p);
            MoreTaken(t, Run(t, [StepRequestWithdrawal(o, p, units)] + [StepFulfillWithdrawal(|t.withdrawals|)]), o, p)
  {
    var units := Required(t.orders[o].products, p) - Taken(t.withdrawals, o, p);
    var request, w := StepRequestWithdrawal(o, p, units), |t.withdrawals|;
    RequestGoes(t, o, p);
    FulfillGoes(Next(t, request), w, o, p);
    RunTwo(t, request, StepFulfillWithdrawal(w));
  }

  /** Some calls take out more of p, and only more, and leave the order intact. */
  lemma TakeMore(t: Tables, o: nat, p: nat) returns (steps: seq<Step>)
    requires Going(t, o) && Taken(t.withdrawals, o, p) < Required(t.orders[o].products, p)
    ensures MoreTaken(t, Run(t, steps), o, p)
  {
    NonePending(t.withdrawals, o, p);
    if w :| 0 <= w < |t.withdrawals| && t.withdrawals[w].order == o && t.withdrawals[w].product == p && t.withdrawals[w].status == Unfulfilled {
      FulfillGoes(t, w, o, p);
      RunOne(t, StepFulfillWithdrawal(w));
      steps := [StepFulfillWithdrawal(w)];
    } else {
      var units := Required(t.orders[o].products, p) - Taken(t.withdrawals, o, p);
      TakeRest(t, o, p);
      steps := [StepRequestWithdrawal(o, p, units)] + [StepFulfillWithdrawal(|t.withdrawals|)];
    }
  }

  lemma {:induction false} IntactCanFinish(t: Tables, o: nat) returns (steps: seq<Step>)
    requires Going(t, o)
    ensures o < |Run(t, steps).orders| && Run(t, steps).orders[o].status == Finalizada
    decreases Left(t, o, |t.stock|)
  {
    LeftIsNatural(t, o, |t.stock|);
    if SomethingLeft(t, o) {
      var p: nat :| Taken(t.withdrawals, o, p) < Required(t.orders[o].products, p);
      RequiredIffListed(t.orders[o].products, p);
      assert p < |t.stock|;
      var first := TakeMore(t, o, p);
      LeftShrinks(t, Run(t, first), o, p, |t.stock|);
      var rest := IntactCanFinish(Run(t, first), o);
      RunThen(t, first, rest);
      steps := first + rest;
    } else {
      FinishIff(t, o);
      assert AllTaken(t, o);
      steps := [StepFinishService(o)];
      RunOne(t, StepFinishService(o));
    }
  }

  /** An executing order can still be finished by some run exactly when nothing of it has been released:
      what it holds and what was taken for it are, product by product, what it asks for. */
  lemma CanFinishIffIntact(t: Tables, o: nat)
    requires Sound(t) && FamiliesSound(t) && NoOverselling(t)
    requires o < |t.orders| && t.orders[o].status == EmExecucao
    ensures (exists steps :: o < |Run(t, steps).orders| && Run(t, steps).orders[o].status == Finalizada) <==> Intact(t, o)
  {
    IntactOrStranded(t, o);
    if Intact(t, o) {
      var steps := IntactCanFinish(t, o);
    } else {
      var p :| Stranded(t, o, p);
      forall steps ensures Stranded(Run(t, steps), o, p) { StrandedForever(t, steps, o, p); }
    }
  }
}
