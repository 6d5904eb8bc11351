/** First-come first-served sharing of a supply, as a pure function on demands in queue order. */
module Greedy {
  import opened Schema

  function Share(demands: seq<nat>, supply: nat): (shares: seq<nat>)
    ensures |shares| == |demands|
  {
    if demands == [] then []
    else
      var first := Min(demands[0], supply);
      [first] + Share(demands[1..], supply - first)
  }

  function Sum(s: seq<nat>): nat {
    if s == [] then 0 else s[0] + Sum(s[1..])
  }

  /** What a place in the queue gets, without the loop: all that those ahead of it leave, up to its demand. */
  lemma {:induction false} ShareClosedForm(demands: seq<nat>, supply: nat, k: nat)
    requires k < |demands|
    ensures Share(demands, supply)[k] == Min(demands[k], Max(supply - Sum(demands[..k]), 0))
  {
    if k == 0 {
    } else {
      ShareClosedForm(demands[1..], supply - Min(demands[0], supply), k - 1);
      assert demands[..k][1..] == demands[1..][..k - 1];
    }
  }

  lemma {:induction false} ShareWithinDemand(demands: seq<nat>, supply: nat)
    ensures forall k :: 0 <= k < |demands| ==> Share(demands, supply)[k] <= demands[k]
  {
    forall k | 0 <= k < |demands| ensures Share(demands, supply)[k] <= demands[k] {
      ShareClosedForm(demands, supply, k);
    }
  }

  /** The supply is used up to the total demand and never beyond. */
  lemma {:induction false} ShareTotal(demands: seq<nat>, supply: nat)
    ensures Sum(Share(demands, supply)) == Min(Sum(demands), supply)
  {
    if demands != [] {
      ShareTotal(demands[1..], supply - Min(demands[0], supply));
    }
  }

  lemma {:induction false} SumPrefixGrows(s: seq<nat>, i: nat, j: nat)
    requires i < j <= |s|
    ensures Sum(s[..i]) + s[i] <= Sum(s[..j])
  {
    if i == 0 {
      assert s[..j][0] == s[0];
    } else {
      SumPrefixGrows(s[1..], i - 1, j - 1);
      assert s[..i][1..] == s[1..][..i - 1];
      assert s[..j][1..] == s[1..][..j - 1];
    }
  }

  /** Whoever is served short blocks everyone behind: served orders form a prefix, and at most one is cut. */
  lemma ShortageBlocksTheRest(demands: seq<nat>, supply: nat, i: nat, j: nat)
    requires i < j < |demands|
    requires Share(demands, supply)[i] < demands[i]
    ensures Share(demands, supply)[j] == 0
  {
    ShareClosedForm(demands, supply, i);
    ShareClosedForm(demands, supply, j);
    SumPrefixGrows(demands, i, j);
  }

  /** More supply never lowers a share. */
  lemma ShareMonotone(demands: seq<nat>, supply: nat, more: nat, k: nat)
    requires supply <= more && k < |demands|
    ensures Share(demands, supply)[k] <= Share(demands, more)[k]
  {
    ShareClosedForm(demands, supply, k);
    ShareClosedForm(demands, more, k);
  }

  /** Demands that join behind change nothing ahead. */
  lemma {:induction false} ShareOfPrefix(demands: seq<nat>, behind: seq<nat>, supply: nat)
    ensures Share(demands + behind, supply)[..|demands|] == Share(demands, supply)
  {
    if demands == [] {
    } else {
      ShareOfPrefix(demands[1..], behind, supply - Min(demands[0], supply));
      assert (demands + behind)[1..] == demands[1..] + behind;
    }
  }
}
