/** The in-memory sliding-window limiter over monotone real time. */
module RateLimit {
  import opened Schema

  datatype Policy = Policy(maxRequests: int, windowSeconds: int)

  /** Drop timestamps from the left as long as they are not after the cutoff. */
  function DropOld(ts: seq<real>, cutoff: real): (r: seq<real>)
    ensures |r| <= |ts|
  {
    if ts != [] && ts[0] <= cutoff then DropOld(ts[1..], cutoff) else ts
  }

  /** What is dropped is a prefix, none of it after the cutoff; what is kept starts after it. */
  lemma {:induction false} DropOldIsTail(ts: seq<real>, cutoff: real)
    ensures var r := DropOld(ts, cutoff);
            && r == ts[|ts| - |r|..]
            && (forall i :: 0 <= i < |ts| - |r| ==> ts[i] <= cutoff)
            && (r != [] ==> r[0] > cutoff)
  {
    if ts != [] && ts[0] <= cutoff {
      DropOldIsTail(ts[1..], cutoff);
      var r := DropOld(ts, cutoff);
      assert ts[|ts| - |r|..] == ts[1..][|ts[1..]| - |r|..];
      forall i | 0 <= i < |ts| - |r| ensures ts[i] <= cutoff {
        assert i > 0 ==> ts[i] == ts[1..][i - 1];
      }
    }
  }

  ghost predicate Ascending(ts: seq<real>) {
    forall i, j :: 0 <= i < j < |ts| ==> ts[i] <= ts[j]
  }

  function Cleanup(table: map<string, seq<real>>, cutoff: real): map<string, seq<real>> {
    map k | k in table && DropOld(table[k], cutoff) != [] :: DropOld(table[k], cutoff)
  }

  /** The whole seconds to wait until the oldest timestamp leaves the window, plus one. */
  function Wait(oldest: real, window: int, now: real): int {
    (oldest + window as real - now).Floor + 1
  }

  // ---- one window ----

  /** Any maxRequests + 1 consecutive admissions span at least the window. */
  ghost predicate Spread(log: seq<real>, policy: Policy)
    requires policy.maxRequests >= 0
  {
    && Ascending(log)
    && forall i: nat :: i + policy.maxRequests < |log| ==> log[i + policy.maxRequests] - log[i] >= policy.windowSeconds as real
  }

  function CountIn(log: seq<real>, from: real, to: real): nat {
    if log == [] then 0
    else CountIn(log[..|log| - 1], from, to) + if from <= log[|log| - 1] < to then 1 else 0
  }

  lemma {:induction false} CountWithin(log: seq<real>, from: real, to: real, lo: nat, hi: nat)
    requires Ascending(log) && lo <= hi <= |log|
    requires forall i :: 0 <= i < |log| && from <= log[i] < to ==> lo <= i < hi
    ensures CountIn(log, from, to) <= hi - lo
  {
    if log != [] {
      var n := |log| - 1;
      if from <= log[n] < to {
        CountWithin(log[..n], from, to, lo, n);
      } else if hi == |log| && lo < hi {
        CountWithin(log[..n], from, to, lo, n);
      } else if hi == |log| {
        CountWithin(log[..n], from, to, n, n);
      } else {
        CountWithin(log[..n], from, to, lo, hi);
      }
    }
  }

  /** Spread out admissions number at most maxRequests in every half-open span as long as the window. */
  lemma SpreadBoundsEverySpan(log: seq<real>, policy: Policy, from: real)
    requires policy.maxRequests >= 0 && Spread(log, policy)
    ensures CountIn(log, from, from + policy.windowSeconds as real) <= policy.maxRequests
  {
    var to := from + policy.windowSeconds as real;
    var i := FirstInSpan(log, from, to);
    if i < |log| {
      var hi := Min(i + policy.maxRequests, |log|);
      forall j | hi <= j < |log| ensures log[j] >= to {
        assert log[i + policy.maxRequests] - log[i] >= policy.windowSeconds as real;
        assert log[i + policy.maxRequests] <= log[j];
      }
      CountWithin(log, from, to, i, hi);
    } else {
      CountWithin(log, from, to, 0, 0);
    }
  }

  /** The place of the first time in the span, or the length when there is none. */
  function FirstInSpan(log: seq<real>, from: real, to: real): (i: nat)
    ensures i <= |log|
    ensures i < |log| ==> from <= log[i] < to
    ensures forall j :: 0 <= j < i ==> !(from <= log[j] < to)
  {
    if log == [] || from <= log[0] < to then 0
    else
      var i := FirstInSpan(log[1..], from, to);
      assert forall j :: 0 < j < 1 + i ==> log[j] == log[1..][j - 1];
      1 + i
  }

  // ---- one key ----

  ghost predicate IsTail(ts: seq<real>, log: seq<real>) {
    |ts| <= |log| && ts == log[|log| - |ts|..]
  }

  /** A key's timestamps in the table are the end of everything ever recorded for it, not more than allowed;
      what is no longer in the table has left the window. */
  ghost predicate KeySound(ts: seq<real>, log: seq<real>, policy: Policy, now: real)
    requires policy.maxRequests >= 0
  {
    && IsTail(ts, log) && |ts| <= policy.maxRequests && Spread(log, policy)
    && (forall i :: 0 <= i < |log| ==> log[i] <= now)
    && (forall i :: 0 <= i < |log| - |ts| ==> log[i] <= now - policy.windowSeconds as real)
  }

  lemma PruningKeepsKey(ts: seq<real>, log: seq<real>, policy: Policy, now: real, now': real)
    requires policy.maxRequests >= 0 && now <= now' && KeySound(ts, log, policy, now)
    ensures KeySound(DropOld(ts, now' - policy.windowSeconds as real), log, policy, now')
  {
    var kept := DropOld(ts, now' - policy.windowSeconds as real);
    DropOldIsTail(ts, now' - policy.windowSeconds as real);
    forall i | 0 <= i < |log| - |kept| ensures log[i] <= now' - policy.windowSeconds as real {
      if i >= |log| - |ts| {
        assert ts[i - (|log| - |ts|)] == log[i];
      }
    }
  }

  lemma AdmittingKeepsKey(ts: seq<real>, log: seq<real>, policy: Policy, now: real)
    requires policy.maxRequests >= 0 && KeySound(ts, log, policy, now) && |ts| < policy.maxRequests
    ensures KeySound(ts + [now], log + [now], policy, now)
  {
  }

  // ---- one call ----

  /** The table, with everything ever recorded per key. */
  datatype Limiter = Limiter(table: map<string, seq<real>>, log: map<string, seq<real>>)

  function Lookup(m: map<string, seq<real>>, key: string): seq<real> {
    if key in m then m[key] else []
  }

  datatype Decision = Admitted | Rejected(wait: int) | Unrecorded

  function Decide(table: map<string, seq<real>>, key: string, policy: Policy, now: real, maxBuckets: nat): Decision
    requires policy.maxRequests >= 1
  {
    if key !in table && |table| >= maxBuckets then Unrecorded
    else
      var ts := DropOld(Lookup(table, key), now - policy.windowSeconds as real);
      if |ts| >= policy.maxRequests then Decision.Rejected(Wait(ts[0], policy.windowSeconds, now)) else Admitted
  }

  /** One key of a request. */
  function EnforceKey(l: Limiter, key: string, policy: Policy, now: real, maxBuckets: nat): Limiter
    requires policy.maxRequests >= 1
  {
    var ts := DropOld(Lookup(l.table, key), now - policy.windowSeconds as real);
    match Decide(l.table, key, policy, now, maxBuckets)
    case Unrecorded => l
    case Rejected(_) => l.(table := l.table[key := ts])
    case Admitted => Limiter(l.table[key := ts + [now]], l.log[key := Lookup(l.log, key) + [now]])
  }

  /** The first keys of a request, in order, and the longest wait among them. */
  function EnforceKeys(l: Limiter, keys: seq<string>, policy: Policy, now: real, maxBuckets: nat): (Limiter, int)
    requires policy.maxRequests >= 1
  {
    if keys == [] then (l, 0)
    else
      var n := |keys| - 1;
      var (before, wait) := EnforceKeys(l, keys[..n], policy, now, maxBuckets);
      var decision := Decide(before.table, keys[n], policy, now, maxBuckets);
      (EnforceKey(before, keys[n], policy, now, maxBuckets), if decision.Rejected? then Max(wait, decision.wait) else wait)
  }

  function Enforce(l: Limiter, keys: seq<string>, policy: Policy, now: real, maxBuckets: nat): (Limiter, int)
    requires policy.maxRequests >= 1
  {
    EnforceKeys(l.(table := Cleanup(l.table, now - policy.windowSeconds as real)), keys, policy, now, maxBuckets)
  }

  // ---- the invariant over runs ----

  ghost predicate Sound(l: Limiter, policy: Policy, now: real, maxBuckets: nat)
    requires policy.maxRequests >= 0
  {
    |l.table| <= maxBuckets && forall key :: KeySound(Lookup(l.table, key), Lookup(l.log, key), policy, now)
  }

  lemma CleanupKeepsSound(l: Limiter, policy: Policy, now: real, now': real, maxBuckets: nat)
    requires policy.maxRequests >= 1 && now <= now' && Sound(l, policy, now, maxBuckets)
    ensures Sound(l.(table := Cleanup(l.table, now' - policy.windowSeconds as real)), policy, now', maxBuckets)
  {
    var table := Cleanup(l.table, now' - policy.windowSeconds as real);
    Fewer(table.Keys, l.table.Keys);
    forall key ensures KeySound(Lookup(table, key), Lookup(l.log, key), policy, now') {
      PruningKeepsKey(Lookup(l.table, key), Lookup(l.log, key), policy, now, now');
      assert Lookup(table, key) == DropOld(Lookup(l.table, key), now' - policy.windowSeconds as real);
    }
  }

  lemma OtherKeysUntouched(l: Limiter, key: string, policy: Policy, now: real, maxBuckets: nat, k: string)
    requires policy.maxRequests >= 1 && k != key
    ensures var l' := EnforceKey(l, key, policy, now, maxBuckets);
            Lookup(l'.table, k) == Lookup(l.table, k) && Lookup(l'.log, k) == Lookup(l.log, k)
  {
  }

  lemma ThisKeyAfter(l: Limiter, key: string, policy: Policy, now: real, maxBuckets: nat)
    requires policy.maxRequests >= 1
    ensures var l' := EnforceKey(l, key, policy, now, maxBuckets);
            var ts := DropOld(Lookup(l.table, key), now - policy.windowSeconds as real);
            match Decide(l.table, key, policy, now, maxBuckets)
            case Unrecorded => l' == l
            case Rejected(_) => Lookup(l'.table, key) == ts && Lookup(l'.log, key) == Lookup(l.log, key)
            case Admitted => |ts| < policy.maxRequests && Lookup(l'.table, key) == ts + [now] && Lookup(l'.log, key) == Lookup(l.log, key) + [now]
  {
  }

  lemma ThisKeyStaysSound(l: Limiter, key: string, policy: Policy, now: real, maxBuckets: nat)
    requires policy.maxRequests >= 1 && KeySound(Lookup(l.table, key), Lookup(l.log, key), policy, now)
    ensures var l' := EnforceKey(l, key, policy, now, maxBuckets);
            KeySound(Lookup(l'.table, key), Lookup(l'.log, key), policy, now)
  {
    var ts := DropOld(Lookup(l.table, key), now - policy.windowSeconds as real);
    PruningKeepsKey(Lookup(l.table, key), Lookup(l.log, key), policy, now, now);
    ThisKeyAfter(l, key, policy, now, maxBuckets);
    if Decide(l.table, key, policy, now, maxBuckets).Admitted? { AdmittingKeepsKey(ts, Lookup(l.log, key), policy, now); }
  }

  lemma TableStaysBounded(l: Limiter, key: string, policy: Policy, now: real, maxBuckets: nat)
    requires policy.maxRequests >= 1 && |l.table| <= maxBuckets
    ensures |EnforceKey(l, key, policy, now, maxBuckets).table| <= maxBuckets
  {
  }

  lemma EnforceKeyKeepsSound(l: Limiter, key: string, policy: Policy, now: real, maxBuckets: nat)
    requires policy.maxRequests >= 1 && Sound(l, policy, now, maxBuckets)
    ensures Sound(EnforceKey(l, key, policy, now, maxBuckets), policy, now, maxBuckets)
  {
    TableStaysBounded(l, key, policy, now, maxBuckets);
    forall k ensures var l' := EnforceKey(l, key, policy, now, maxBuckets);
                     KeySound(Lookup(l'.table, k), Lookup(l'.log, k), policy, now) {
      assert KeySound(Lookup(l.table, k), Lookup(l.log, k), policy, now);
      if k == key {
        ThisKeyStaysSound(l, key, policy, now, maxBuckets);
      } else {
        OtherKeysUntouched(l, key, policy, now, maxBuckets, k);
      }
    }
  }

  lemma {:induction false} EnforceKeysKeepsSound(l: Limiter, keys: seq<string>, policy: Policy, now: real, maxBuckets: nat)
    requires policy.maxRequests >= 1 && Sound(l, policy, now, maxBuckets)
    ensures Sound(EnforceKeys(l, keys, policy, now, maxBuckets).0, policy, now, maxBuckets)
  {
    if keys != [] {
      EnforceKeysKeepsSound(l, keys[..|keys| - 1], policy, now, maxBuckets);
      EnforceKeyKeepsSound(EnforceKeys(l, keys[..|keys| - 1], policy, now, maxBuckets).0, keys[|keys| - 1], policy, now, maxBuckets);
    }
  }

  const Start := Limiter(map[], map[])

  function After(l: Limiter, calls: seq<(seq<string>, real)>, policy: Policy, maxBuckets: nat): Limiter
    requires policy.maxRequests >= 1
  {
    if calls == [] then l
    else
      var n := |calls| - 1;
      Enforce(After(l, calls[..n], policy, maxBuckets), calls[n].0, policy, calls[n].1, maxBuckets).0
  }

  ghost predicate Monotonic(calls: seq<(seq<string>, real)>) {
    forall i, j :: 0 <= i < j < |calls| ==> calls[i].1 <= calls[j].1
  }

  lemma EnforceKeepsSound(l: Limiter, keys: seq<string>, policy: Policy, now: real, now': real, maxBuckets: nat)
    requires policy.maxRequests >= 1 && now <= now' && Sound(l, policy, now, maxBuckets)
    ensures Sound(Enforce(l, keys, policy, now', maxBuckets).0, policy, now', maxBuckets)
  {
    CleanupKeepsSound(l, policy, now, now', maxBuckets);
    EnforceKeysKeepsSound(l.(table := Cleanup(l.table, now' - policy.windowSeconds as real)), keys, policy, now', maxBuckets);
  }

  lemma EmptyIsSound(policy: Policy, now: real, maxBuckets: nat)
    requires policy.maxRequests >= 1
    ensures Sound(Start, policy, now, maxBuckets)
  {
  }

  lemma {:induction false} RunIsSound(calls: seq<(seq<string>, real)>, policy: Policy, maxBuckets: nat)
    requires policy.maxRequests >= 1 && Monotonic(calls)
    ensures Sound(After(Start, calls, policy, maxBuckets), policy, if calls == [] then 0.0 else calls[|calls| - 1].1, maxBuckets)
  {
    if calls == [] {
      EmptyIsSound(policy, 0.0, maxBuckets);
    } else {
      var n := |calls| - 1;
      var now := calls[n].1;
      RunIsSound(calls[..n], policy, maxBuckets);
      EmptyIsSound(policy, now, maxBuckets);
      EnforceKeepsSound(After(Start, calls[..n], policy, maxBuckets), calls[n].0, policy,
                        if n == 0 then now else calls[..n][n - 1].1, now, maxBuckets);
    }
  }

  /** Over any run at non-decreasing times: each key's recorded admissions number at most maxRequests in every
      half-open span as long as the window, and the table never outgrows its bound. */
  lemma SlidingWindowBound(calls: seq<(seq<string>, real)>, policy: Policy, maxBuckets: nat, key: string, from: real)
    requires policy.maxRequests >= 1 && Monotonic(calls)
    ensures CountIn(Lookup(After(Start, calls, policy, maxBuckets).log, key), from, from + policy.windowSeconds as real) <= policy.maxRequests
    ensures |After(Start, calls, policy, maxBuckets).table| <= maxBuckets
  {
    RunIsSound(calls, policy, maxBuckets);
    var l := After(Start, calls, policy, maxBuckets);
    assert KeySound(Lookup(l.table, key), Lookup(l.log, key), policy, if calls == [] then 0.0 else calls[|calls| - 1].1);
    SpreadBoundsEverySpan(Lookup(l.log, key), policy, from);
  }

  lemma WaitGrows(l: Limiter, keys: seq<string>, policy: Policy, now: real, maxBuckets: nat)
    requires policy.maxRequests >= 1 && keys != []
    ensures var n := |keys| - 1;
            var (before, wait) := EnforceKeys(l, keys[..n], policy, now, maxBuckets);
            var decision := Decide(before.table, keys[n], policy, now, maxBuckets);
            EnforceKeys(l, keys, policy, now, maxBuckets).1 == if decision.Rejected? then Max(wait, decision.wait) else wait
  {
  }

  lemma {:induction false} WaitIsTheLongest(l: Limiter, keys: seq<string>, i: nat, policy: Policy, now: real, maxBuckets: nat)
    requires policy.maxRequests >= 1 && i < |keys|
    ensures var (before, _) := EnforceKeys(l, keys[..i], policy, now, maxBuckets);
            var decision := Decide(before.table, keys[i], policy, now, maxBuckets);
            decision.Rejected? ==> decision.wait <= EnforceKeys(l, keys, policy, now, maxBuckets).1
    decreases |keys|
  {
    var n := |keys| - 1;
    WaitGrows(l, keys, policy, now, maxBuckets);
    if i < n {
      assert keys[..n][..i] == keys[..i] && keys[..n][i] == keys[i];
      WaitIsTheLongest(l, keys[..n], i, policy, now, maxBuckets);
    }
  }

  // ---- what an answer means ----

  /** The key was recorded just now, or there was no room for it in a full table. */
  ghost predicate RecordedOrNoRoom(l: Limiter, key: string, now: real, maxBuckets: nat) {
    var log := Lookup(l.log, key);
    (log != [] && log[|log| - 1] == now) || (|l.table| == maxBuckets && key !in l.table)
  }

  lemma RejectionWaits(l: Limiter, key: string, policy: Policy, now: real, maxBuckets: nat)
    requires policy.maxRequests >= 1 && Decide(l.table, key, policy, now, maxBuckets).Rejected?
    ensures Decide(l.table, key, policy, now, maxBuckets).wait >= 1
  {
    DropOldIsTail(Lookup(l.table, key), now - policy.windowSeconds as real);
  }

  lemma StillRecorded(l: Limiter, key: string, k: string, policy: Policy, now: real, maxBuckets: nat)
    requires policy.maxRequests >= 1 && |l.table| <= maxBuckets && RecordedOrNoRoom(l, k, now, maxBuckets)
    ensures RecordedOrNoRoom(EnforceKey(l, key, policy, now, maxBuckets), k, now, maxBuckets)
  {
  }

  lemma NowRecorded(l: Limiter, key: string, policy: Policy, now: real, maxBuckets: nat)
    requires policy.maxRequests >= 1 && |l.table| <= maxBuckets && !Decide(l.table, key, policy, now, maxBuckets).Rejected?
    ensures RecordedOrNoRoom(EnforceKey(l, key, policy, now, maxBuckets), key, now, maxBuckets)
  {
  }

  /** A request that is let through is recorded under each of its keys, except those for which a full table has no room. */
  lemma {:induction false} AdmissionIsRecorded(l: Limiter, keys: seq<string>, policy: Policy, now: real, maxBuckets: nat)
    requires policy.maxRequests >= 1 && |l.table| <= maxBuckets
    ensures var (l', wait) := EnforceKeys(l, keys, policy, now, maxBuckets);
            && wait >= 0 && |l'.table| <= maxBuckets
            && (wait == 0 ==> forall k :: k in keys ==> RecordedOrNoRoom(l', k, now, maxBuckets))
  {
    if keys != [] {
      var n := |keys| - 1;
      AdmissionIsRecorded(l, keys[..n], policy, now, maxBuckets);
      var (before, waited) := EnforceKeys(l, keys[..n], policy, now, maxBuckets);
      var (l', wait) := EnforceKeys(l, keys, policy, now, maxBuckets);
      TableStaysBounded(before, keys[n], policy, now, maxBuckets);
      if Decide(before.table, keys[n], policy, now, maxBuckets).Rejected? {
        RejectionWaits(before, keys[n], policy, now, maxBuckets);
      } else {
        NowRecorded(before, keys[n], policy, now, maxBuckets);
        forall k | wait == 0 && k in keys ensures RecordedOrNoRoom(l', k, now, maxBuckets) {
          if k in keys[..n] { StillRecorded(before, keys[n], k, policy, now, maxBuckets); }
        }
      }
    }
  }

  /** What the window leaves of a key's timestamps are its recorded admissions inside the window, all of them. */
  lemma WindowCount(ts: seq<real>, log: seq<real>, policy: Policy, now: real, later: real)
    requires policy.maxRequests >= 0 && KeySound(ts, log, policy, now) && now <= later
    ensures |DropOld(ts, later - policy.windowSeconds as real)| == CountSince(log, later - policy.windowSeconds as real)
  {
    var cutoff := later - policy.windowSeconds as real;
    PruningKeepsKey(ts, log, policy, now, later);
    DropOldIsTail(ts, cutoff);
    var left := DropOld(ts, cutoff);
    forall i | |log| - |left| <= i < |log| ensures log[i] > cutoff { assert left[0] == log[|log| - |left|]; }
    CountOfTail(log, |log| - |left|, cutoff);
  }

  /** Among different keys, none influences what another is answered. */
  lemma {:induction false} EachKeyAnswers(l: Limiter, keys: seq<string>, policy: Policy, now: real, maxBuckets: nat)
    requires policy.maxRequests >= 1 && forall i, j :: 0 <= i < j < |keys| ==> keys[i] != keys[j]
    ensures EnforceKeys(l, keys, policy, now, maxBuckets).1 >= 0
    ensures EnforceKeys(l, keys, policy, now, maxBuckets).1 == 0 <==>
            forall k :: k in keys ==> |DropOld(Lookup(l.table, k), now - policy.windowSeconds as real)| < policy.maxRequests
  {
    if keys != [] {
      var n := |keys| - 1;
      EachKeyAnswers(l, keys[..n], policy, now, maxBuckets);
      OtherKeysLeaveIt(l, keys[..n], policy, now, maxBuckets, keys[n]);
      var before := EnforceKeys(l, keys[..n], policy, now, maxBuckets).0;
      if Decide(before.table, keys[n], policy, now, maxBuckets).Rejected? { RejectionWaits(before, keys[n], policy, now, maxBuckets); }
      assert forall k :: k in keys <==> k in keys[..n] || k == keys[n];
    }
  }

  /** In every state of every run: a request is let through exactly when each of its keys has fewer than max_requests
      recorded admissions inside the window. */
  lemma LetThroughIff(l: Limiter, keys: seq<string>, policy: Policy, start: real, now: real, maxBuckets: nat)
    requires policy.maxRequests >= 1 && Sound(l, policy, start, maxBuckets) && start <= now
    requires forall i, j :: 0 <= i < j < |keys| ==> keys[i] != keys[j]
    ensures Enforce(l, keys, policy, now, maxBuckets).1 == 0 <==>
            forall k :: k in keys ==> CountSince(Lookup(l.log, k), now - policy.windowSeconds as real) < policy.maxRequests
  {
    var cutoff := now - policy.windowSeconds as real;
    var cleaned := l.(table := Cleanup(l.table, cutoff));
    EachKeyAnswers(cleaned, keys, policy, now, maxBuckets);
    forall k ensures |DropOld(Lookup(cleaned.table, k), cutoff)| == CountSince(Lookup(l.log, k), cutoff) {
      CleanedCount(l, policy, start, now, maxBuckets, k);
    }
  }

  lemma CleanedCount(l: Limiter, policy: Policy, start: real, now: real, maxBuckets: nat, k: string)
    requires policy.maxRequests >= 1 && Sound(l, policy, start, maxBuckets) && start <= now
    ensures var cutoff := now - policy.windowSeconds as real;
            |DropOld(Lookup(Cleanup(l.table, cutoff), k), cutoff)| == CountSince(Lookup(l.log, k), cutoff)
  {
    var cutoff := now - policy.windowSeconds as real;
    assert KeySound(Lookup(l.table, k), Lookup(l.log, k), policy, start);
    CleanupLookup(l, cutoff, k);
    DropOldTwice(Lookup(l.table, k), cutoff, cutoff);
    WindowCount(Lookup(l.table, k), Lookup(l.log, k), policy, start, now);
  }

  /** Every key in the table has a timestamp inside the window. */
  ghost predicate AllRecent(table: map<string, seq<real>>, cutoff: real) {
    forall k :: k in table ==> table[k] != [] && table[k][0] > cutoff
  }

  lemma CleanupLeavesRecent(table: map<string, seq<real>>, cutoff: real)
    ensures AllRecent(Cleanup(table, cutoff), cutoff)
  {
    forall k | k in Cleanup(table, cutoff) ensures Cleanup(table, cutoff)[k] != [] && Cleanup(table, cutoff)[k][0] > cutoff {
      DropOldIsTail(table[k], cutoff);
    }
  }

  lemma {:induction false} EnforceKeysLeavesRecent(l: Limiter, keys: seq<string>, policy: Policy, now: real, maxBuckets: nat)
    requires policy.maxRequests >= 1 && policy.windowSeconds > 0 && AllRecent(l.table, now - policy.windowSeconds as real)
    ensures AllRecent(EnforceKeys(l, keys, policy, now, maxBuckets).0.table, now - policy.windowSeconds as real)
  {
    if keys != [] {
      var n := |keys| - 1;
      EnforceKeysLeavesRecent(l, keys[..n], policy, now, maxBuckets);
      EnforceKeyLeavesRecent(EnforceKeys(l, keys[..n], policy, now, maxBuckets).0, keys[n], policy, now, maxBuckets);
    }
  }

  lemma EnforceKeyLeavesRecent(l: Limiter, key: string, policy: Policy, now: real, maxBuckets: nat)
    requires policy.maxRequests >= 1 && policy.windowSeconds > 0 && AllRecent(l.table, now - policy.windowSeconds as real)
    ensures AllRecent(EnforceKey(l, key, policy, now, maxBuckets).table, now - policy.windowSeconds as real)
  {
    DropOldIsTail(Lookup(l.table, key), now - policy.windowSeconds as real);
  }

  /** In every state of every run: a request that is let through is recorded under each of its keys, unless the table is
      full of other keys every one of which has a recorded admission inside the window. */
  lemma UnrecordedOnlyWhenCrowded(l: Limiter, keys: seq<string>, policy: Policy, start: real, now: real, maxBuckets: nat, key: string)
    requires policy.maxRequests >= 1 && policy.windowSeconds > 0 && Sound(l, policy, start, maxBuckets) && start <= now
    requires Enforce(l, keys, policy, now, maxBuckets).1 == 0 && key in keys
    ensures var l' := Enforce(l, keys, policy, now, maxBuckets).0;
            var log := Lookup(l'.log, key);
            || (log != [] && log[|log| - 1] == now)
            || (|l'.table| == maxBuckets && key !in l'.table
                && forall k :: k in l'.table ==> CountSince(Lookup(l'.log, k), now - policy.windowSeconds as real) >= 1)
  {
    var cutoff := now - policy.windowSeconds as real;
    var l' := Enforce(l, keys, policy, now, maxBuckets).0;
    EnforceRecords(l, keys, policy, now, maxBuckets);
    EnforceKeepsSound(l, keys, policy, start, now, maxBuckets);
    RecentIsCounted(l', policy, now, maxBuckets);
    assert RecordedOrNoRoom(l', key, now, maxBuckets);
  }

  lemma EnforceRecords(l: Limiter, keys: seq<string>, policy: Policy, now: real, maxBuckets: nat)
    requires policy.maxRequests >= 1 && policy.windowSeconds > 0 && |l.table| <= maxBuckets
    ensures var (l', wait) := Enforce(l, keys, policy, now, maxBuckets);
            && AllRecent(l'.table, now - policy.windowSeconds as real)
            && (wait == 0 ==> forall k :: k in keys ==> RecordedOrNoRoom(l', k, now, maxBuckets))
  {
    var cutoff := now - policy.windowSeconds as real;
    var cleaned := l.(table := Cleanup(l.table, cutoff));
    Fewer(cleaned.table.Keys, l.table.Keys);
    AdmissionIsRecorded(cleaned, keys, policy, now, maxBuckets);
    CleanupLeavesRecent(l.table, cutoff);
    EnforceKeysLeavesRecent(cleaned, keys, policy, now, maxBuckets);
  }

  lemma RecentIsCounted(l: Limiter, policy: Policy, now: real, maxBuckets: nat)
    requires policy.maxRequests >= 1 && Sound(l, policy, now, maxBuckets) && AllRecent(l.table, now - policy.windowSeconds as real)
    ensures forall k :: k in l.table ==> CountSince(Lookup(l.log, k), now - policy.windowSeconds as real) >= 1
  {
    forall k | k in l.table ensures CountSince(Lookup(l.log, k), now - policy.windowSeconds as real) >= 1 {
      assert KeySound(Lookup(l.table, k), Lookup(l.log, k), policy, now);
      WindowCount(Lookup(l.table, k), Lookup(l.log, k), policy, now, now);
    }
  }

  lemma {:induction false} DropOldTwice(ts: seq<real>, earlier: real, later: real)
    requires earlier <= later
    ensures DropOld(DropOld(ts, earlier), later) == DropOld(ts, later)
  {
    if ts != [] && ts[0] <= earlier { DropOldTwice(ts[1..], earlier, later); }
  }

  lemma CleanupLookup(l: Limiter, cutoff: real, key: string)
    ensures Lookup(Cleanup(l.table, cutoff), key) == DropOld(Lookup(l.table, key), cutoff)
  {
  }

  lemma {:induction false} OtherKeysLeaveIt(l: Limiter, keys: seq<string>, policy: Policy, now: real, maxBuckets: nat, key: string)
    requires policy.maxRequests >= 1 && key !in keys
    ensures Lookup(EnforceKeys(l, keys, policy, now, maxBuckets).0.table, key) == Lookup(l.table, key)
  {
    if keys != [] {
      var n := |keys| - 1;
      OtherKeysLeaveIt(l, keys[..n], policy, now, maxBuckets, key);
      OtherKeysUntouched(EnforceKeys(l, keys[..n], policy, now, maxBuckets).0, keys[n], policy, now, maxBuckets, key);
    }
  }

  ghost predicate Between(calls: seq<(seq<string>, real)>, key: string, from: real, to: real) {
    Monotonic(calls) && forall i :: 0 <= i < |calls| ==> from <= calls[i].1 <= to && key !in calls[i].0
  }

  lemma OtherCallOnlyPrunes(l: Limiter, keys: seq<string>, policy: Policy, now: real, key: string, to: real, maxBuckets: nat)
    requires policy.maxRequests >= 1 && key !in keys && now <= to
    ensures DropOld(Lookup(Enforce(l, keys, policy, now, maxBuckets).0.table, key), to - policy.windowSeconds as real)
            == DropOld(Lookup(l.table, key), to - policy.windowSeconds as real)
  {
    var cutoff := now - policy.windowSeconds as real;
    CleanupLookup(l, cutoff, key);
    OtherKeysLeaveIt(l.(table := Cleanup(l.table, cutoff)), keys, policy, now, maxBuckets, key);
    DropOldTwice(Lookup(l.table, key), cutoff, to - policy.windowSeconds as real);
  }

  /** Calls that do not name a key only prune it: whenever it is looked at, what is left is what its window leaves. */
  lemma {:induction false} OtherCallsOnlyPrune(l: Limiter, calls: seq<(seq<string>, real)>, policy: Policy, key: string, from: real, to: real, maxBuckets: nat)
    requires policy.maxRequests >= 1 && Between(calls, key, from, to)
    ensures DropOld(Lookup(After(l, calls, policy, maxBuckets).table, key), to - policy.windowSeconds as real)
            == DropOld(Lookup(l.table, key), to - policy.windowSeconds as real)
  {
    if calls != [] {
      var n := |calls| - 1;
      OtherCallsOnlyPrune(l, calls[..n], policy, key, from, to, maxBuckets);
      OtherCallOnlyPrunes(After(l, calls[..n], policy, maxBuckets), calls[n].0, policy, calls[n].1, key, to, maxBuckets);
    }
  }

  /** What one call on one key answers, and what it leaves in the table. */
  lemma OneKeyAnswer(l: Limiter, key: string, policy: Policy, now: real, maxBuckets: nat)
    requires policy.maxRequests >= 1
    ensures var (l', wait) := Enforce(l, [key], policy, now, maxBuckets);
            var ts := DropOld(Lookup(l.table, key), now - policy.windowSeconds as real);
            if |ts| >= policy.maxRequests
            then wait == Max(0, Wait(ts[0], policy.windowSeconds, now)) && Lookup(l'.table, key) == ts
            else wait == 0
  {
    var cutoff := now - policy.windowSeconds as real;
    var cleaned := l.(table := Cleanup(l.table, cutoff));
    CleanupLookup(l, cutoff, key);
    DropOldTwice(Lookup(l.table, key), cutoff, cutoff);
    assert [key][..0] == [];
    assert EnforceKeys(cleaned, [key][..0], policy, now, maxBuckets) == (cleaned, 0);
    WaitGrows(cleaned, [key], policy, now, maxBuckets);
    ThisKeyAfter(cleaned, key, policy, now, maxBuckets);
  }

  /** In every state of every run: a rejected key that calls again after the seconds it was told is let through,
      whatever other keys have called in between; more than one second earlier, it is rejected again. */
  lemma RejectedKeyFindsItsSlot(l: Limiter, key: string, policy: Policy, start: real, now: real,
                                others: seq<(seq<string>, real)>, later: real, maxBuckets: nat)
    requires policy.maxRequests >= 1 && Sound(l, policy, start, maxBuckets) && start <= now <= later
    requires Between(others, key, now, later)
    ensures var (rejected, wait) := Enforce(l, [key], policy, now, maxBuckets);
            var (_, again) := Enforce(After(rejected, others, policy, maxBuckets), [key], policy, later, maxBuckets);
            wait > 0 ==>
              && (later >= now + wait as real ==> again == 0)
              && (later < now + (wait - 1) as real ==> again > 0)
  {
    var (rejected, wait) := Enforce(l, [key], policy, now, maxBuckets);
    var ts := DropOld(Lookup(l.table, key), now - policy.windowSeconds as real);
    OneKeyAnswer(l, key, policy, now, maxBuckets);
    OneKeyAnswer(After(rejected, others, policy, maxBuckets), key, policy, later, maxBuckets);
    OtherCallsOnlyPrune(rejected, others, policy, key, now, later, maxBuckets);
    if wait > 0 {
      assert KeySound(Lookup(l.table, key), Lookup(l.log, key), policy, start);
      PruningKeepsKey(Lookup(l.table, key), Lookup(l.log, key), policy, start, now);
      WaitFreesASlot(ts, policy, now, later);
    }
  }

  lemma WaitFreesASlot(ts: seq<real>, policy: Policy, now: real, later: real)
    requires ts != [] && |ts| <= policy.maxRequests && ts[0] > now - policy.windowSeconds as real && now <= later
    ensures var wait, left := Wait(ts[0], policy.windowSeconds, now), DropOld(ts, later - policy.windowSeconds as real);
            && wait >= 1
            && (later >= now + wait as real ==> |left| < policy.maxRequests)
            && (later < now + (wait - 1) as real ==>
                  left == ts && (|ts| >= policy.maxRequests ==> Wait(ts[0], policy.windowSeconds, later) >= 1))
  {
    DropOldIsTail(ts, later - policy.windowSeconds as real);
  }

  // ---- the limiter as an object ----

  class InMemoryRateLimitBackend {
    const maxBuckets: nat
    var requests: map<string, seq<real>>
    ghost var log: map<string, seq<real>>

    ghost function Value(): Limiter
      reads this
    {
      Limiter(requests, log)
    }

    constructor (maxBuckets: nat)
      requires maxBuckets >= 1
      ensures this.maxBuckets == maxBuckets && Value() == Limiter(map[], map[])
    {
      this.maxBuckets := maxBuckets;
      requests, log := map[], map[];
    }

    /** Take timestamps off the front as long as they are not after the cutoff. */
    method PopOld(key: string, cutoff: real)
      requires key in requests
      modifies this`requests
      ensures requests == old(requests)[key := DropOld(old(requests)[key], cutoff)]
    {
      var ts := requests[key];
      while ts != [] && ts[0] <= cutoff
        invariant DropOld(ts, cutoff) == DropOld(requests[key], cutoff)
        decreases |ts|
      {
        ts := ts[1..];
      }
      requests := requests[key := ts];
    }

    /** Prune every key, then drop the keys that have nothing left. */
    method CleanupAll(cutoff: real)
      modifies this`requests
      ensures requests == Cleanup(old(requests), cutoff)
    {
      var stale: set<string> := {};
      var todo := requests.Keys;
      while todo != {}
        invariant requests.Keys == old(requests).Keys && todo <= requests.Keys
        invariant forall k :: k in requests ==>
                    requests[k] == if k in todo then old(requests)[k] else DropOld(old(requests)[k], cutoff)
        invariant forall k :: k in stale <==> k in requests.Keys - todo && requests[k] == []
        decreases todo
      {
        var key :| key in todo;
        PopOld(key, cutoff);
        if requests[key] == [] {
          stale := stale + {key};
        }
        todo := todo - {key};
      }
      requests := requests - stale;
    }

    method EnforceOne(key: string, policy: Policy, now: real) returns (decision: Decision)
      requires policy.maxRequests >= 1
      modifies this
      ensures decision == Decide(old(requests), key, policy, now, maxBuckets)
      ensures Value() == EnforceKey(old(Value()), key, policy, now, maxBuckets)
    {
      if key !in requests {
        if |requests| >= maxBuckets {
          return Unrecorded;
        }
        requests := requests[key := []];
      }
      PopOld(key, now - policy.windowSeconds as real);
      var timestamps := requests[key];
      assert timestamps == DropOld(Lookup(old(requests), key), now - policy.windowSeconds as real);
      assert requests == old(requests)[key := timestamps];
      if |timestamps| >= policy.maxRequests {
        return Decision.Rejected(Wait(timestamps[0], policy.windowSeconds, now));
      }
      requests := requests[key := timestamps + [now]];
      log := log[key := Lookup(log, key) + [now]];
      return Admitted;
    }

    method EnforceAll(keys: seq<string>, policy: Policy, now: real) returns (retryAfter: int)
      requires policy.maxRequests >= 1
      modifies this
      ensures (Value(), retryAfter) == Enforce(old(Value()), keys, policy, now, maxBuckets)
    {
      CleanupAll(now - policy.windowSeconds as real);
      ghost var start := Value();
      retryAfter := 0;
      assert keys[..0] == [];
      for n := 0 to |keys|
        invariant (Value(), retryAfter) == EnforceKeys(start, keys[..n], policy, now, maxBuckets)
      {
        assert keys[..n + 1][..n] == keys[..n];
        var decision := EnforceOne(keys[n], policy, now);
        if decision.Rejected? {
          retryAfter := Max(retryAfter, decision.wait);
        }
      }
      assert keys[..|keys|] == keys;
    }
  }
}
