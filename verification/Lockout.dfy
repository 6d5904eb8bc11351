/** The in-memory login lockout: failures per key inside a window lock the key for a while, in a bounded table. */
module Lockout {
  import opened Schema

  datatype Limits = Limits(maxAttempts: int, windowSeconds: int, lockoutSeconds: int, maxBuckets: nat)

  datatype Bucket = Bucket(attempts: seq<real>, lockedUntil: real, lastSeen: real)

  type Table = map<string, Bucket>

  function Recent(ts: seq<real>, cutoff: real): seq<real> {
    if ts == [] then []
    else Recent(ts[..|ts| - 1], cutoff) + if ts[|ts| - 1] > cutoff then [ts[|ts| - 1]] else []
  }

  function Prune(b: Bucket, limits: Limits, now: real): Bucket {
    b.(attempts := Recent(b.attempts, now - limits.windowSeconds as real))
  }

  predicate Stale(b: Bucket, limits: Limits, now: real) {
    b.lockedUntil <= now && b.attempts == [] && b.lastSeen < now - limits.windowSeconds as real
  }

  /** Prune every bucket and drop those that are unlocked, empty and not seen inside the window. */
  function Cleanup(t: Table, limits: Limits, now: real): Table {
    map k | k in t && !Stale(Prune(t[k], limits, now), limits, now) :: Prune(t[k], limits, now)
  }

  function Unlocked(t: Table, now: real): set<string> {
    set k | k in t && t[k].lockedUntil <= now
  }

  /** An unlocked bucket seen no later than any other unlocked one. */
  predicate Oldest(t: Table, victim: string, now: real) {
    victim in Unlocked(t, now) && forall k :: k in Unlocked(t, now) ==> t[victim].lastSeen <= t[k].lastSeen
  }

  // ---- the table with its history ----

  /** `since`: every failure reported on a key since its last lock or success. `lost`: the keys of which a failure
      was turned away or a bucket evicted since then. */
  datatype Limiter = Limiter(table: Table, since: map<string, seq<real>>, lost: set<string>)

  const Fresh := Limiter(map[], map[], {})

  function Attempts(t: Table, key: string): seq<real> {
    if key in t then t[key].attempts else []
  }

  function Since(l: Limiter, key: string): seq<real> {
    if key in l.since then l.since[key] else []
  }

  predicate Locks(t: Table, key: string, limits: Limits, now: real) {
    |Recent(Attempts(t, key), now - limits.windowSeconds as real)| + 1 >= limits.maxAttempts
  }

  /** The bucket of a key after one more failure. */
  function Failed(t: Table, key: string, limits: Limits, now: real): Bucket {
    if Locks(t, key, limits, now) then Bucket([], now + limits.lockoutSeconds as real, now)
    else
      Bucket(Recent(Attempts(t, key), now - limits.windowSeconds as real) + [now],
             if key in t then t[key].lockedUntil else 0.0, now)
  }

  function Record(l: Limiter, key: string, limits: Limits, now: real): Limiter {
    var table := l.table[key := Failed(l.table, key, limits, now)];
    if Locks(l.table, key, limits, now) then Limiter(table, l.since[key := []], l.lost - {key})
    else Limiter(table, l.since[key := Since(l, key) + [now]], l.lost)
  }

  function TurnAway(l: Limiter, key: string, now: real): Limiter {
    l.(since := l.since[key := Since(l, key) + [now]], lost := l.lost + {key})
  }

  function Evict(l: Limiter, victim: string): Limiter {
    l.(table := l.table - {victim}, lost := l.lost + {victim})
  }

  predicate MustEvict(t: Table, key: string, limits: Limits, now: real) {
    key !in t && |Cleanup(t, limits, now)| >= limits.maxBuckets && Unlocked(Cleanup(t, limits, now), now) != {}
  }

  /** The table once room has been sought for the key; `victim` matters only when a bucket must be evicted. */
  function MakeRoom(l: Limiter, key: string, victim: string, limits: Limits, now: real): Limiter {
    if key in l.table then l
    else
      var cleaned := l.(table := Cleanup(l.table, limits, now));
      if MustEvict(l.table, key, limits, now) then Evict(cleaned, victim) else cleaned
  }

  function Fail(l: Limiter, key: string, victim: string, limits: Limits, now: real): Limiter {
    var room := MakeRoom(l, key, victim, limits, now);
    if key in room.table || |room.table| < limits.maxBuckets then Record(room, key, limits, now) else TurnAway(room, key, now)
  }

  predicate VictimFits(t: Table, key: string, victim: string, limits: Limits, now: real) {
    MustEvict(t, key, limits, now) ==> Oldest(Cleanup(t, limits, now), victim, now)
  }

  /** A failure is reported on several keys at once; each may need a victim of its own. */
  function FailAll(l: Limiter, keys: seq<(string, string)>, limits: Limits, now: real): Limiter {
    if keys == [] then l
    else
      var n := |keys| - 1;
      Fail(FailAll(l, keys[..n], limits, now), keys[n].0, keys[n].1, limits, now)
  }

  function KeysOf(failures: seq<(string, string)>): seq<string> {
    seq(|failures|, i requires 0 <= i < |failures| => failures[i].0)
  }

  /** Reporting failures on the keys, with these victims, legally leads from `start` to `l`. */
  ghost predicate Reported(start: Limiter, keys: seq<string>, failures: seq<(string, string)>, limits: Limits, now: real, l: Limiter) {
    KeysOf(failures) == keys && VictimsFit(start, failures, limits, now) && l == FailAll(start, failures, limits, now)
  }

  lemma ReportedNext(start: Limiter, keys: seq<string>, failures: seq<(string, string)>, limits: Limits, now: real,
                     l: Limiter, key: string, victim: string)
    requires Reported(start, keys, failures, limits, now, l) && VictimFits(l.table, key, victim, limits, now)
    ensures Reported(start, keys + [key], failures + [(key, victim)], limits, now, Fail(l, key, victim, limits, now))
  {
  }

  predicate VictimsFit(l: Limiter, keys: seq<(string, string)>, limits: Limits, now: real) {
    keys != [] ==>
      var n := |keys| - 1;
      && VictimsFit(l, keys[..n], limits, now)
      && VictimFits(FailAll(l, keys[..n], limits, now).table, keys[n].0, keys[n].1, limits, now)
  }

  function Succeed(l: Limiter, keys: seq<string>): Limiter {
    Limiter(l.table - set k | k in keys, map k | k in l.since && k !in keys :: l.since[k], l.lost - set k | k in keys)
  }

  function LongestLock(t: Table, keys: seq<string>, now: real): real {
    if keys == [] then 0.0
    else
      var n := |keys| - 1;
      var before := LongestLock(t, keys[..n], now);
      if keys[n] in t && t[keys[n]].lockedUntil > now && t[keys[n]].lockedUntil - now > before
      then t[keys[n]].lockedUntil - now else before
  }

  function RetryAfter(t: Table, keys: seq<string>, now: real): int {
    var wait := LongestLock(t, keys, now);
    if wait > 0.0 then wait.Floor + 1 else 0
  }

  datatype Call =
    | Failure(failures: seq<(string, string)>, now: real)
    | Success(keys: seq<string>, now: real)
    | Query(keys: seq<string>, now: real)
    | Reset(now: real)

  predicate Legal(l: Limiter, call: Call, limits: Limits) {
    call.Failure? ==> VictimsFit(l, call.failures, limits, call.now)
  }

  function Next(l: Limiter, call: Call, limits: Limits): Limiter {
    match call
    case Failure(failures, now) => FailAll(l, failures, limits, now)
    case Success(keys, _) => Succeed(l, keys)
    case Query(_, now) => l.(table := Cleanup(l.table, limits, now))
    case Reset(_) => Fresh
  }

  function After(l: Limiter, calls: seq<Call>, limits: Limits): Limiter {
    if calls == [] then l else Next(After(l, calls[..|calls| - 1], limits), calls[|calls| - 1], limits)
  }

  /** Legal calls at non-decreasing times, none before `start`. */
  ghost predicate LegalRun(l: Limiter, calls: seq<Call>, limits: Limits, start: real) {
    calls != [] ==>
      var n := |calls| - 1;
      && LegalRun(l, calls[..n], limits, start)
      && Legal(After(l, calls[..n], limits), calls[n], limits)
      && calls[n].now >= Clock(calls[..n], start)
  }

  function Clock(calls: seq<Call>, start: real): real {
    if calls == [] then start else calls[|calls| - 1].now
  }

  // ---- what every call keeps ----

  ghost predicate BucketSound(b: Bucket, limits: Limits, now: real) {
    && (limits.maxAttempts >= 1 ==> |b.attempts| < limits.maxAttempts)
    && (b.lockedUntil <= 0.0 || b.lockedUntil <= now + limits.lockoutSeconds as real)
    && b.lastSeen <= now
  }

  /** Inside the window, a key whose history is complete has exactly the failures reported on it. */
  ghost predicate Complete(l: Limiter, key: string, limits: Limits, now: real) {
    key !in l.lost ==>
      var cutoff := now - limits.windowSeconds as real;
      Recent(Attempts(l.table, key), cutoff) == Recent(Since(l, key), cutoff)
  }

  ghost predicate Bounded(t: Table, limits: Limits, now: real) {
    && |t| <= limits.maxBuckets
    && forall k :: k in t ==> BucketSound(t[k], limits, now)
  }

  ghost predicate Sound(l: Limiter, limits: Limits, now: real) {
    && now >= 0.0
    && Bounded(l.table, limits, now)
    && forall k :: Complete(l, k, limits, now)
  }

  lemma {:induction false} RecentTwice(ts: seq<real>, earlier: real, later: real)
    requires earlier <= later
    ensures Recent(Recent(ts, earlier), later) == Recent(ts, later)
    ensures |Recent(ts, earlier)| <= |ts|
  {
    if ts != [] {
      var n := |ts| - 1;
      RecentTwice(ts[..n], earlier, later);
      if ts[n] > earlier {
        RecentSnoc(Recent(ts[..n], earlier), ts[n], later);
      } else {
        assert Recent(ts, earlier) == Recent(ts[..n], earlier);
        assert Recent(ts, later) == Recent(ts[..n], later);
      }
    }
  }

  lemma RecentSnoc(ts: seq<real>, t: real, cutoff: real)
    ensures Recent(ts + [t], cutoff) == Recent(ts, cutoff) + if t > cutoff then [t] else []
  {
  }

  lemma TimeKeepsComplete(l: Limiter, key: string, limits: Limits, now: real, now': real)
    requires now <= now' && Complete(l, key, limits, now)
    ensures Complete(l, key, limits, now')
  {
    var cutoff, cutoff' := now - limits.windowSeconds as real, now' - limits.windowSeconds as real;
    RecentTwice(Attempts(l.table, key), cutoff, cutoff');
    RecentTwice(Since(l, key), cutoff, cutoff');
  }

  lemma TimeKeepsSound(l: Limiter, limits: Limits, now: real, now': real)
    requires now <= now' && Sound(l, limits, now)
    ensures Sound(l, limits, now')
  {
    forall k ensures Complete(l, k, limits, now') {
      assert Complete(l, k, limits, now);
      TimeKeepsComplete(l, k, limits, now, now');
    }
    forall k | k in l.table ensures BucketSound(l.table[k], limits, now') {
      assert BucketSound(l.table[k], limits, now);
    }
  }

  lemma CleanupKeepsBounded(t: Table, limits: Limits, now: real)
    requires Bounded(t, limits, now)
    ensures Bounded(Cleanup(t, limits, now), limits, now)
  {
    var cleaned := Cleanup(t, limits, now);
    Fewer(cleaned.Keys, t.Keys);
    forall k | k in cleaned ensures BucketSound(cleaned[k], limits, now) {
      assert BucketSound(t[k], limits, now);
      RecentTwice(t[k].attempts, now - limits.windowSeconds as real, now - limits.windowSeconds as real);
    }
  }

  lemma CleanupPrunes(t: Table, key: string, limits: Limits, now: real)
    ensures Attempts(Cleanup(t, limits, now), key) == Recent(Attempts(t, key), now - limits.windowSeconds as real)
  {
  }

  lemma CleanupKeepsComplete(l: Limiter, key: string, limits: Limits, now: real)
    requires Complete(l, key, limits, now)
    ensures Complete(l.(table := Cleanup(l.table, limits, now)), key, limits, now)
  {
    CleanupPrunes(l.table, key, limits, now);
    StillComplete(l, l.(table := Cleanup(l.table, limits, now)), key, limits, now);
  }

  lemma StillComplete(l: Limiter, l': Limiter, key: string, limits: Limits, now: real)
    requires Complete(l, key, limits, now) && l'.since == l.since && l'.lost == l.lost
    requires Attempts(l'.table, key) == Recent(Attempts(l.table, key), now - limits.windowSeconds as real)
    ensures Complete(l', key, limits, now)
  {
    if key !in l.lost {
      PrunedAgain(Attempts(l.table, key), Attempts(l'.table, key), Since(l, key), now - limits.windowSeconds as real);
    }
  }

  lemma PrunedAgain(attempts: seq<real>, kept: seq<real>, since: seq<real>, cutoff: real)
    requires kept == Recent(attempts, cutoff) == Recent(since, cutoff)
    ensures Recent(kept, cutoff) == Recent(since, cutoff)
  {
    RecentTwice(attempts, cutoff, cutoff);
  }

  lemma CleanupKeepsSound(l: Limiter, limits: Limits, now: real)
    requires Sound(l, limits, now)
    ensures Sound(l.(table := Cleanup(l.table, limits, now)), limits, now)
  {
    CleanupKeepsBounded(l.table, limits, now);
    var l' := l.(table := Cleanup(l.table, limits, now));
    forall k ensures Complete(l', k, limits, now) {
      assert Complete(l, k, limits, now);
      CleanupKeepsComplete(l, k, limits, now);
    }
  }

  lemma EvictKeepsSound(l: Limiter, victim: string, limits: Limits, now: real)
    requires Sound(l, limits, now)
    ensures Sound(Evict(l, victim), limits, now)
  {
    var l' := Evict(l, victim);
    Fewer(l'.table.Keys, l.table.Keys);
    forall k ensures Complete(l', k, limits, now) {
      assert Complete(l, k, limits, now);
    }
  }

  lemma RecordKeepsBounded(l: Limiter, key: string, limits: Limits, now: real)
    requires now >= 0.0 && Bounded(l.table, limits, now) && (key in l.table || |l.table| < limits.maxBuckets)
    ensures Bounded(Record(l, key, limits, now).table, limits, now)
  {
  }

  lemma RecordElsewhere(l: Limiter, key: string, k: string, limits: Limits, now: real)
    requires k != key
    ensures var l' := Record(l, key, limits, now);
            && Attempts(l'.table, k) == Attempts(l.table, k)
            && Since(l', k) == Since(l, k)
            && (k in l'.lost <==> k in l.lost)
  {
  }

  lemma RecordHere(l: Limiter, key: string, limits: Limits, now: real)
    ensures var l' := Record(l, key, limits, now);
            if Locks(l.table, key, limits, now)
            then Attempts(l'.table, key) == [] && Since(l', key) == []
            else
              && Attempts(l'.table, key) == Recent(Attempts(l.table, key), now - limits.windowSeconds as real) + [now]
              && Since(l', key) == Since(l, key) + [now]
              && l'.lost == l.lost
  {
  }

  lemma OneMore(attempts: seq<real>, since: seq<real>, cutoff: real, now: real)
    requires Recent(attempts, cutoff) == Recent(since, cutoff)
    ensures Recent(Recent(attempts, cutoff) + [now], cutoff) == Recent(since + [now], cutoff)
  {
    RecentTwice(attempts, cutoff, cutoff);
    RecentSnoc(Recent(attempts, cutoff), now, cutoff);
    RecentSnoc(since, now, cutoff);
  }

  lemma RecordKeepsComplete(l: Limiter, key: string, k: string, limits: Limits, now: real)
    requires Complete(l, k, limits, now)
    ensures Complete(Record(l, key, limits, now), k, limits, now)
  {
    if k == key {
      var cutoff := now - limits.windowSeconds as real;
      RecordHere(l, key, limits, now);
      if !Locks(l.table, key, limits, now) && key !in l.lost {
        OneMore(Attempts(l.table, key), Since(l, key), cutoff, now);
      }
    } else {
      RecordElsewhere(l, key, k, limits, now);
    }
  }

  lemma TurnAwayKeepsComplete(l: Limiter, key: string, k: string, limits: Limits, now: real)
    requires Complete(l, k, limits, now)
    ensures Complete(TurnAway(l, key, now), k, limits, now)
  {
  }

  lemma FailKeepsSound(l: Limiter, key: string, victim: string, limits: Limits, now: real)
    requires Sound(l, limits, now)
    ensures Sound(Fail(l, key, victim, limits, now), limits, now)
  {
    var room := MakeRoom(l, key, victim, limits, now);
    assert Sound(room, limits, now) by {
      CleanupKeepsSound(l, limits, now);
      EvictKeepsSound(l.(table := Cleanup(l.table, limits, now)), victim, limits, now);
    }
    if key in room.table || |room.table| < limits.maxBuckets {
      RecordKeepsBounded(room, key, limits, now);
      forall k ensures Complete(Record(room, key, limits, now), k, limits, now) {
        assert Complete(room, k, limits, now);
        RecordKeepsComplete(room, key, k, limits, now);
      }
    } else {
      forall k ensures Complete(TurnAway(room, key, now), k, limits, now) {
        assert Complete(room, k, limits, now);
        TurnAwayKeepsComplete(room, key, k, limits, now);
      }
    }
  }

  lemma {:induction false} FailAllKeepsSound(l: Limiter, keys: seq<(string, string)>, limits: Limits, now: real)
    requires Sound(l, limits, now)
    ensures Sound(FailAll(l, keys, limits, now), limits, now)
  {
    if keys != [] {
      var n := |keys| - 1;
      FailAllKeepsSound(l, keys[..n], limits, now);
      FailKeepsSound(FailAll(l, keys[..n], limits, now), keys[n].0, keys[n].1, limits, now);
    }
  }

  lemma SucceedKeepsSound(l: Limiter, keys: seq<string>, limits: Limits, now: real)
    requires Sound(l, limits, now)
    ensures Sound(Succeed(l, keys), limits, now)
  {
    var l' := Succeed(l, keys);
    Fewer(l'.table.Keys, l.table.Keys);
    forall k ensures Complete(l', k, limits, now) {
      assert Complete(l, k, limits, now);
    }
  }

  lemma EveryCallKeepsSound(l: Limiter, call: Call, limits: Limits, now: real)
    requires Sound(l, limits, now) && now <= call.now
    ensures Sound(Next(l, call, limits), limits, call.now)
  {
    TimeKeepsSound(l, limits, now, call.now);
    match call
    case Failure(failures, t) => FailAllKeepsSound(l, failures, limits, t);
    case Success(keys, t) => SucceedKeepsSound(l, keys, limits, t);
    case Query(_, t) => CleanupKeepsSound(l, limits, t);
    case Reset(_) =>
  }

  /** In every state of every run the table is within its bound, stored attempts stay below the threshold, and a
      key whose history is complete has, inside the window, exactly the failures reported on it. */
  lemma {:induction false} EveryRunIsSound(calls: seq<Call>, limits: Limits, start: real)
    requires start >= 0.0 && LegalRun(Fresh, calls, limits, start)
    ensures Sound(After(Fresh, calls, limits), limits, Clock(calls, start))
  {
    if calls != [] {
      var n := |calls| - 1;
      EveryRunIsSound(calls[..n], limits, start);
      EveryCallKeepsSound(After(Fresh, calls[..n], limits), calls[n], limits, Clock(calls[..n], start));
    }
  }

  /** What the window keeps is all that lies inside it. */
  lemma {:induction false} RecentCounts(ts: seq<real>, cutoff: real)
    ensures |Recent(ts, cutoff)| == CountSince(ts, cutoff)
  {
    if ts == [] {
      CountOfTail(ts, 0, cutoff);
    } else {
      var n := |ts| - 1;
      RecentCounts(ts[..n], cutoff);
      CountSnoc(ts[..n], ts[n], cutoff);
      assert ts[..n] + [ts[n]] == ts;
    }
  }

  /** A failure on a key with a complete history locks it exactly when, with this one, maxAttempts failures since
      its last lock fall inside the window; the lock then lasts lockoutSeconds. */
  lemma LockedAtTheThreshold(l: Limiter, key: string, victim: string, limits: Limits, now: real)
    requires Sound(l, limits, now) && limits.lockoutSeconds > 0
    requires key !in Fail(l, key, victim, limits, now).lost && key !in l.lost
    requires key in l.table ==> l.table[key].lockedUntil <= now
    ensures var t' := Fail(l, key, victim, limits, now).table;
            && key in t' && t'[key].lastSeen == now
            && (t'[key].lockedUntil > now
                <==> CountSince(Since(l, key), now - limits.windowSeconds as real) + 1 >= limits.maxAttempts)
            && (t'[key].lockedUntil > now ==> t'[key].lockedUntil == now + limits.lockoutSeconds as real)
  {
    var room := MakeRoom(l, key, victim, limits, now);
    var cutoff := now - limits.windowSeconds as real;
    assert Complete(l, key, limits, now);
    RecentCounts(Since(l, key), cutoff);
    NoRoomChangesTheKey(l, key, victim, limits, now);
    if key in room.table || |room.table| < limits.maxBuckets {
      FailedIsLocked(room.table, key, limits, now);
    }
  }

  /** Making room leaves the attempts of the key itself as they are. */
  lemma NoRoomChangesTheKey(l: Limiter, key: string, victim: string, limits: Limits, now: real)
    ensures var room := MakeRoom(l, key, victim, limits, now);
            && Attempts(room.table, key) == Attempts(l.table, key)
            && (key in room.table ==> key in l.table && room.table[key] == l.table[key])
  {
  }

  lemma FailedIsLocked(t: Table, key: string, limits: Limits, now: real)
    requires limits.lockoutSeconds > 0 && now >= 0.0
    requires key in t ==> t[key].lockedUntil <= now
    ensures var b := Failed(t, key, limits, now);
            && b.lastSeen == now
            && (b.lockedUntil > now <==> Locks(t, key, limits, now))
            && (b.lockedUntil > now ==> b.lockedUntil == now + limits.lockoutSeconds as real)
  {
  }

  /** A clean-up keeps exactly the buckets that are locked, have an attempt inside the window, or were seen in it; of their
      attempts it keeps exactly those inside the window, and their locks stay. */
  lemma CleanupKeeps(t: Table, limits: Limits, now: real, k: string)
    ensures var cutoff := now - limits.windowSeconds as real;
            && (k in Cleanup(t, limits, now) <==>
                  k in t && (t[k].lockedUntil > now || CountSince(t[k].attempts, cutoff) > 0 || t[k].lastSeen >= cutoff))
            && (k in Cleanup(t, limits, now) ==>
                  && Cleanup(t, limits, now)[k].lockedUntil == t[k].lockedUntil && Cleanup(t, limits, now)[k].lastSeen == t[k].lastSeen
                  && |Cleanup(t, limits, now)[k].attempts| == CountSince(t[k].attempts, cutoff))
  {
    if k in t { RecentCounts(t[k].attempts, now - limits.windowSeconds as real); }
  }

  /** A failure is turned away only when the table is full of locks; else the key has a bucket afterwards. */
  lemma TurnedAwayOnlyByLocks(l: Limiter, key: string, victim: string, limits: Limits, now: real)
    requires |l.table| <= limits.maxBuckets && VictimFits(l.table, key, victim, limits, now)
    requires key !in Fail(l, key, victim, limits, now).table
    ensures var t' := Fail(l, key, victim, limits, now).table;
            |t'| == limits.maxBuckets && forall k :: k in t' ==> t'[k].lockedUntil > now
  {
    var cleaned := Cleanup(l.table, limits, now);
    Fewer(cleaned.Keys, l.table.Keys);
    if MustEvict(l.table, key, limits, now) {
      EvictingMakesRoom(cleaned, victim, limits, now);
    } else {
      AllLocked(cleaned, now);
    }
  }

  lemma EvictingMakesRoom(t: Table, victim: string, limits: Limits, now: real)
    requires Oldest(t, victim, now) && |t| <= limits.maxBuckets
    ensures |t - {victim}| < limits.maxBuckets
  {
    assert (t - {victim}).Keys == t.Keys - {victim};
    assert |(t - {victim}).Keys| == |t.Keys| - 1;
  }

  lemma AllLocked(t: Table, now: real)
    ensures Unlocked(t, now) == {} ==> forall k :: k in t ==> t[k].lockedUntil > now
  {
    forall k | k in t && t[k].lockedUntil <= now ensures k in Unlocked(t, now) { }
  }

  /** A failure changes no bucket but its own, except that the clean-up of a full search prunes and drops, and one unlocked
      bucket, seen no later than any other unlocked one, may be evicted. */
  lemma EvictedIsOldest(l: Limiter, key: string, victim: string, limits: Limits, now: real, k: string)
    requires VictimFits(l.table, key, victim, limits, now) && k != key
    requires k in Cleanup(l.table, limits, now) && k !in Fail(l, key, victim, limits, now).table
    ensures var t' := Cleanup(l.table, limits, now);
            && k == victim && t'[k].lockedUntil <= now && |t'| >= limits.maxBuckets
            && forall other :: other in t' && t'[other].lockedUntil <= now ==> t'[k].lastSeen <= t'[other].lastSeen
  {
    forall other | other in Cleanup(l.table, limits, now) && Cleanup(l.table, limits, now)[other].lockedUntil <= now
      ensures other in Unlocked(Cleanup(l.table, limits, now), now)
    {
    }
  }

  /** A success forgets the failures and the lock of each of its keys, and touches no other key: its keys need not wait, and
      their next failure is the first. */
  lemma SuccessClears(l: Limiter, keys: seq<string>, limits: Limits, now: real, k: string)
    ensures var l' := Succeed(l, keys);
            if k in keys
            then k !in l'.table && Since(l', k) == [] && k !in l'.lost && RetryAfter(l'.table, [k], now) == 0
            else (k in l'.table <==> k in l.table) && (k in l.table ==> l'.table[k] == l.table[k])
                 && Since(l', k) == Since(l, k) && (k in l'.lost <==> k in l.lost)
  {
    if k in keys {
      LongestLockIsMax(Succeed(l, keys).table, [k], now);
    }
  }

  // ---- a lock outlasts everything but a success on its key ----

  ghost predicate LockedUntil(t: Table, key: string, until: real) {
    key in t && t[key].lockedUntil >= until
  }

  lemma CleanupKeepsLock(t: Table, key: string, until: real, limits: Limits, now: real)
    requires LockedUntil(t, key, until) && now < until
    ensures LockedUntil(Cleanup(t, limits, now), key, until)
  {
  }

  lemma FailKeepsLock(l: Limiter, key: string, victim: string, limits: Limits, now: real, k: string, until: real)
    requires now >= 0.0 && VictimFits(l.table, key, victim, limits, now)
    requires LockedUntil(l.table, k, until) && now < until <= now + limits.lockoutSeconds as real
    ensures LockedUntil(Fail(l, key, victim, limits, now).table, k, until)
  {
    CleanupKeepsLock(l.table, k, until, limits, now);
    var room := MakeRoom(l, key, victim, limits, now);
    assert LockedUntil(room.table, k, until);
  }

  lemma {:induction false} FailAllKeepsLock(l: Limiter, keys: seq<(string, string)>, limits: Limits, now: real, k: string, until: real)
    requires now >= 0.0 && VictimsFit(l, keys, limits, now)
    requires LockedUntil(l.table, k, until) && now < until <= now + limits.lockoutSeconds as real
    ensures LockedUntil(FailAll(l, keys, limits, now).table, k, until)
  {
    if keys != [] {
      var n := |keys| - 1;
      FailAllKeepsLock(l, keys[..n], limits, now, k, until);
      FailKeepsLock(FailAll(l, keys[..n], limits, now), keys[n].0, keys[n].1, limits, now, k, until);
    }
  }

  ghost predicate Frees(call: Call, key: string) {
    call.Reset? || (call.Success? && key in call.keys)
  }

  /** No sequence of failures on any keys, wait queries, clean-ups or successes on other keys removes or shortens
      a lock before its time. */
  lemma {:induction false} LockOutlastsEverything(l: Limiter, calls: seq<Call>, limits: Limits, start: real, key: string)
    requires Sound(l, limits, start) && LegalRun(l, calls, limits, start)
    requires key in l.table && Clock(calls, start) < l.table[key].lockedUntil
    requires forall i :: 0 <= i < |calls| ==> !Frees(calls[i], key)
    ensures LockedUntil(After(l, calls, limits).table, key, l.table[key].lockedUntil)
    ensures start <= Clock(calls, start)
  {
    if calls != [] {
      var n, until := |calls| - 1, l.table[key].lockedUntil;
      LockOutlastsEverything(l, calls[..n], limits, start, key);
      assert BucketSound(l.table[key], limits, start);
      var before, call := After(l, calls[..n], limits), calls[n];
      assert !Frees(call, key);
      match call
      case Failure(failures, now) => FailAllKeepsLock(before, failures, limits, now, key, until);
      case Query(_, now) => CleanupKeepsLock(before.table, key, until, limits, now);
      case _ =>
    }
  }

  /** The answer to a wait query is zero exactly when no key is locked; after that many seconds every lock seen has
      run out, and after more than one second less one of them has not. */
  lemma {:induction false} LongestLockIsMax(t: Table, keys: seq<string>, now: real)
    ensures var wait := LongestLock(t, keys, now);
            && wait >= 0.0
            && (forall k :: k in keys && k in t ==> t[k].lockedUntil <= now + wait)
            && (wait > 0.0 ==> exists k :: k in keys && k in t && t[k].lockedUntil == now + wait)
  {
    if keys != [] {
      var n := |keys| - 1;
      LongestLockIsMax(t, keys[..n], now);
      assert forall k :: k in keys ==> k in keys[..n] || k == keys[n];
      assert forall k :: k in keys[..n] ==> k in keys;
    }
  }

  lemma RetryAfterIsTight(t: Table, keys: seq<string>, now: real)
    ensures var seconds := RetryAfter(t, keys, now);
            && (seconds == 0 <==> forall k :: k in keys && k in t ==> t[k].lockedUntil <= now)
            && seconds >= 0
            && (forall k :: k in keys && k in t ==> t[k].lockedUntil <= now + seconds as real)
            && (seconds > 0 ==> exists k :: k in keys && k in t && t[k].lockedUntil >= now + (seconds - 1) as real)
  {
    LongestLockIsMax(t, keys, now);
    var wait := LongestLock(t, keys, now);
    if wait > 0.0 {
      var k :| k in keys && k in t && t[k].lockedUntil == now + wait;
    }
  }

  // ---- the limiter as an object ----

  class LoginRateLimiter {
    const limits: Limits
    var buckets: Table
    ghost var since: map<string, seq<real>>
    ghost var lost: set<string>

    ghost function Value(): Limiter
      reads this
    {
      Limiter(buckets, since, lost)
    }

    constructor (limits: Limits)
      requires limits.maxBuckets >= 1
      ensures this.limits == limits && Value() == Fresh
    {
      this.limits := limits;
      buckets, since, lost := map[], map[], {};
    }

    /** Drop the attempts that have left the window. */
    method PruneBucket(key: string, now: real)
      requires key in buckets
      modifies this`buckets
      ensures buckets == old(buckets)[key := Prune(old(buckets)[key], limits, now)]
    {
      var attempts := buckets[key].attempts;
      var cutoff := now - limits.windowSeconds as real;
      var kept: seq<real> := [];
      for i := 0 to |attempts|
        invariant kept == Recent(attempts[..i], cutoff)
        invariant buckets == old(buckets)
      {
        assert attempts[..i + 1][..i] == attempts[..i];
        if attempts[i] > cutoff {
          kept := kept + [attempts[i]];
        }
      }
      assert attempts[..|attempts|] == attempts;
      buckets := buckets[key := buckets[key].(attempts := kept)];
    }

    method CleanupAll(now: real)
      modifies this`buckets
      ensures buckets == Cleanup(old(buckets), limits, now)
    {
      var stale: set<string> := {};
      var todo := buckets.Keys;
      while todo != {}
        invariant buckets.Keys == old(buckets).Keys && todo <= buckets.Keys
        invariant forall k :: k in buckets ==>
                    buckets[k] == if k in todo then old(buckets)[k] else Prune(old(buckets)[k], limits, now)
        invariant forall k :: k in stale <==> k in buckets.Keys - todo && Stale(buckets[k], limits, now)
        decreases todo
      {
        var key :| key in todo;
        PruneBucket(key, now);
        if Stale(buckets[key], limits, now) {
          stale := stale + {key};
        }
        todo := todo - {key};
      }
      buckets := buckets - stale;
    }

    /** The unlocked bucket seen longest ago, if any bucket is unlocked. */
    method OldestUnlocked(now: real) returns (victim: Option<string>)
      ensures victim.None? <==> Unlocked(buckets, now) == {}
      ensures victim.Some? ==> Oldest(buckets, victim.value, now)
    {
      victim := None;
      var todo := buckets.Keys;
      while todo != {}
        invariant todo <= buckets.Keys
        invariant victim.None? <==> Unlocked(buckets, now) - todo == {}
        invariant victim.Some? ==> victim.value in Unlocked(buckets, now)
        invariant victim.Some? ==> forall k :: k in Unlocked(buckets, now) - todo ==>
                                     buckets[victim.value].lastSeen <= buckets[k].lastSeen
        decreases todo
      {
        var key :| key in todo;
        if buckets[key].lockedUntil <= now && (victim.None? || buckets[key].lastSeen < buckets[victim.value].lastSeen) {
          victim := Some(key);
        }
        todo := todo - {key};
      }
    }

    /** Find or make the key's bucket; no bucket is made when the table is full of locks. */
    method BucketForFailure(key: string, now: real) returns (found: bool, ghost victim: string)
      modifies this
      ensures VictimFits(old(buckets), key, victim, limits, now)
      ensures found <==> key in MakeRoom(old(Value()), key, victim, limits, now).table
                         || |MakeRoom(old(Value()), key, victim, limits, now).table| < limits.maxBuckets
      ensures Value() == MakeRoom(old(Value()), key, victim, limits, now)
    {
      victim := "";
      if key in buckets {
        return true, victim;
      }
      CleanupAll(now);
      if |buckets| >= limits.maxBuckets {
        var oldest := OldestUnlocked(now);
        if oldest.Some? {
          victim := oldest.value;
          buckets := buckets - {oldest.value};
          lost := lost + {oldest.value};
        }
      }
      found := |buckets| < limits.maxBuckets;
    }

    /** Count the failure in the key's bucket, locking it at the threshold. */
    method Count(key: string, now: real)
      modifies this
      ensures Value() == Record(old(Value()), key, limits, now)
    {
      ghost var room := Value();
      if key !in buckets {
        buckets := buckets[key := Bucket([], 0.0, now)];
      }
      assert Attempts(buckets, key) == Attempts(room.table, key);
      PruneBucket(key, now);
      var attempts := buckets[key].attempts + [now];
      assert (|attempts| >= limits.maxAttempts) == Locks(room.table, key, limits, now);
      if |attempts| >= limits.maxAttempts {
        buckets := buckets[key := Bucket([], now + limits.lockoutSeconds as real, now)];
        since, lost := since[key := []], lost - {key};
      } else {
        buckets := buckets[key := Bucket(attempts, buckets[key].lockedUntil, now)];
        since := since[key := Since(room, key) + [now]];
      }
      assert buckets == room.table[key := Failed(room.table, key, limits, now)];
    }

    method RegisterOne(key: string, now: real) returns (ghost victim: string)
      modifies this
      ensures VictimFits(old(buckets), key, victim, limits, now)
      ensures Value() == Fail(old(Value()), key, victim, limits, now)
    {
      var found;
      found, victim := BucketForFailure(key, now);
      if found {
        Count(key, now);
      } else {
        since, lost := since[key := Since(Value(), key) + [now]], lost + {key};
      }
    }

    method RegisterFailure(keys: seq<string>, now: real) returns (ghost failures: seq<(string, string)>)
      modifies this
      ensures KeysOf(failures) == keys
      ensures Legal(old(Value()), Failure(failures, now), limits)
      ensures Value() == Next(old(Value()), Failure(failures, now), limits)
    {
      failures := [];
      ghost var start := Value();
      for i := 0 to |keys|
        invariant Reported(start, keys[..i], failures, limits, now, Value())
      {
        ghost var before := Value();
        ghost var victim := RegisterOne(keys[i], now);
        ReportedNext(start, keys[..i], failures, limits, now, before, keys[i], victim);
        assert keys[..i + 1] == keys[..i] + [keys[i]];
        failures := failures + [(keys[i], victim)];
      }
      assert keys[..|keys|] == keys;
    }

    method RegisterSuccess(keys: seq<string>)
      modifies this
      ensures Value() == Succeed(old(Value()), keys)
    {
      for i := 0 to |keys|
        invariant buckets == old(buckets) - (set k | k in keys[..i])
        invariant since == old(since) && lost == old(lost)
      {
        assert forall k :: k in keys[..i + 1] <==> k in keys[..i] || k == keys[i];
        buckets := buckets - {keys[i]};
      }
      assert keys[..|keys|] == keys;
      assert buckets == old(buckets) - set k | k in keys;
      since := map k | k in since && k !in keys :: since[k];
      lost := lost - set k | k in keys;
    }

    method WaitFor(keys: seq<string>, now: real) returns (seconds: int)
      modifies this`buckets
      ensures Value() == Next(old(Value()), Query(keys, now), limits)
      ensures seconds == RetryAfter(buckets, keys, now)
    {
      CleanupAll(now);
      var wait := 0.0;
      for i := 0 to |keys|
        invariant wait == LongestLock(buckets, keys[..i], now)
        invariant Value() == Next(old(Value()), Query(keys, now), limits)
      {
        assert keys[..i + 1][..i] == keys[..i];
        if keys[i] in buckets && buckets[keys[i]].lockedUntil > now && buckets[keys[i]].lockedUntil - now > wait {
          wait := buckets[keys[i]].lockedUntil - now;
        }
      }
      assert keys[..|keys|] == keys;
      seconds := if wait > 0.0 then wait.Floor + 1 else 0;
    }
  }
}
