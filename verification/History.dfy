/** Saving an order: the audit trail it appends to, and the time each status is reported to have lasted. */
module History {
  import opened Schema
  import opened OrderEntity

  /** Ten years of milliseconds. */
  const MaxMillis: int := 10 * 365 * 24 * 60 * 60 * 1000

  /** How long an order was in a status it left. */
  datatype Interval = Interval(status: OrderStatus, to: OrderStatus, kind: Kind, millis: int, at: int)

  datatype Saved = Saved(rows: seq<Entry>, emitted: seq<Interval>)

  /** Already on file: by its request id if it has one, else by all it says. */
  predicate Known(rows: seq<Entry>, e: Entry) {
    if e.requestId.Some? then exists i :: 0 <= i < |rows| && rows[i].requestId == e.requestId
    else e in rows
  }

  /** The latest move into a status at or before a moment. */
  function LatestEntry(rows: seq<Entry>, status: OrderStatus, at: int): Option<int> {
    if rows == [] then None
    else
      var last := rows[|rows| - 1];
      var before := LatestEntry(rows[..|rows| - 1], status, at);
      if Real(last) && last.to == status && last.at <= at && (before.None? || before.value < last.at)
      then Some(last.at) else before
  }

  function EnteredAt(rows: seq<Entry>, created: int, e: Entry): int {
    match LatestEntry(rows, e.from, e.at)
    case Some(t) => t
    case None => created
  }

  /** Whole milliseconds, cut toward zero. */
  function Millis(micros: int): int {
    if micros >= 0 then micros / 1000 else -(-micros / 1000)
  }

  /** The interval a move ends, unless it is negative, too long or not of a measured kind. */
  function Measured(rows: seq<Entry>, created: int, e: Entry): seq<Interval> {
    var millis := Millis(e.at - EnteredAt(rows, created, e));
    if Real(e) && 0 <= millis <= MaxMillis && Tracked(e.kind) then [Interval(e.from, e.to, e.kind, millis, e.at)] else []
  }

  /** A move is reported exactly when it is of a measured kind and took, to the millisecond, no less than nothing and no
      more than ten years. */
  lemma ReportedIff(rows: seq<Entry>, created: int, e: Entry)
    ensures var took := e.at - EnteredAt(rows, created, e);
            Measured(rows, created, e) != [] <==> e.from != e.to && Tracked(e.kind) && -1000 < took < 315_360_000_001_000
  {
  }

  function Absorb(s: Saved, created: int, e: Entry): Saved {
    if Known(s.rows, e) then s else Saved(s.rows + [e], s.emitted + Measured(s.rows, created, e))
  }

  function Save(rows: seq<Entry>, created: int, history: seq<Entry>): Saved {
    if history == [] then Saved(rows, [])
    else Absorb(Save(rows, created, history[..|history| - 1]), created, history[|history| - 1])
  }

  // ---- append only, once each ----

  ghost predicate UniqueRequests(rows: seq<Entry>) {
    forall i, j :: 0 <= i < j < |rows| && rows[i].requestId.Some? ==> rows[i].requestId != rows[j].requestId
  }

  /** Saving only appends, what it appends comes from the order's history, and afterwards all of that history is on
      file; no two rows ever carry the same request id. */
  lemma {:induction false} SaveOnlyAppends(rows: seq<Entry>, created: int, history: seq<Entry>)
    ensures var rows' := Save(rows, created, history).rows;
            && |rows| <= |rows'| && rows'[..|rows|] == rows
            && (forall i :: |rows| <= i < |rows'| ==> rows'[i] in history)
            && (forall e :: e in history ==> Known(rows', e))
            && (UniqueRequests(rows) ==> UniqueRequests(rows'))
  {
    if history != [] {
      var n := |history| - 1;
      SaveOnlyAppends(rows, created, history[..n]);
      var before, after := Save(rows, created, history[..n]).rows, Save(rows, created, history).rows;
      AbsorbAppends(Save(rows, created, history[..n]), created, history[n]);
      assert after[..|rows|] == before[..|rows|];
      forall i | |rows| <= i < |after| ensures after[i] in history {
        if i < |before| { assert after[i] == before[i] && before[i] in history[..n]; }
      }
      forall e | e in history ensures Known(after, e) {
        if e in history[..n] { KnownGrows(before, after, e); }
      }
    }
  }

  lemma AbsorbAppends(s: Saved, created: int, e: Entry)
    ensures var rows' := Absorb(s, created, e).rows;
            && |s.rows| <= |rows'| <= |s.rows| + 1 && rows'[..|s.rows|] == s.rows
            && (|rows'| > |s.rows| ==> rows'[|s.rows|] == e)
            && Known(rows', e)
            && (UniqueRequests(s.rows) ==> UniqueRequests(rows'))
  {
  }

  lemma KnownGrows(rows: seq<Entry>, rows': seq<Entry>, e: Entry)
    requires |rows| <= |rows'| && rows'[..|rows|] == rows
    ensures Known(rows, e) ==> Known(rows', e)
  {
  }

  /** The entries of a history that are on file already leave no mark. */
  lemma {:induction false} KnownAreSkipped(rows: seq<Entry>, created: int, loaded: seq<Entry>, more: seq<Entry>)
    requires forall e :: e in loaded ==> Known(rows, e)
    ensures Save(rows, created, loaded + more) == Save(rows, created, more)
    decreases |loaded| + |more|
  {
    if more != [] {
      var n := |more| - 1;
      assert (loaded + more)[..|loaded| + n] == loaded + more[..n];
      KnownAreSkipped(rows, created, loaded, more[..n]);
    } else if loaded != [] {
      var n := |loaded| - 1;
      KnownAreSkipped(rows, created, loaded[..n], []);
      assert loaded[..n] + [] == loaded[..n] && loaded + [] == loaded;
      assert loaded[n] in loaded;
    }
  }

  /** Saving an order as it was loaded, in whatever order its history came, changes nothing and reports nothing. */
  lemma ResavingAddsNothing(rows: seq<Entry>, created: int, loaded: seq<Entry>)
    requires forall e :: e in loaded ==> e in rows
    ensures Save(rows, created, loaded) == Saved(rows, [])
  {
  }

  /** Saving the same object twice is saving it once. */
  lemma SavingTwiceIsSavingOnce(rows: seq<Entry>, created: int, history: seq<Entry>)
    ensures var rows' := Save(rows, created, history).rows;
            Save(rows', created, history) == Saved(rows', [])
  {
    SaveOnlyAppends(rows, created, history);
    KnownAreSkipped(Save(rows, created, history).rows, created, history, []);
    assert history + [] == history;
  }

  /** The new entry says nothing that the row does not: it carries the row's request id, or neither carries one and
      they agree in everything, the time included. */
  predicate Repeats(r: Entry, e: Entry) {
    if e.requestId.Some? then r.requestId == e.requestId
    else
      && r.requestId.None? && r.at == e.at
      && r.from == e.from && r.to == e.to && r.kind == e.kind && r.reason == e.reason && r.actor == e.actor
  }

  lemma KnownIff(rows: seq<Entry>, e: Entry)
    ensures Known(rows, e) <==> exists k :: 0 <= k < |rows| && Repeats(rows[k], e)
  {
    if e.requestId.None? {
      forall k | 0 <= k < |rows| && Repeats(rows[k], e) ensures rows[k] == e { }
      if e in rows {
        var k :| 0 <= k < |rows| && rows[k] == e;
        assert Repeats(rows[k], e);
      }
    }
  }

  /** One entry is appended exactly when no row repeats it: with a request id, when no row carries that id; without,
      when no row without one agrees with it in everything, the time included. Otherwise the rows stay as they are. */
  lemma AppendedIff(s: Saved, created: int, e: Entry)
    ensures var rows' := Absorb(s, created, e).rows;
            var missing := forall k :: 0 <= k < |s.rows| ==>
              if e.requestId.Some? then s.rows[k].requestId != e.requestId
              else s.rows[k].requestId.Some? || s.rows[k].at != e.at || s.rows[k].from != e.from || s.rows[k].to != e.to
                   || s.rows[k].kind != e.kind || s.rows[k].reason != e.reason || s.rows[k].actor != e.actor;
            rows' == if missing then s.rows + [e] else s.rows
  {
    KnownIff(s.rows, e);
    assert forall k :: 0 <= k < |s.rows| ==> (!Repeats(s.rows[k], e) <==>
              if e.requestId.Some? then s.rows[k].requestId != e.requestId
              else s.rows[k].requestId.Some? || s.rows[k].at != e.at || s.rows[k].from != e.from || s.rows[k].to != e.to
                   || s.rows[k].kind != e.kind || s.rows[k].reason != e.reason || s.rows[k].actor != e.actor);
  }

  /** No new entry repeats a row, or a new entry before it. */
  ghost predicate NoReuse(rows: seq<Entry>, entries: seq<Entry>) {
    && (forall i, k :: 0 <= i < |entries| && 0 <= k < |rows| ==> !Repeats(rows[k], entries[i]))
    && (forall i, j :: 0 <= i < j < |entries| ==> !Repeats(entries[i], entries[j]))
  }

  lemma NoReuseSnoc(rows: seq<Entry>, entries: seq<Entry>, e: Entry)
    ensures NoReuse(rows, entries + [e]) <==> NoReuse(rows, entries) && !Known(rows + entries, e)
  {
    var all := entries + [e];
    var filed := rows + entries;
    KnownIff(filed, e);
    if NoReuse(rows, all) {
      forall k | 0 <= k < |filed| ensures !Repeats(filed[k], e) {
        if k < |rows| { assert !Repeats(rows[k], all[|entries|]); } else { assert !Repeats(all[k - |rows|], all[|entries|]); }
      }
      forall i, k | 0 <= i < |entries| && 0 <= k < |rows| ensures !Repeats(rows[k], entries[i]) { assert all[i] == entries[i]; }
      forall i, j | 0 <= i < j < |entries| ensures !Repeats(entries[i], entries[j]) { assert !Repeats(all[i], all[j]); }
    }
    if NoReuse(rows, entries) && !Known(filed, e) {
      forall i, k | 0 <= i < |all| && 0 <= k < |rows| ensures !Repeats(rows[k], all[i]) {
        if i < |entries| { assert !Repeats(rows[k], entries[i]); } else { assert !Repeats(filed[k], e); }
      }
      forall i, j | 0 <= i < j < |all| ensures !Repeats(all[i], all[j]) {
        if j < |entries| { assert !Repeats(entries[i], entries[j]); } else { assert filed[|rows| + i] == entries[i]; }
      }
    }
  }

  lemma SaveSnoc(rows: seq<Entry>, created: int, entries: seq<Entry>, e: Entry)
    ensures Save(rows, created, entries + [e]) == Absorb(Save(rows, created, entries), created, e)
  {
  }

  /** Appending one more to what may be less than everything gives everything only if nothing was missing. */
  lemma AppendedAll(saved: seq<Entry>, rows: seq<Entry>, front: seq<Entry>, e: Entry)
    requires |saved| <= |rows| + |front|
    ensures saved != rows + (front + [e])
    ensures saved + [e] == rows + (front + [e]) <==> saved == rows + front
  {
    assert rows + (front + [e]) == (rows + front) + [e];
    if saved + [e] == (rows + front) + [e] {
      assert saved == (saved + [e])[..|saved|] && rows + front == ((rows + front) + [e])[..|rows + front|];
    }
  }

  /** The whole of what was done is on file afterwards exactly when none of it repeats a row, or what was done before it. */
  lemma {:induction false} AllIsRecordedIff(rows: seq<Entry>, created: int, entries: seq<Entry>)
    ensures Save(rows, created, entries).rows == rows + entries <==> NoReuse(rows, entries)
    ensures |Save(rows, created, entries).rows| <= |rows| + |entries|
  {
    if entries != [] {
      var n := |entries| - 1;
      var front := entries[..n];
      AllIsRecordedIff(rows, created, front);
      assert entries == front + [entries[n]];
      NoReuseSnoc(rows, front, entries[n]);
      SaveSnoc(rows, created, front, entries[n]);
      AppendedAll(Save(rows, created, front).rows, rows, front, entries[n]);
    }
  }

  /** Entries with fresh request ids, and anonymous ones of pairwise different moments, are all recorded: the same move
      may be made again later, by nobody in particular, and is on file again. */
  lemma DifferentMomentsAreRecorded(rows: seq<Entry>, created: int, entries: seq<Entry>)
    requires forall i, k :: 0 <= i < |entries| && 0 <= k < |rows| ==>
               rows[k].requestId != entries[i].requestId || (entries[i].requestId.None? && rows[k].at != entries[i].at)
    requires forall i, j :: 0 <= i < j < |entries| ==>
               entries[i].requestId != entries[j].requestId || (entries[j].requestId.None? && entries[i].at != entries[j].at)
    ensures Save(rows, created, entries).rows == rows + entries
  {
    AllIsRecordedIff(rows, created, entries);
  }

  // ---- the trail as a walk ----

  function EndStatus(rows: seq<Entry>, initial: OrderStatus): OrderStatus {
    if rows == [] then initial
    else if Real(rows[|rows| - 1]) then rows[|rows| - 1].to
    else EndStatus(rows[..|rows| - 1], initial)
  }

  function EndTime(rows: seq<Entry>, created: int): int {
    if rows == [] then created
    else if Real(rows[|rows| - 1]) then rows[|rows| - 1].at
    else EndTime(rows[..|rows| - 1], created)
  }

  function Moves(rows: seq<Entry>): nat {
    if rows == [] then 0 else Moves(rows[..|rows| - 1]) + if Real(rows[|rows| - 1]) then 1 else 0
  }

  /** Each move starts where the one before ended, and not earlier. */
  ghost predicate Walk(rows: seq<Entry>, initial: OrderStatus, created: int) {
    rows != [] ==>
      var front, last := rows[..|rows| - 1], rows[|rows| - 1];
      && Walk(front, initial, created)
      && (Real(last) ==> last.from == EndStatus(front, initial) && last.at >= EndTime(front, created))
  }

  lemma {:induction false} LatestIsLatest(rows: seq<Entry>, initial: OrderStatus, created: int, at: int)
    requires Walk(rows, initial, created) && EndTime(rows, created) <= at
    ensures Moves(rows) == 0 ==> EndStatus(rows, initial) == initial && EndTime(rows, created) == created
    ensures forall s :: Moves(rows) == 0 ==> LatestEntry(rows, s, at).None?
    ensures forall s :: var found := LatestEntry(rows, s, at); found.Some? ==> found.value <= EndTime(rows, created)
    ensures Moves(rows) > 0 ==> LatestEntry(rows, EndStatus(rows, initial), at) == Some(EndTime(rows, created))
  {
    if rows != [] {
      LatestIsLatest(rows[..|rows| - 1], initial, created, at);
    }
  }

  /** On a walk, the status a move leaves was entered by the move before, or with the order's creation. */
  lemma EnteredWhenLastMoved(rows: seq<Entry>, initial: OrderStatus, created: int, e: Entry)
    requires Walk(rows, initial, created) && EndTime(rows, created) <= e.at && e.from == EndStatus(rows, initial)
    ensures EnteredAt(rows, created, e) == EndTime(rows, created)
  {
    LatestIsLatest(rows, initial, created, e.at);
  }

  function Total(intervals: seq<Interval>): int {
    if intervals == [] then 0 else Total(intervals[..|intervals| - 1]) + intervals[|intervals| - 1].millis
  }

  lemma TotalSnoc(intervals: seq<Interval>, i: Interval)
    ensures Total(intervals + [i]) == Total(intervals) + i.millis
  {
  }

  /** One report per move, in order: it names the status left and the one entered, the kind and the moment of the move,
      and lasts, in whole milliseconds, from the move before or the creation. */
  ghost predicate Reports(rows: seq<Entry>, emitted: seq<Interval>, created: int) {
    if rows == [] then emitted == []
    else if !Real(rows[|rows| - 1]) then Reports(rows[..|rows| - 1], emitted, created)
    else
      var e, n := rows[|rows| - 1], |emitted| - 1;
      && n >= 0 && Reports(rows[..|rows| - 1], emitted[..n], created)
      && emitted[n].status == e.from && emitted[n].to == e.to && emitted[n].kind == e.kind && emitted[n].at == e.at
      && 1000 * emitted[n].millis <= e.at - EndTime(rows[..|rows| - 1], created) < 1000 * emitted[n].millis + 1000
  }

  /** The reported intervals tile the life of the order: one per move, in order, and together they last from its
      creation to its last move, to within a millisecond per move. */
  ghost predicate Tiles(s: Saved, initial: OrderStatus, created: int) {
    && Walk(s.rows, initial, created) && Reports(s.rows, s.emitted, created)
    && |s.emitted| == Moves(s.rows)
    && 1000 * Total(s.emitted) <= EndTime(s.rows, created) - created <= 1000 * Total(s.emitted) + 1000 * Moves(s.rows)
  }

  /** A move that follows on, in time and within the cap. */
  ghost predicate Follows(rows: seq<Entry>, initial: OrderStatus, created: int, e: Entry) {
    Real(e) ==>
      && e.from == EndStatus(rows, initial)
      && 0 <= e.at - EndTime(rows, created) <= 1000 * MaxMillis
      && Tracked(e.kind)
  }

  lemma MillisFloor(micros: int)
    requires micros >= 0
    ensures 1000 * Millis(micros) <= micros < 1000 * Millis(micros) + 1000
  {
  }

  lemma MeasuredOnAWalk(rows: seq<Entry>, initial: OrderStatus, created: int, e: Entry)
    requires Walk(rows, initial, created) && Follows(rows, initial, created, e) && Real(e)
    ensures var last := EndTime(rows, created);
            && Measured(rows, created, e) == [Interval(e.from, e.to, e.kind, Millis(e.at - last), e.at)]
            && 1000 * Millis(e.at - last) <= e.at - last < 1000 * Millis(e.at - last) + 1000
  {
    EnteredWhenLastMoved(rows, initial, created, e);
    MillisFloor(e.at - EndTime(rows, created));
  }

  lemma WalkSnoc(rows: seq<Entry>, initial: OrderStatus, created: int, e: Entry)
    requires Walk(rows, initial, created) && Follows(rows, initial, created, e)
    ensures var rows' := rows + [e];
            && Walk(rows', initial, created)
            && EndStatus(rows', initial) == (if Real(e) then e.to else EndStatus(rows, initial))
            && EndTime(rows', created) == (if Real(e) then e.at else EndTime(rows, created))
            && Moves(rows') == Moves(rows) + (if Real(e) then 1 else 0)
  {
  }

  lemma AbsorbTiles(s: Saved, initial: OrderStatus, created: int, e: Entry)
    requires Tiles(s, initial, created) && !Known(s.rows, e) && Follows(s.rows, initial, created, e)
    ensures var s' := Absorb(s, created, e);
            && Tiles(s', initial, created) && s'.rows == s.rows + [e]
            && EndStatus(s'.rows, initial) == (if Real(e) then e.to else EndStatus(s.rows, initial))
  {
    WalkSnoc(s.rows, initial, created, e);
    if Real(e) {
      MeasuredOnAWalk(s.rows, initial, created, e);
      TotalSnoc(s.emitted, Interval(e.from, e.to, e.kind, Millis(e.at - EndTime(s.rows, created)), e.at));
    } else {
      assert s.emitted + [] == s.emitted;
    }
  }

  // ---- whole lives ----

  /** An order on file: its trail, what was reported of it, and its row. */
  datatype Life = Life(saved: Saved, status: OrderStatus, mechanic: Option<string>, total: real)

  /** What one request does to an order it has loaded. */
  function PerformAll(e: Entity, actions: seq<(Action, Stamp)>): Option<Entity> {
    if actions == [] then Some(e)
    else
      match PerformAll(e, actions[..|actions| - 1])
      case None => None
      case Some(e') => Perform(e', actions[|actions| - 1].0, actions[|actions| - 1].1)
  }

  /** One request: load, act, save; a refused action rolls everything back, reports included. */
  function Visit(life: Life, created: int, actions: seq<(Action, Stamp)>): Life {
    match PerformAll(Entity(life.status, life.mechanic, life.total, life.saved.rows), actions)
    case None => life
    case Some(e) =>
      var saved := Save(life.saved.rows, created, e.history);
      Life(Saved(saved.rows, life.saved.emitted + saved.emitted), e.status, e.mechanic, e.total)
  }

  function Run(life: Life, created: int, visits: seq<seq<(Action, Stamp)>>): Life {
    if visits == [] then life else Visit(Run(life, created, visits[..|visits| - 1]), created, visits[|visits| - 1])
  }

  ghost predicate LifeSound(life: Life, initial: OrderStatus, created: int) {
    && Tiles(life.saved, initial, created)
    && EndStatus(life.saved.rows, initial) == life.status
  }

  /** The new entries of a request reuse nothing, and the clock has not gone back nor run past the cap. */
  ghost predicate Orderly(rows: seq<Entry>, created: int, entries: seq<Entry>) {
    && NoReuse(rows, entries)
    && forall i :: 0 <= i < |entries| && Real(entries[i]) ==>
         0 <= entries[i].at - EndTime(rows + entries[..i], created) <= 1000 * MaxMillis
  }

  ghost predicate OrderlyVisit(life: Life, created: int, actions: seq<(Action, Stamp)>) {
    match PerformAll(Entity(life.status, life.mechanic, life.total, []), actions)
    case None => true
    case Some(e) => Orderly(life.saved.rows, created, e.history)
  }

  ghost predicate OrderlyRun(life: Life, created: int, visits: seq<seq<(Action, Stamp)>>) {
    visits != [] ==>
      && OrderlyRun(life, created, visits[..|visits| - 1])
      && OrderlyVisit(Run(life, created, visits[..|visits| - 1]), created, visits[|visits| - 1])
  }

  /** An entity's moves do not depend on the history it was loaded with. */
  lemma PerformIgnoresHistory(e: Entity, prior: seq<Entry>, action: Action, stamp: Stamp)
    ensures Perform(e, action, stamp).Some? <==> Perform(e.(history := prior + e.history), action, stamp).Some?
    ensures Perform(e, action, stamp).Some? ==>
              Perform(e.(history := prior + e.history), action, stamp).value
              == Perform(e, action, stamp).value.(history := prior + Perform(e, action, stamp).value.history)
  {
  }

  lemma {:induction false} PerformAllIgnoresHistory(e: Entity, prior: seq<Entry>, actions: seq<(Action, Stamp)>)
    requires e.history == []
    ensures PerformAll(e, actions).Some? <==> PerformAll(e.(history := prior), actions).Some?
    ensures PerformAll(e, actions).Some? ==>
              PerformAll(e.(history := prior), actions).value
              == PerformAll(e, actions).value.(history := prior + PerformAll(e, actions).value.history)
  {
    if actions == [] {
      assert prior + [] == prior;
    } else {
      var n := |actions| - 1;
      PerformAllIgnoresHistory(e, prior, actions[..n]);
      if PerformAll(e, actions[..n]).Some? {
        PerformIgnoresHistory(PerformAll(e, actions[..n]).value, prior, actions[n].0, actions[n].1);
      }
    }
  }

  /** What a life becomes when a request's entries are saved. */
  function Extended(saved: Saved, created: int, entries: seq<Entry>): Saved {
    var more := Save(saved.rows, created, entries);
    Saved(more.rows, saved.emitted + more.emitted)
  }

  lemma ExtendedSnoc(saved: Saved, created: int, entries: seq<Entry>, e: Entry)
    ensures Extended(saved, created, entries + [e]) == Absorb(Extended(saved, created, entries), created, e)
  {
  }

  ghost predicate TilesTo(saved: Saved, initial: OrderStatus, created: int, status: OrderStatus) {
    Tiles(saved, initial, created) && EndStatus(saved.rows, initial) == status
  }

  lemma OneMoreEntry(saved: Saved, initial: OrderStatus, created: int, entries: seq<Entry>, e: Entry, status: OrderStatus)
    requires Extended(saved, created, entries).rows == saved.rows + entries
    requires TilesTo(Extended(saved, created, entries), initial, created, status)
    requires Orderly(saved.rows, created, entries + [e]) && e.from == status && (Real(e) ==> Tracked(e.kind))
    ensures Extended(saved, created, entries + [e]).rows == saved.rows + (entries + [e])
    ensures TilesTo(Extended(saved, created, entries + [e]), initial, created, e.to)
  {
    var all := entries + [e];
    assert all[|entries|] == e && all[..|entries|] == entries;
    ExtendedSnoc(saved, created, entries, e);
    AbsorbTiles(Extended(saved, created, entries), initial, created, e);
    assert (saved.rows + entries) + [e] == saved.rows + all;
  }

  /** Saving a request's new entries keeps the tiling, and the trail ends where the order does. */
  lemma {:induction false} SavedWalkTiles(saved: Saved, start: Entity, initial: OrderStatus, created: int, actions: seq<(Action, Stamp)>)
    requires start.history == [] && TilesTo(saved, initial, created, start.status)
    requires PerformAll(start, actions).Some? && Orderly(saved.rows, created, PerformAll(start, actions).value.history)
    ensures var e := PerformAll(start, actions).value;
            && Extended(saved, created, e.history).rows == saved.rows + e.history
            && TilesTo(Extended(saved, created, e.history), initial, created, e.status)
  {
    if actions == [] {
      assert saved.emitted + [] == saved.emitted && saved.rows + [] == saved.rows;
    } else {
      var n := |actions| - 1;
      var before, after := PerformAll(start, actions[..n]).value, PerformAll(start, actions).value;
      PerformLeavesATrace(before, actions[n].0, actions[n].1);
      if after.history == before.history {
        SavedWalkTiles(saved, start, initial, created, actions[..n]);
      } else {
        var k := |before.history|;
        assert after.history[..k] == before.history;
        OrderlyPrefix(saved.rows, created, after.history, k);
        SavedWalkTiles(saved, start, initial, created, actions[..n]);
        OneMoreEntry(saved, initial, created, before.history, after.history[k], before.status);
      }
    }
  }

  lemma OrderlyPrefix(rows: seq<Entry>, created: int, entries: seq<Entry>, k: nat)
    requires k <= |entries| && Orderly(rows, created, entries)
    ensures Orderly(rows, created, entries[..k])
  {
    var front := entries[..k];
    assert forall i :: 0 <= i < k ==> front[..i] == entries[..i] && front[i] == entries[i];
  }

  lemma VisitKeepsSound(life: Life, initial: OrderStatus, created: int, actions: seq<(Action, Stamp)>)
    requires LifeSound(life, initial, created) && OrderlyVisit(life, created, actions)
    ensures LifeSound(Visit(life, created, actions), initial, created)
  {
    var start := Entity(life.status, life.mechanic, life.total, []);
    PerformAllIgnoresHistory(start, life.saved.rows, actions);
    if PerformAll(start, actions).Some? {
      SavedWalkTiles(life.saved, start, initial, created, actions);
      var more := PerformAll(start, actions).value.history;
      forall e | e in life.saved.rows ensures Known(life.saved.rows, e) {
        var i :| 0 <= i < |life.saved.rows| && life.saved.rows[i] == e;
      }
      KnownAreSkipped(life.saved.rows, created, life.saved.rows, more);
    }
  }

  /** Over the whole life of an order, if no request id is reused, the clock does not go back and no status lasts
      longer than the cap, the trail is an unbroken walk from the initial status to the present one, and the
      reported intervals tile the time from creation to the last move. */
  lemma {:induction false} ReportsTileTheLife(initial: OrderStatus, mechanic: Option<string>, total: real, created: int,
                                              visits: seq<seq<(Action, Stamp)>>)
    requires OrderlyRun(Life(Saved([], []), initial, mechanic, total), created, visits)
    ensures LifeSound(Run(Life(Saved([], []), initial, mechanic, total), created, visits), initial, created)
  {
    var birth := Life(Saved([], []), initial, mechanic, total);
    if visits != [] {
      var n := |visits| - 1;
      ReportsTileTheLife(initial, mechanic, total, created, visits[..n]);
      VisitKeepsSound(Run(birth, created, visits[..n]), initial, created, visits[n]);
    }
  }

  /** A request that reuses the id of an earlier one moves the order, and nothing of it is on file: the trail no
      longer leads to the order's status. */
  lemma ReusedRequestLeavesNoTrace(life: Life, initial: OrderStatus, created: int, action: Action, stamp: Stamp)
    requires LifeSound(life, initial, created) && stamp.requestId.Some?
    requires exists i :: 0 <= i < |life.saved.rows| && life.saved.rows[i].requestId == stamp.requestId
    requires Perform(Entity(life.status, life.mechanic, life.total, life.saved.rows), action, stamp).Some?
    ensures var life' := Visit(life, created, [(action, stamp)]);
            && life'.saved == life.saved
            && (LifeSound(life', initial, created) <==> life'.status == life.status)
            && life'.status == Perform(Entity(life.status, life.mechanic, life.total, life.saved.rows), action, stamp).value.status
  {
    var start := Entity(life.status, life.mechanic, life.total, life.saved.rows);
    assert [(action, stamp)][..0] == [];
    assert PerformAll(start, [(action, stamp)]) == Perform(start, action, stamp);
    PerformLeavesATrace(start, action, stamp);
    var history := Perform(start, action, stamp).value.history;
    forall e | e in history ensures Known(life.saved.rows, e) {
      if e in life.saved.rows { var i :| 0 <= i < |life.saved.rows| && life.saved.rows[i] == e; }
    }
    KnownAreSkipped(life.saved.rows, created, history, []);
    assert history + [] == history;
    assert life.saved.emitted + [] == life.saved.emitted;
  }

  // ---- the repository ----

  function EventKey(e: Entry): (OrderStatus, OrderStatus, Kind, Option<string>, Option<int>, int) {
    (e.from, e.to, e.kind, e.reason, e.actor, e.at)
  }

  class OrderHistory {
    const createdAt: int
    var rows: seq<Entry>
    var queued: seq<Interval>

    constructor (createdAt: int, rows: seq<Entry>)
      ensures this.createdAt == createdAt && this.rows == rows && queued == []
    {
      this.createdAt, this.rows, queued := createdAt, rows, [];
    }

    /** The latest of the moves into the status the entry leaves, or the order's creation. */
    method FindEntered(moves: seq<Entry>, e: Entry) returns (entered: int)
      requires moves == RealOnes(rows)
      ensures entered == EnteredAt(rows, createdAt, e)
    {
      var latest: Option<int> := None;
      for i := 0 to |moves|
        invariant latest == LatestEntry(moves[..i], e.from, e.at)
      {
        assert moves[..i + 1][..i] == moves[..i];
        AllReal(rows);
        if moves[i].to == e.from && moves[i].at <= e.at && (latest.None? || latest.value < moves[i].at) {
          latest := Some(moves[i].at);
        }
      }
      assert moves[..|moves|] == moves;
      OnlyRealOnesMatter(rows, e.from, e.at);
      entered := if latest.Some? then latest.value else createdAt;
    }

    /** File an entry that is not on file yet, and queue the interval it ends. */
    method Record(e: Entry, moves: seq<Entry>) returns (moves': seq<Entry>)
      requires moves == RealOnes(rows) && !Known(rows, e)
      modifies this
      ensures Saved(rows, queued) == Absorb(Saved(old(rows), old(queued)), createdAt, e)
      ensures moves' == RealOnes(rows)
    {
      RealSnoc(rows, e);
      moves' := moves;
      if Real(e) {
        var entered := FindEntered(moves, e);
        var millis := Millis(e.at - entered);
        if 0 <= millis <= MaxMillis && Tracked(e.kind) {
          queued := queued + [Interval(e.from, e.to, e.kind, millis, e.at)];
        }
        moves' := moves + [e];
      }
      rows := rows + [e];
    }

    /** Save an order's history. */
    method SaveHistory(history: seq<Entry>)
      modifies this
      ensures Saved(rows, queued) == Extended(Saved(old(rows), old(queued)), createdAt, history)
    {
      ghost var start := Saved(rows, queued);
      var requestIds, legacy, moves := Index();
      assert history[..0] == [];
      for i := 0 to |history|
        invariant Saved(rows, queued) == Extended(start, createdAt, history[..i])
        invariant Indexed(rows, requestIds, legacy) && moves == RealOnes(rows)
      {
        var e := history[i];
        assert history[..i + 1] == history[..i] + [e];
        ExtendedSnoc(start, createdAt, history[..i], e);
        IndexFinds(rows, requestIds, legacy, e);
        if e.requestId.Some? && e.requestId.value in requestIds {
          continue;
        }
        if e.requestId.None? && EventKey(e) in legacy {
          continue;
        }
        IndexSnoc(rows, requestIds, legacy, e);
        moves := Record(e, moves);
        if e.requestId.Some? {
          requestIds := requestIds + {e.requestId.value};
        } else {
          legacy := legacy + {EventKey(e)};
        }
      }
      assert history[..|history|] == history;
    }

    /** The request ids on file, the keys of the anonymous rows, and the moves. */
    method Index() returns (requestIds: set<string>, legacy: set<(OrderStatus, OrderStatus, Kind, Option<string>, Option<int>, int)>,
                            moves: seq<Entry>)
      ensures Indexed(rows, requestIds, legacy) && moves == RealOnes(rows)
    {
      requestIds, legacy, moves := {}, {}, [];
      for i := 0 to |rows|
        invariant Indexed(rows[..i], requestIds, legacy) && moves == RealOnes(rows[..i])
      {
        assert rows[..i + 1] == rows[..i] + [rows[i]];
        IndexSnoc(rows[..i], requestIds, legacy, rows[i]);
        RealSnoc(rows[..i], rows[i]);
        if rows[i].requestId.Some? {
          requestIds := requestIds + {rows[i].requestId.value};
        } else {
          legacy := legacy + {EventKey(rows[i])};
        }
        if Real(rows[i]) {
          moves := moves + [rows[i]];
        }
      }
      assert rows[..|rows|] == rows;
    }
  }

  function RealOnes(rows: seq<Entry>): seq<Entry> {
    if rows == [] then []
    else RealOnes(rows[..|rows| - 1]) + if Real(rows[|rows| - 1]) then [rows[|rows| - 1]] else []
  }

  lemma RealSnoc(rows: seq<Entry>, e: Entry)
    ensures RealOnes(rows + [e]) == if Real(e) then RealOnes(rows) + [e] else RealOnes(rows)
  {
  }

  lemma {:induction false} AllReal(rows: seq<Entry>)
    ensures forall e :: e in RealOnes(rows) ==> Real(e)
  {
    if rows != [] { AllReal(rows[..|rows| - 1]); }
  }

  lemma {:induction false} OnlyRealOnesMatter(rows: seq<Entry>, status: OrderStatus, at: int)
    ensures LatestEntry(RealOnes(rows), status, at) == LatestEntry(rows, status, at)
  {
    if rows != [] {
      var n := |rows| - 1;
      OnlyRealOnesMatter(rows[..n], status, at);
      if Real(rows[n]) {
        assert (RealOnes(rows[..n]) + [rows[n]])[..|RealOnes(rows[..n])|] == RealOnes(rows[..n]);
      } else {
        assert RealOnes(rows) == RealOnes(rows[..n]);
      }
    }
  }

  ghost predicate Indexed(rows: seq<Entry>, requestIds: set<string>,
                          legacy: set<(OrderStatus, OrderStatus, Kind, Option<string>, Option<int>, int)>) {
    && (forall id :: id in requestIds <==> exists i :: 0 <= i < |rows| && rows[i].requestId == Some(id))
    && (forall key :: key in legacy <==> exists i :: 0 <= i < |rows| && rows[i].requestId.None? && EventKey(rows[i]) == key)
  }

  lemma IndexSnoc(rows: seq<Entry>, requestIds: set<string>,
                  legacy: set<(OrderStatus, OrderStatus, Kind, Option<string>, Option<int>, int)>, e: Entry)
    requires Indexed(rows, requestIds, legacy)
    ensures if e.requestId.Some? then Indexed(rows + [e], requestIds + {e.requestId.value}, legacy)
            else Indexed(rows + [e], requestIds, legacy + {EventKey(e)})
  {
    var rows' := rows + [e];
    assert rows'[|rows|] == e;
    assert forall i :: 0 <= i < |rows| ==> rows'[i] == rows[i];
  }

  /** The two indexes answer whether an entry is on file. */
  lemma IndexFinds(rows: seq<Entry>, requestIds: set<string>,
                   legacy: set<(OrderStatus, OrderStatus, Kind, Option<string>, Option<int>, int)>, e: Entry)
    requires Indexed(rows, requestIds, legacy)
    ensures Known(rows, e) <==> if e.requestId.Some? then e.requestId.value in requestIds else EventKey(e) in legacy
  {
  }
}
