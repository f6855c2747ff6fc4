/** What an apply run keeps, whatever else commits and whenever it stops (docs/retention.md:3-7). */
module RetentionTotals {
  import opened Picking
  import opened RetentionPolicy
  import opened RetentionApply

  // ---- one day ----

  /** Rows outside the range are superseded by the same rows before and after the delete. */
  lemma OutsideUnaffected(e: Entry, maxId: int, full: Tables, id: int)
    requires Keyed(full.logs) && Range(full.logs, e.day, maxId) == e.logs
    requires id in full.logs && id !in e.logs
    ensures Superseded(full.logs - e.logs.Keys, full.logs[id]) == Superseded(full.logs, full.logs[id])
  {
    var r := full.logs[id];
    forall n | n in full.logs && Replaces(full.logs[n], r) ensures n in full.logs - e.logs.Keys {
      assert n in e.logs ==> InRange(full.logs[n], e.day, maxId) && InRange(r, e.day, maxId);
      assert InRange(r, e.day, maxId) ==> id in Range(full.logs, e.day, maxId);
    }
    assert Superseded(full.logs, r) ==> exists n :: n in full.logs && Replaces(full.logs[n], r);
    if n :| n in full.logs && Replaces(full.logs[n], r) {
      assert n in full.logs - e.logs.Keys && (full.logs - e.logs.Keys)[n] == full.logs[n];
    }
  }

  /** The delete moves exactly the day's share of every group from the live rows to the rollup. */
  lemma DayReport(e: Entry, maxId: int, archive: string, before: Tables, mid: Tables, full: Tables, after: Tables,
      rolls: seq<Rollup>, k: Key)
    requires DayDeleted(e, maxId, archive, before, mid, full, after, rolls) && Keyed(full.logs)
    ensures e.logs.Keys <= full.logs.Keys && e.logs.Keys <= mid.logs.Keys
    ensures Plus(Report(after.logs, after.daily, k), TotalOf(full.logs, e.logs.Keys, k))
         == Plus(Report(full.logs, full.daily, k), TotalOf(mid.logs, e.logs.Keys, k))
  {
    hide Plus, Superseded;
    var live := full.logs.Keys - e.logs.Keys;
    forall id | id in e.logs ensures id in full.logs {
      assert id in Range(full.logs, e.day, maxId);
    }
    assert full.logs.Keys == live + e.logs.Keys;
    TotalUnion(full.logs, live, e.logs.Keys, k);
    forall id | id in live ensures Superseded(full.logs, full.logs[id]) == Superseded(after.logs, after.logs[id]) {
      OutsideUnaffected(e, maxId, full, id);
    }
    assert after.logs.Keys == live;
    TotalSame(full.logs, after.logs, live, k);
    RolledConcat(full.daily, rolls, k);
    RollupComplete(rolls, mid.logs, e.logs.Keys, archive, k);
    Shuffle(TotalOf(full.logs, live, k), TotalOf(full.logs, e.logs.Keys, k), TotalOf(mid.logs, e.logs.Keys, k),
      RolledTotal(full.daily, k));
  }

  lemma Shuffle(live: Totals, gone: Totals, rolled: Totals, daily: Totals)
    ensures Plus(Plus(live, Plus(daily, rolled)), gone) == Plus(Plus(Plus(live, gone), daily), rolled)
  {
  }

  lemma PlusRequests(a: Totals, b: Totals)
    ensures Plus(a, b).requests == a.requests + b.requests
  {
  }

  /** A group of counted rows can only lose a row when more rows exist, and loses it when it is replaced. */
  lemma ShareFewer(mid: Logs, full: Logs, id: int, k: Key)
    requires id in mid && Extends(mid, full) && !k.superseded
    ensures Share(full, id, k).requests <= Share(mid, id, k).requests
    ensures Superseded(full, full[id]) && KeyOf(mid, mid[id]) == k ==>
      Share(full, id, k).requests + 1 <= Share(mid, id, k).requests
  {
    hide Superseded;
    SupersededGrows(mid, full, mid[id]);
  }

  lemma {:induction false} FewerUnmarked(mid: Logs, full: Logs, ids: set<int>, k: Key)
    requires ids <= mid.Keys && Extends(mid, full) && !k.superseded
    ensures ids <= full.Keys
    ensures TotalOf(full, ids, k).requests <= TotalOf(mid, ids, k).requests
    decreases |ids|
  {
    hide Superseded, Share, Plus;
    assert forall id :: id in ids ==> id in mid && id in full;
    if ids != {} {
      var id := Any(ids);
      TotalPick(mid, ids, k, id);
      TotalPick(full, ids, k, id);
      ShareFewer(mid, full, id, k);
      PlusRequests(Share(mid, id, k), TotalOf(mid, ids - {id}, k));
      PlusRequests(Share(full, id, k), TotalOf(full, ids - {id}, k));
      FewerUnmarked(mid, full, ids - {id}, k);
    }
  }

  lemma FewerRequests(mid: Logs, full: Logs, ids: set<int>, k: Key, marked: int)
    requires ids <= mid.Keys && Extends(mid, full) && !k.superseded && marked in ids
    requires KeyOf(mid, mid[marked]) == k && Superseded(full, full[marked])
    ensures ids <= full.Keys
    ensures TotalOf(full, ids, k).requests < TotalOf(mid, ids, k).requests
  {
    hide Superseded, Share, Plus;
    assert forall id :: id in ids ==> id in mid && id in full;
    FewerUnmarked(mid, full, ids - {marked}, k);
    TotalPick(mid, ids, k, marked);
    TotalPick(full, ids, k, marked);
    ShareFewer(mid, full, marked, k);
    PlusRequests(Share(mid, marked, k), TotalOf(mid, ids - {marked}, k));
    PlusRequests(Share(full, marked, k), TotalOf(full, ids - {marked}, k));
  }

  lemma SupersededGrows(small: Logs, large: Logs, r: Row)
    requires Extends(small, large)
    ensures Superseded(small, r) ==> Superseded(large, r)
  {
    if Superseded(small, r) {
      var n :| n in small && Replaces(small[n], r);
      assert n in large && Replaces(large[n], r);
    }
  }

  /** Every group's reported total survives the delete of a day exactly when no insert that committed between
      the rollup and the delete replaced one of the day's rows. */
  lemma DayConserves(e: Entry, maxId: int, archive: string, before: Tables, mid: Tables, full: Tables, after: Tables,
      rolls: seq<Rollup>)
    requires DayDeleted(e, maxId, archive, before, mid, full, after, rolls) && Keyed(full.logs)
    ensures (forall k :: Report(after.logs, after.daily, k) == Report(full.logs, full.daily, k))
       <==> (forall id :: id in e.logs ==> Superseded(mid.logs, e.logs[id]) == Superseded(full.logs, e.logs[id]))
  {
    hide Plus, Superseded, Report;
    forall id | id in e.logs ensures id in full.logs && full.logs[id] == e.logs[id] == mid.logs[id] {
      assert id in Range(full.logs, e.day, maxId);
    }
    if forall id :: id in e.logs ==> Superseded(mid.logs, e.logs[id]) == Superseded(full.logs, e.logs[id]) {
      forall k ensures Report(after.logs, after.daily, k) == Report(full.logs, full.daily, k) {
        DayReport(e, maxId, archive, before, mid, full, after, rolls, k);
        TotalSame(full.logs, mid.logs, e.logs.Keys, k);
        Cancel(Report(after.logs, after.daily, k), Report(full.logs, full.daily, k),
          TotalOf(full.logs, e.logs.Keys, k));
      }
    }
    if id :| id in e.logs && Superseded(mid.logs, e.logs[id]) != Superseded(full.logs, e.logs[id]) {
      SupersededGrows(mid.logs, full.logs, e.logs[id]);
      var k := KeyOf(mid.logs, mid.logs[id]);
      DayReport(e, maxId, archive, before, mid, full, after, rolls, k);
      FewerRequests(mid.logs, full.logs, e.logs.Keys, k, id);
      if Report(after.logs, after.daily, k) == Report(full.logs, full.daily, k) {
        Cancel2(Report(after.logs, after.daily, k), TotalOf(full.logs, e.logs.Keys, k),
          TotalOf(mid.logs, e.logs.Keys, k));
      }
    }
  }

  lemma Cancel(a: Totals, b: Totals, c: Totals)
    requires Plus(a, c) == Plus(b, c)
    ensures a == b
  {
  }

  lemma Cancel2(a: Totals, b: Totals, c: Totals)
    requires Plus(a, b) == Plus(a, c)
    ensures b == c
  {
  }

  // ---- whole runs ----

  ghost function Archived(entries: seq<Entry>, n: nat): set<int>
    requires n <= |entries|
  {
    if n == 0 then {} else Archived(entries, n - 1) + entries[n - 1].logs.Keys
  }

  lemma {:induction false} ArchivedIn(entries: seq<Entry>, n: nat, id: int)
    requires n <= |entries|
    ensures id in Archived(entries, n) <==> exists i :: 0 <= i < n && id in entries[i].logs
  {
    if n > 0 {
      ArchivedIn(entries, n - 1, id);
      if i :| 0 <= i < n && id in entries[i].logs {
        if i < n - 1 {
          assert 0 <= i < n - 1 && id in entries[i].logs;
        }
      }
    }
  }

  /** No row that arrived after the export lies in an archived range or replaces an archived row. */
  ghost predicate Undisturbed(start: Logs, full: Logs, entries: seq<Entry>, maxId: int) {
    forall id, i :: id in full && id !in start && 0 <= i < |entries| ==>
      && !InRange(full[id], entries[i].day, maxId)
      && forall r :: r in entries[i].logs ==> !Replaces(full[id], entries[i].logs[r])
  }

  /** A run of apply: `start` is the export's snapshot, `full` every row that ever existed since, `now` the
      tables after the first `done` days were deleted. */
  datatype Run = Run(start: Tables, full: Tables, now: Tables, entries: seq<Entry>, done: nat, archive: string,
      cutoff: int, maxId: int)
  {
    ghost predicate Clean() { Undisturbed(start.logs, full.logs, entries, maxId) }

    ghost predicate Kept() {
      && done <= |entries| && Exported(entries, start.logs, start.contexts, cutoff, maxId)
      && Grows(start, full) && Keyed(full.logs)
      && now.logs == full.logs - Archived(entries, done)
      && now.contexts == full.contexts - Archived(entries, done)
      && |start.daily| <= |now.daily| && start.daily == now.daily[..|start.daily|]
      && (forall i :: |start.daily| <= i < |now.daily| ==> now.daily[i].archive == archive)
      && (Clean() ==> RolledUp())
    }

    /** The archive's rollups hold every archived row in the group it belongs to among all rows. */
    ghost predicate RolledUp()
      requires done <= |entries| && |start.daily| <= |now.daily|
    {
      Archived(entries, done) <= full.logs.Keys
      && forall k :: RolledTotal(now.daily[|start.daily|..], k) == TotalOf(full.logs, Archived(entries, done), k)
    }
  }

  lemma ArchivedRow(run: Run, i: nat, id: int)
    requires run.Kept() && i < |run.entries| && id in run.entries[i].logs
    ensures id in run.start.logs && id in run.full.logs
      && run.full.logs[id] == run.start.logs[id] == run.entries[i].logs[id]
    ensures InRange(run.full.logs[id], run.entries[i].day, run.maxId)
    ensures i < run.done ==> id in Archived(run.entries, run.done) && id !in run.now.logs
  {
    assert id in Range(run.start.logs, run.entries[i].day, run.maxId);
    ArchivedIn(run.entries, run.done, id);
  }

  lemma DayAligned(entries: seq<Entry>, logs: Logs, contexts: Contexts, cutoff: int, maxId: int, i: nat)
    requires Exported(entries, logs, contexts, cutoff, maxId) && i < |entries|
    ensures entries[i].day % DAY == 0
  {
  }

  lemma DayIncreases(entries: seq<Entry>, logs: Logs, contexts: Contexts, cutoff: int, maxId: int, i: nat, j: nat)
    requires Exported(entries, logs, contexts, cutoff, maxId) && i < |entries| && j < |entries|
    ensures entries[i].day == entries[j].day ==> i == j
  {
    assert i < j ==> entries[i].day < entries[j].day;
    assert j < i ==> entries[j].day < entries[i].day;
  }

  lemma DaysApart(entries: seq<Entry>, logs: Logs, contexts: Contexts, cutoff: int, maxId: int, i: nat, j: nat, at: int)
    requires Exported(entries, logs, contexts, cutoff, maxId) && i < |entries| && j < |entries|
    requires entries[i].day <= at < entries[i].day + DAY && entries[j].day <= at < entries[j].day + DAY
    ensures i == j
  {
    hide *;
    DayAligned(entries, logs, contexts, cutoff, maxId, i);
    DayAligned(entries, logs, contexts, cutoff, maxId, j);
    DayHolds(at, 0);
    DayIncreases(entries, logs, contexts, cutoff, maxId, i, j);
  }

  /**
   * Every row seen at export is live or in a deleted day of the archive, and the rows that retention must keep are
   * live.
   */
  lemma NothingLost(run: Run, id: int)
    requires run.Kept() && id in run.start.logs
    ensures (id in run.now.logs && run.now.logs[id] == run.start.logs[id])
         || exists i :: 0 <= i < run.done && id in run.entries[i].logs && run.entries[i].logs[id] == run.start.logs[id]
    ensures run.start.logs[id].at >= run.cutoff || run.start.logs[id].id > run.maxId ==>
      id in run.now.logs && run.now.logs[id] == run.start.logs[id]
  {
    ArchivedIn(run.entries, run.done, id);
    if i :| 0 <= i < run.done && id in run.entries[i].logs {
      ArchivedRow(run, i, id);
    }
  }

  lemma LiveOutOfRange(run: Run, i: nat, id: int)
    requires run.Kept()
    requires run.Clean() && id in run.now.logs && i < run.done
    ensures !InRange(run.full.logs[id], run.entries[i].day, run.maxId)
  {
    ArchivedIn(run.entries, run.done, id);
    assert id in run.start.logs ==>
      (id in Range(run.start.logs, run.entries[i].day, run.maxId) <==>
      InRange(run.full.logs[id], run.entries[i].day, run.maxId));
  }

  /** A live row is superseded now exactly when it would be had nothing ever been archived. */
  lemma LiveUnaffected(run: Run, id: int)
    requires run.Kept()
    requires run.Clean() && id in run.now.logs
    ensures Superseded(run.now.logs, run.now.logs[id]) == Superseded(run.full.logs, run.full.logs[id])
  {
    var r := run.full.logs[id];
    forall n | n in run.full.logs && Replaces(run.full.logs[n], r) ensures n in run.now.logs {
      ArchivedIn(run.entries, run.done, n);
      if i :| 0 <= i < run.done && n in run.entries[i].logs {
        LiveOutOfRange(run, i, id);
        ArchivedRow(run, i, n);
      }
    }
    if Superseded(run.full.logs, r) {
      var n :| n in run.full.logs && Replaces(run.full.logs[n], r);
      assert n in run.now.logs && run.now.logs[n] == run.full.logs[n];
    }
  }

  /** Readers see the totals they would see had nothing ever been archived, group by group. */
  lemma KeptReports(run: Run, k: Key)
    requires run.Kept()
    requires run.Clean()
    ensures Report(run.now.logs, run.now.daily, k) == Report(run.full.logs, run.start.daily, k)
  {
    hide Superseded, Plus;
    var gone := Archived(run.entries, run.done);
    assert run.full.logs.Keys == run.now.logs.Keys + gone;
    TotalUnion(run.full.logs, run.now.logs.Keys, gone, k);
    forall id | id in run.now.logs
        ensures Superseded(run.now.logs, run.now.logs[id]) == Superseded(run.full.logs, run.full.logs[id]) {
      LiveUnaffected(run, id);
    }
    TotalSame(run.full.logs, run.now.logs, run.now.logs.Keys, k);
    var rolled := run.now.daily[|run.start.daily|..];
    assert run.now.daily == run.start.daily + rolled;
    RolledConcat(run.start.daily, rolled, k);
    Regroup(TotalOf(run.now.logs, run.now.logs.Keys, k), TotalOf(run.full.logs, gone, k),
      RolledTotal(run.start.daily, k));
  }

  lemma Regroup(live: Totals, gone: Totals, daily: Totals)
    ensures Plus(live, Plus(daily, gone)) == Plus(Plus(live, gone), daily)
  {
  }

  // ---- the steps of a run ----

  ghost function Joined(full: Tables, grown: Tables): Tables {
    Tables(full.logs + grown.logs, full.contexts + grown.contexts, full.daily, full.accounts + grown.accounts)
  }

  /** New rows have ids that were never used. */
  ghost predicate NewIds(run: Run, grown: Tables) {
    forall id :: id in grown.logs && id !in run.now.logs ==> id !in run.full.logs
  }

  lemma ArchivedGone(run: Run, id: int)
    requires run.Kept() && id in Archived(run.entries, run.done)
    ensures id in run.full.logs && id !in run.now.logs
  {
    ArchivedIn(run.entries, run.done, id);
    var i :| 0 <= i < run.done && id in run.entries[i].logs;
    ArchivedRow(run, i, id);
  }

  lemma JoinedGrows(run: Run, grown: Tables)
    requires run.Kept() && Grows(run.now, grown) && Keyed(grown.logs) && NewIds(run, grown)
    requires grown.contexts.Keys <= grown.logs.Keys && run.full.contexts.Keys <= run.full.logs.Keys
    ensures var full := Joined(run.full, grown);
      && Grows(run.start, full) && Keyed(full.logs) && Extends(run.full.logs, full.logs)
           && Extends(run.full.contexts, full.contexts)
      && grown.logs == full.logs - Archived(run.entries, run.done)
      && grown.contexts == full.contexts - Archived(run.entries, run.done)
      && full.contexts.Keys <= full.logs.Keys
  {
    hide Exported, Run.RolledUp, Run.Clean, Undisturbed, Archived;
    var full, gone := Joined(run.full, grown), Archived(run.entries, run.done);
    forall id | id in gone ensures id in run.full.logs && id !in grown.logs {
      ArchivedGone(run, id);
    }
    forall id | id in grown.contexts && id !in run.now.contexts ensures id !in run.full.contexts {
      assert id in grown.logs && id !in run.now.logs;
    }
    forall id | id in full.logs && id !in gone ensures id in grown.logs && full.logs[id] == grown.logs[id] {
      assert id !in grown.logs ==> id in run.now.logs;
    }
    forall id | id in full.contexts && id !in gone
        ensures id in grown.contexts && full.contexts[id] == grown.contexts[id] {
      assert id !in grown.contexts ==> id in run.now.contexts;
    }
    assert full.logs - gone == grown.logs;
    assert full.contexts - gone == grown.contexts;
  }

  lemma CleanBefore(run: Run, full: Logs)
    requires run.Kept() && Extends(run.full.logs, full) && Undisturbed(run.start.logs, full, run.entries, run.maxId)
    ensures run.Clean()
  {
  }

  /** An archived row stays superseded by the same rows while arrivals stay clean. */
  lemma ArchivedSame(run: Run, full: Logs, k: Key)
    requires run.Kept() && Extends(run.full.logs, full) && Undisturbed(run.start.logs, full, run.entries, run.maxId)
    ensures Archived(run.entries, run.done) <= run.full.logs.Keys && Archived(run.entries, run.done) <= full.Keys
    ensures TotalOf(full, Archived(run.entries, run.done), k) ==
      TotalOf(run.full.logs, Archived(run.entries, run.done), k)
  {
    CleanBefore(run, full);
    var gone := Archived(run.entries, run.done);
    forall id | id in gone
        ensures id in full && Superseded(full, full[id]) == Superseded(run.full.logs, run.full.logs[id]) {
      ArchivedIn(run.entries, run.done, id);
      var i :| 0 <= i < run.done && id in run.entries[i].logs;
      ArchivedRow(run, i, id);
      ReplacedByOld(run, full, i, id);
    }
    hide Superseded;
    TotalSame(full, run.full.logs, gone, k);
  }

  lemma ReplacedByOld(run: Run, full: Logs, i: nat, id: int)
    requires run.Kept() && Extends(run.full.logs, full) && Undisturbed(run.start.logs, full, run.entries, run.maxId)
    requires i < |run.entries| && id in run.entries[i].logs
    ensures id in full && Superseded(full, full[id]) == Superseded(run.full.logs, full[id])
    ensures forall n :: n in full && Replaces(full[n], full[id]) ==>
      n in run.start.logs && n in run.entries[i].logs + run.now.logs
  {
    ArchivedRow(run, i, id);
    var r := full[id];
    forall n | n in full && Replaces(full[n], r)
        ensures n in run.start.logs && n in run.entries[i].logs + run.now.logs {
      assert !Replaces(full[n], run.entries[i].logs[id]) || n in run.start.logs;
      assert n in run.full.logs && full[n] == run.full.logs[n] == run.start.logs[n];
      ArchivedIn(run.entries, run.done, n);
      if j :| 0 <= j < run.done && n in run.entries[j].logs {
        ArchivedRow(run, j, n);
        DaysApart(run.entries, run.start.logs, run.start.contexts, run.cutoff, run.maxId, i, j, r.at);
      }
    }
    if Superseded(full, r) {
      var n :| n in full && Replaces(full[n], r);
      assert n in run.full.logs && Replaces(run.full.logs[n], r);
    }
    SupersededGrows(run.full.logs, full, r);
  }

  /** Other sessions may commit rows at any time. */
  lemma KeptArrives(run: Run, grown: Tables)
    requires run.Kept() && Grows(run.now, grown) && Keyed(grown.logs) && NewIds(run, grown)
    requires grown.contexts.Keys <= grown.logs.Keys && run.full.contexts.Keys <= run.full.logs.Keys
    ensures run.(full := Joined(run.full, grown), now := grown).Kept()
  {
    JoinedGrows(run, grown);
    var next := run.(full := Joined(run.full, grown), now := grown);
    if next.Clean() {
      CleanBefore(run, next.full.logs);
      forall k { ArchivedSame(run, next.full.logs, k); }
    }
  }

  /** A day that was deleted with clean arrivals was rolled up as if nothing had ever been archived. */
  lemma DayRolledUp(run: Run, mid: Tables, grown: Tables, after: Tables, rolls: seq<Rollup>, k: Key)
    requires run.Kept() && run.done < |run.entries|
    requires DayDeleted(run.entries[run.done], run.maxId, run.archive, run.now, mid, grown, after, rolls)
    requires Keyed(grown.logs) && NewIds(run, grown) && Extends(run.full.logs, Joined(run.full, grown).logs)
    requires Undisturbed(run.start.logs, Joined(run.full, grown).logs, run.entries, run.maxId)
    ensures run.entries[run.done].logs.Keys <= Joined(run.full, grown).logs.Keys
    ensures RolledTotal(rolls, k) == TotalOf(Joined(run.full, grown).logs, run.entries[run.done].logs.Keys, k)
  {
    var e, full := run.entries[run.done], Joined(run.full, grown).logs;
    assert Extends(mid.logs, full);
    forall id | id in e.logs
      ensures id in mid.logs && id in full && mid.logs[id] == full[id]
        && Superseded(mid.logs, mid.logs[id]) == Superseded(full, full[id])
    {
      ArchivedRow(run, run.done, id);
      ReplacedByOld(run, full, run.done, id);
      assert id in Range(grown.logs, e.day, run.maxId);
      SupersededGrows(mid.logs, full, full[id]);
      if Superseded(full, full[id]) {
        var n :| n in full && Replaces(full[n], full[id]);
        assert n in e.logs + run.now.logs;
        assert n in mid.logs && Replaces(mid.logs[n], mid.logs[id]);
      }
    }
    hide Superseded;
    RollupComplete(rolls, mid.logs, e.logs.Keys, run.archive, k);
    TotalSame(mid.logs, full, e.logs.Keys, k);
  }

  /** The archived rows so far and the day's rows are apart, and the rollups of both add up. */
  lemma DayJoins(run: Run, mid: Tables, grown: Tables, after: Tables, rolls: seq<Rollup>, k: Key)
    requires run.Kept() && run.done < |run.entries|
    requires DayDeleted(run.entries[run.done], run.maxId, run.archive, run.now, mid, grown, after, rolls)
    requires Keyed(grown.logs) && NewIds(run, grown) && Extends(run.full.logs, Joined(run.full, grown).logs)
    requires Undisturbed(run.start.logs, Joined(run.full, grown).logs, run.entries, run.maxId)
    ensures var full, gone := Joined(run.full, grown).logs, Archived(run.entries, run.done);
      && gone + run.entries[run.done].logs.Keys <= full.Keys
      && RolledTotal(after.daily[|run.start.daily|..], k) == TotalOf(full, gone + run.entries[run.done].logs.Keys, k)
  {
    hide *;
    var full, gone := Joined(run.full, grown).logs, Archived(run.entries, run.done);
    DayTail(run, mid, grown, after, rolls, k);
    ArchivedSame(run, full, k);
    DayRolledUp(run, mid, grown, after, rolls, k);
    ArchivedApart(run);
    RolledConcat(run.now.daily[|run.start.daily|..], rolls, k);
    TotalUnion(full, gone, run.entries[run.done].logs.Keys, k);
  }

  lemma DayTail(run: Run, mid: Tables, grown: Tables, after: Tables, rolls: seq<Rollup>, k: Key)
    requires run.Kept() && run.done < |run.entries|
    requires DayDeleted(run.entries[run.done], run.maxId, run.archive, run.now, mid, grown, after, rolls)
    requires Extends(run.full.logs, Joined(run.full, grown).logs)
    requires Undisturbed(run.start.logs, Joined(run.full, grown).logs, run.entries, run.maxId)
    ensures |run.start.daily| <= |run.now.daily| <= |after.daily|
    ensures after.daily[|run.start.daily|..] == run.now.daily[|run.start.daily|..] + rolls
    ensures Archived(run.entries, run.done) <= run.full.logs.Keys
    ensures RolledTotal(run.now.daily[|run.start.daily|..], k) ==
      TotalOf(run.full.logs, Archived(run.entries, run.done), k)
  {
    CleanBefore(run, Joined(run.full, grown).logs);
    assert run.RolledUp();
    assert after.daily == run.now.daily + rolls;
  }

  lemma ArchivedApart(run: Run)
    requires run.Kept() && run.done < |run.entries|
    ensures Archived(run.entries, run.done) !! run.entries[run.done].logs.Keys
  {
    forall id | id in run.entries[run.done].logs ensures id !in Archived(run.entries, run.done) {
      ArchivedIn(run.entries, run.done, id);
      if i :| 0 <= i < run.done && id in run.entries[i].logs {
        ArchivedRow(run, i, id);
        ArchivedRow(run, run.done, id);
        DaysApart(run.entries, run.start.logs, run.start.contexts, run.cutoff, run.maxId, i, run.done,
          run.full.logs[id].at);
      }
    }
  }

  /** Deleting the next day, with any inserts that commit meanwhile. */
  lemma KeptDeletes(run: Run, mid: Tables, grown: Tables, after: Tables, rolls: seq<Rollup>)
    requires run.Kept() && run.done < |run.entries|
    requires DayDeleted(run.entries[run.done], run.maxId, run.archive, run.now, mid, grown, after, rolls)
    requires Keyed(grown.logs) && NewIds(run, grown)
    requires grown.contexts.Keys <= grown.logs.Keys && run.full.contexts.Keys <= run.full.logs.Keys
    ensures run.(full := Joined(run.full, grown), now := after, done := run.done + 1).Kept()
  {
    hide Undisturbed, Exported, RollsUp, Range, RangeContexts, TotalOf, RolledTotal, Run.RolledUp;
    var next := run.(full := Joined(run.full, grown), now := after, done := run.done + 1);
    DeletedDaily(run, mid, grown, after, rolls);
    JoinedGrows(run, grown);
    DeletedTables(run, grown, run.entries[run.done].logs.Keys);
    if next.Clean() {
      DeletedRolledUp(run, mid, grown, after, rolls);
    }
  }

  lemma DeletedDaily(run: Run, mid: Tables, grown: Tables, after: Tables, rolls: seq<Rollup>)
    requires run.Kept() && run.done < |run.entries|
    requires DayDeleted(run.entries[run.done], run.maxId, run.archive, run.now, mid, grown, after, rolls)
    ensures Grows(run.now, grown) && |run.start.daily| <= |after.daily|
      && run.start.daily == after.daily[..|run.start.daily|]
    ensures forall i :: |run.start.daily| <= i < |after.daily| ==> after.daily[i].archive == run.archive
    ensures Archived(run.entries, run.done + 1) == Archived(run.entries, run.done) + run.entries[run.done].logs.Keys
  {
    hide Undisturbed, Exported, Range, RangeContexts, TotalOf, RolledTotal, Run.RolledUp, Superseded, KeyOf;
    assert after.daily == run.now.daily + rolls;
  }

  lemma DeletedRolledUp(run: Run, mid: Tables, grown: Tables, after: Tables, rolls: seq<Rollup>)
    requires run.Kept() && run.done < |run.entries|
    requires DayDeleted(run.entries[run.done], run.maxId, run.archive, run.now, mid, grown, after, rolls)
    requires Keyed(grown.logs) && NewIds(run, grown) && Extends(run.full.logs, Joined(run.full, grown).logs)
    requires Undisturbed(run.start.logs, Joined(run.full, grown).logs, run.entries, run.maxId)
    requires |run.start.daily| <= |after.daily|
    requires Archived(run.entries, run.done + 1) == Archived(run.entries, run.done) + run.entries[run.done].logs.Keys
    ensures run.(full := Joined(run.full, grown), now := after, done := run.done + 1).RolledUp()
  {
    forall k {
      DayJoins(run, mid, grown, after, rolls, k);
    }
    hide Run.Kept, DayDeleted, Undisturbed, Joined, TotalOf, RolledTotal, Archived;
  }

  lemma DeletedTables(run: Run, grown: Tables, keys: set<int>)
    requires run.Kept()
    requires var gone := Archived(run.entries, run.done);
      && grown.logs == Joined(run.full, grown).logs - gone && grown.contexts == Joined(run.full, grown).contexts - gone
    ensures var full, gone := Joined(run.full, grown), Archived(run.entries, run.done);
      grown.logs - keys == full.logs - (gone + keys) && grown.contexts - keys == full.contexts - (gone + keys)
  {
  }

  /** A fresh export starts a run. */
  lemma KeptStarts(run: Run)
    requires run.start == run.full == run.now && run.done == 0 && Keyed(run.start.logs)
    requires Exported(run.entries, run.start.logs, run.start.contexts, run.cutoff, run.maxId)
    ensures run.Kept()
  {
  }

  /** After a clean run, one more batch of rows leaves every group's reported total as if nothing had ever been
      archived exactly when it replaces no archived row that was not replaced before, and none of the live rows
      is replaced by archived rows alone. */
  lemma ArrivalConserves(run: Run, grown: Tables)
    requires run.Kept() && run.Clean() && Grows(run.now, grown) && Keyed(grown.logs) && NewIds(run, grown)
    requires grown.contexts.Keys <= grown.logs.Keys && run.full.contexts.Keys <= run.full.logs.Keys
    ensures var full, gone := Joined(run.full, grown).logs, Archived(run.entries, run.done);
      (forall k :: Report(grown.logs, grown.daily, k) == Report(full, run.start.daily, k))
      <==>
      && (forall id :: id in gone && id in full && id in run.full.logs ==>
           Superseded(full, full[id]) == Superseded(run.full.logs, run.full.logs[id]))
      && (forall id :: id in grown.logs && id in full ==>
           Superseded(full, full[id]) == Superseded(grown.logs, grown.logs[id]))
  {
    JoinedGrows(run, grown);
    var full, gone := Joined(run.full, grown).logs, Archived(run.entries, run.done);
    assert Extends(grown.logs, full);
    forall k { ArrivalReport(run, grown, k); }
    hide Superseded, Report, Plus;
    if (forall id :: id in gone && id in full && id in run.full.logs ==>
        Superseded(full, full[id]) == Superseded(run.full.logs, run.full.logs[id]))
      && (forall id :: id in grown.logs && id in full ==>
           Superseded(full, full[id]) == Superseded(grown.logs, grown.logs[id]))
    {
      forall k ensures Report(grown.logs, grown.daily, k) == Report(full, run.start.daily, k) {
        TotalSame(grown.logs, full, grown.logs.Keys, k);
        TotalSame(run.full.logs, full, gone, k);
      }
    }
    if id :| (id in gone && id in full && id in run.full.logs
              && Superseded(full, full[id]) != Superseded(run.full.logs, run.full.logs[id])) {
      SupersededGrows(run.full.logs, full, full[id]);
      ArrivalBreaks(run, grown, run.full.logs, gone, id);
    }
    if id :| id in grown.logs && id in full && Superseded(full, full[id]) != Superseded(grown.logs, grown.logs[id]) {
      SupersededGrows(grown.logs, full, full[id]);
      ArrivalBreaks(run, grown, grown.logs, grown.logs.Keys, id);
    }
  }

  /** Both sides of the reported total, split into live and archived rows. */
  lemma ArrivalReport(run: Run, grown: Tables, k: Key)
    requires run.Kept() && run.Clean() && Grows(run.now, grown) && Keyed(grown.logs) && NewIds(run, grown)
    requires grown.contexts.Keys <= grown.logs.Keys && run.full.contexts.Keys <= run.full.logs.Keys
    ensures var full, gone := Joined(run.full, grown).logs, Archived(run.entries, run.done);
      && gone <= run.full.logs.Keys && gone <= full.Keys && grown.logs.Keys <= full.Keys
      && Report(grown.logs, grown.daily, k)
           == Plus(Plus(TotalOf(grown.logs, grown.logs.Keys, k), TotalOf(run.full.logs, gone, k)),
             RolledTotal(run.start.daily, k))
      && Report(full, run.start.daily, k)
           == Plus(Plus(TotalOf(full, grown.logs.Keys, k), TotalOf(full, gone, k)), RolledTotal(run.start.daily, k))
  {
    JoinedGrows(run, grown);
    hide Plus;
    var full, gone := Joined(run.full, grown).logs, Archived(run.entries, run.done);
    var rolled := run.now.daily[|run.start.daily|..];
    assert grown.daily == run.start.daily + rolled;
    RolledConcat(run.start.daily, rolled, k);
    assert full.Keys == grown.logs.Keys + gone;
    TotalUnion(full, grown.logs.Keys, gone, k);
    Regroup(TotalOf(grown.logs, grown.logs.Keys, k), TotalOf(run.full.logs, gone, k), RolledTotal(run.start.daily, k));
  }

  /** A row counted once too often shows in its group's request count. */
  lemma ArrivalBreaks(run: Run, grown: Tables, judged: Logs, ids: set<int>, id: int)
    requires run.Kept() && run.Clean() && Grows(run.now, grown) && Keyed(grown.logs) && NewIds(run, grown)
    requires grown.contexts.Keys <= grown.logs.Keys && run.full.contexts.Keys <= run.full.logs.Keys
    requires (judged == run.full.logs && ids == Archived(run.entries, run.done))
      || (judged == grown.logs && ids == grown.logs.Keys)
    requires id in ids && id in judged && id in Joined(run.full, grown).logs
    requires Superseded(Joined(run.full, grown).logs, judged[id]) && !Superseded(judged, judged[id])
    ensures exists k :: Report(grown.logs, grown.daily, k) != Report(Joined(run.full, grown).logs, run.start.daily, k)
  {
    hide Superseded, Plus, Report;
    JoinedGrows(run, grown);
    var full, gone := Joined(run.full, grown).logs, Archived(run.entries, run.done);
    var k := KeyOf(judged, judged[id]);
    ArrivalReport(run, grown, k);
    assert Extends(grown.logs, full);
    FewerUnmarked(grown.logs, full, grown.logs.Keys, k);
    FewerUnmarked(run.full.logs, full, gone, k);
    FewerRequests(judged, full, ids, k, id);
    RequestsOf(TotalOf(grown.logs, grown.logs.Keys, k), TotalOf(run.full.logs, gone, k),
      RolledTotal(run.start.daily, k));
    RequestsOf(TotalOf(full, grown.logs.Keys, k), TotalOf(full, gone, k), RolledTotal(run.start.daily, k));
    assert Report(grown.logs, grown.daily, k) != Report(full, run.start.daily, k);
  }

  lemma RequestsOf(a: Totals, b: Totals, c: Totals)
    ensures Plus(Plus(a, b), c).requests == a.requests + b.requests + c.requests
  {
  }
}
