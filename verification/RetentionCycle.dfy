/** Apply and restore on one database, while other sessions write and accounts are removed. */
module RetentionCycle {
  import opened Options
  import opened RetentionPolicy
  import opened RetentionApply
  import opened RetentionTotals
  import opened RetentionRemoval
  import opened RetentionRun
  import opened RetentionRestore
  import opened RetentionRoundTrip

  // ---- rows, one by one ----

  /** Entries that agree with one table. */
  ghost predicate PartsOf(entries: seq<Entry>, all: Logs) {
    forall i :: 0 <= i < |entries| ==> Extends(entries[i].logs, all)
  }

  ghost predicate Loaded(entries: seq<Entry>, n: nat, id: int) {
    exists i :: 0 <= i < n && i < |entries| && entries[i].applied && id in entries[i].logs
  }

  /** A row that an applied entry holds comes from there, and any other is as it was. */
  lemma {:induction false} RowBack(logs: Logs, entries: seq<Entry>, n: nat, all: Logs, id: int)
    requires n <= |entries| && PartsOf(entries, all)
    ensures Loaded(entries, n, id) ==>
      id in all && id in BackLogs(logs, entries, n) && BackLogs(logs, entries, n)[id] == all[id]
    ensures !Loaded(entries, n, id) ==> (id in BackLogs(logs, entries, n) <==> id in logs)
    ensures !Loaded(entries, n, id) && id in logs ==> BackLogs(logs, entries, n)[id] == logs[id]
  {
    if n > 0 {
      RowBack(logs, entries, n - 1, all, id);
      var e := entries[n - 1];
      assert Extends(e.logs, all);
      if e.applied && id in e.logs {
        assert Loaded(entries, n, id);
      }
      assert Loaded(entries, n, id) <==> Loaded(entries, n - 1, id) || (e.applied && id in e.logs);
    }
  }

  /** The marked days hold exactly the rows of the first deleted days. */
  lemma LoadedIs(run: Run, entries: seq<Entry>, marked: nat, removed: set<string>, erased: set<string>, id: int)
    requires Survives(run, removed, erased) && MarkedUpTo(entries, run.entries, marked) && marked <= run.done
    ensures PartsOf(entries, run.start.logs) && marked <= |run.entries|
    ensures Loaded(entries, |entries|, id) <==> id in Archived(run.entries, marked)
    ensures id in Archived(run.entries, marked) ==> id in Archived(run.entries, run.done)
  {
    forall i | 0 <= i < |entries| ensures Extends(entries[i].logs, run.start.logs) {
      assert entries[i].logs == Range(run.start.logs, run.entries[i].day, run.maxId);
    }
    ArchivedIn(run.entries, marked, id);
    ArchivedGrows(run.entries, marked, run.done);
    if Loaded(entries, |entries|, id) {
      var i :| 0 <= i < |entries| && entries[i].applied && id in entries[i].logs;
      assert i < marked && id in run.entries[i].logs;
    }
    if i :| 0 <= i < marked && id in run.entries[i].logs {
      assert entries[i] == run.entries[i].(applied := true);
    }
  }

  /** After a restore every row seen at export is back as it was, unless its account was removed before its day was
      deleted or its day was deleted and not marked. */
  lemma SurvivorsBack(run: Run, entries: seq<Entry>, marked: nat, removed: set<string>, erased: set<string>, id: int)
    requires Survives(run, removed, erased) && MarkedUpTo(entries, run.entries, marked) && marked <= run.done
    requires id in run.start.logs
    ensures var r, back := run.start.logs[id], BackLogs(run.now.logs, entries, |entries|);
      && marked <= |run.entries|
      && ((id in back && back[id] == r) <==>
            || id in Archived(run.entries, marked)
            || (id !in Archived(run.entries, run.done)
                && (r.account.Some? && r.account.value in removed ==>
                      id in run.now.logs && r.(account := None, deleted := true) == r)))
  {
    LoadedIs(run, entries, marked, removed, erased, id);
    RowBack(run.now.logs, entries, |entries|, run.start.logs, id);
    assert Fate(run, removed, erased, id);
  }

  // ---- when a marked day loads ----

  /** A row of these tables lies in the day's range. */
  ghost predicate Taken(logs: Logs, day: int, maxId: int) { exists id :: id in logs && InRange(logs[id], day, maxId) }

  /** A day's rows are neither live nor in an earlier entry, and its parts are parts of its rows. */
  lemma DayAway(run: Run, entries: seq<Entry>, marked: nat, removed: set<string>, erased: set<string>, i: nat, id: int)
    requires Survives(run, removed, erased) && MarkedUpTo(entries, run.entries, marked) && i < marked <= run.done
    ensures i < |entries| == |run.entries| && entries[i] == run.entries[i].(applied := true)
    ensures entries[i].contexts.Keys <= entries[i].logs.Keys
    ensures id in entries[i].logs ==> id !in run.now.logs && !Loaded(entries, i, id)
    ensures id in entries[i].logs ==> InRange(entries[i].logs[id], entries[i].day, run.maxId)
  {
    ArchivedIn(run.entries, run.done, id);
    var e := run.entries[i];
    if id in e.logs {
      assert id in Range(run.start.logs, e.day, run.maxId) && Fate(run, removed, erased, id);
      if j :| 0 <= j < i && id in entries[j].logs {
        assert id in Range(run.start.logs, run.entries[j].day, run.maxId);
        DaysApart(run.entries, run.start.logs, run.start.contexts, run.cutoff, run.maxId, i, j,
          run.start.logs[id].at);
      }
    }
    forall part | part in e.contexts ensures part in e.logs {
      assert part in RangeContexts(run.start.logs, run.start.contexts, e.day, run.maxId);
      assert part in Range(run.start.logs, e.day, run.maxId);
    }
  }

  /** An earlier entry's row is back as it was and lies in its own day. */
  lemma EarlierAway(run: Run, entries: seq<Entry>, marked: nat, removed: set<string>, erased: set<string>, i: nat,
      id: int)
    requires Survives(run, removed, erased) && MarkedUpTo(entries, run.entries, marked) && i < marked <= run.done
    requires Loaded(entries, i, id)
    ensures i < |run.entries| && id in run.start.logs
    ensures !InRange(run.start.logs[id], run.entries[i].day, run.maxId)
  {
    var j :| 0 <= j < i && id in entries[j].logs;
    assert entries[j].logs == Range(run.start.logs, run.entries[j].day, run.maxId);
    if InRange(run.start.logs[id], run.entries[i].day, run.maxId) {
      DaysApart(run.entries, run.start.logs, run.start.contexts, run.cutoff, run.maxId, i, j, run.start.logs[id].at);
    }
  }

  lemma {:induction false} PartsBelow(logs: Logs, contexts: Contexts, entries: seq<Entry>, n: nat)
    requires n <= |entries| && contexts.Keys <= logs.Keys
    requires forall i :: 0 <= i < n ==> entries[i].contexts.Keys <= entries[i].logs.Keys
    ensures BackContexts(contexts, entries, n).Keys <= BackLogs(logs, entries, n).Keys
  {
    if n > 0 {
      PartsBelow(logs, contexts, entries, n - 1);
    }
  }

  /** What stands in the day's range once the entry is loaded: its own rows, and whatever is live there. */
  lemma RangeBack(run: Run, entries: seq<Entry>, marked: nat, removed: set<string>, erased: set<string>, i: nat)
    requires Survives(run, removed, erased) && MarkedUpTo(entries, run.entries, marked) && i < marked <= run.done
    ensures i < |entries| == |run.entries|
    ensures entries[i].logs.Keys !! BackLogs(run.now.logs, entries, i).Keys
    ensures (Range(BackLogs(run.now.logs, entries, i) + entries[i].logs, entries[i].day, run.maxId) == entries[i].logs)
        <==> !Taken(run.now.logs, entries[i].day, run.maxId)
  {
    hide Survives, MarkedUpTo, Loaded, BackLogs;
    DayAway(run, entries, marked, removed, erased, i, 0);
    var back, e, day := BackLogs(run.now.logs, entries, i), run.entries[i], run.entries[i].day;
    forall id | id in e.logs ensures id !in back && id !in run.now.logs && InRange(e.logs[id], day, run.maxId) {
      DayAway(run, entries, marked, removed, erased, i, id);
      BackRow(run, entries, marked, removed, erased, i, id);
    }
    var loaded := Range(back + e.logs, day, run.maxId);
    if id :| id in run.now.logs && InRange(run.now.logs[id], day, run.maxId) {
      BackRow(run, entries, marked, removed, erased, i, id);
      assert id in loaded && id !in e.logs;
    } else {
      forall id | id in loaded ensures id in e.logs {
        BackRow(run, entries, marked, removed, erased, i, id);
      }
      assert loaded == e.logs;
    }
  }

  /** A row in the tables before entry `i` is live as it is, or out of the day's range. */
  lemma BackRow(run: Run, entries: seq<Entry>, marked: nat, removed: set<string>, erased: set<string>, i: nat, id: int)
    requires Survives(run, removed, erased) && MarkedUpTo(entries, run.entries, marked) && i < marked <= run.done
    ensures i < |entries| == |run.entries|
    ensures var back := BackLogs(run.now.logs, entries, i);
      && (id in run.now.logs ==> id in back && back[id] == run.now.logs[id])
      && (id in back && id !in run.now.logs ==>
            Loaded(entries, i, id) && !InRange(back[id], run.entries[i].day, run.maxId))
  {
    EntriesAgree(run, entries, marked, removed, erased);
    RowBack(run.now.logs, entries, i, run.start.logs, id);
    if Loaded(entries, i, id) {
      EarlierAway(run, entries, marked, removed, erased, i, id);
      var j :| 0 <= j < i && j < |entries| && id in entries[j].logs;
      DayAway(run, entries, marked, removed, erased, j, id);
    }
  }

  lemma EntriesAgree(run: Run, entries: seq<Entry>, marked: nat, removed: set<string>, erased: set<string>)
    requires Survives(run, removed, erased) && MarkedUpTo(entries, run.entries, marked) && marked <= run.done
    ensures PartsOf(entries, run.start.logs) && run.done <= |entries| == |run.entries|
  {
    forall i | 0 <= i < |entries| ensures Extends(entries[i].logs, run.start.logs) {
      assert entries[i].logs == Range(run.start.logs, run.entries[i].day, run.maxId);
    }
  }

  /** Whoever wrote and whichever accounts were removed: a marked day loads exactly when no live row is in its range. */
  lemma DayLoadsWhen(run: Run, entries: seq<Entry>, marked: nat, removed: set<string>, erased: set<string>, i: nat)
    requires Survives(run, removed, erased) && MarkedUpTo(entries, run.entries, marked) && i < marked <= run.done
    requires run.now.contexts.Keys <= run.now.logs.Keys
    ensures i < |entries|
    ensures Loadable(BackLogs(run.now.logs, entries, i), BackContexts(run.now.contexts, entries, i), entries[i],
      run.maxId)
       <==> !Taken(run.now.logs, entries[i].day, run.maxId)
  {
    hide Survives, MarkedUpTo, BackLogs, BackContexts, Taken, Range, RangeContexts;
    forall j | 0 <= j <= i ensures j < |entries| && entries[j].contexts.Keys <= entries[j].logs.Keys {
      DayAway(run, entries, marked, removed, erased, j, 0);
    }
    RangeBack(run, entries, marked, removed, erased, i);
    PartsBelow(run.now.logs, run.now.contexts, entries, i);
    var logs, contexts := BackLogs(run.now.logs, entries, i), BackContexts(run.now.contexts, entries, i);
    if !Taken(run.now.logs, entries[i].day, run.maxId) {
      PartsInRange(logs, contexts, entries[i], run.maxId);
    }
  }

  lemma PartsInRange(logs: Logs, contexts: Contexts, e: Entry, maxId: int)
    requires contexts.Keys <= logs.Keys && e.contexts.Keys <= e.logs.Keys && e.logs.Keys !! logs.Keys
    requires Range(logs + e.logs, e.day, maxId) == e.logs
    ensures RangeContexts(logs + e.logs, contexts + e.contexts, e.day, maxId) == e.contexts
  {
    var range, parts := Range(logs + e.logs, e.day, maxId),
      RangeContexts(logs + e.logs, contexts + e.contexts, e.day, maxId);
    forall id | id in parts ensures id in e.contexts && parts[id] == e.contexts[id] {
      assert id in range;
      assert id in e.logs.Keys;
    }
    forall id | id in e.contexts ensures id in parts {
      assert id in e.logs.Keys && id in range;
    }
  }

  // ---- a restore among arrivals ----

  /** No live row lay in a marked day's range, and its accounts were there, when that day was checked. */
  ghost predicate Undisputed(entries: seq<Entry>, marked: nat, at: seq<Tables>, maxId: int)
    requires marked <= |at| && marked <= |entries|
  {
    forall i :: 0 <= i < marked ==>
      !Taken(at[i].logs, entries[i].day, maxId) && Known(entries[i].logs, at[i].accounts)
  }

  lemma {:induction false} LoadsWhen(run: Run, entries: seq<Entry>, marked: nat, removed: set<string>,
      erased: set<string>, at: seq<Tables>, end: Tables, used: set<int>)
    requires Tracks(run, used, removed, erased) && MarkedUpTo(entries, run.entries, marked) && marked <= run.done
    requires |at| == |entries| && Meanwhile(run.now, at, end, used)
    ensures marked <= |at| && run.done <= |run.entries|
    ensures LoadsAt(at, entries, |entries|, run.maxId) <==> Undisputed(run.entries, marked, at, run.maxId)
  {
    EntriesAgree(run, entries, marked, removed, erased);
    forall i | 0 <= i < |entries|
      ensures LoadsOne(at, entries, i, run.maxId) <==> (i < marked ==>
          !Taken(at[i].logs, run.entries[i].day, run.maxId) && Known(run.entries[i].logs, at[i].accounts))
    {
      OneLoadsWhen(run, entries, marked, removed, erased, at, used, i);
    }
    hide LoadsOne, Taken, Known, Arrivals, Survives;
  }

  lemma {:induction false} OneLoadsWhen(run: Run, entries: seq<Entry>, marked: nat, removed: set<string>,
      erased: set<string>, at: seq<Tables>, used: set<int>, i: nat)
    requires Tracks(run, used, removed, erased) && MarkedUpTo(entries, run.entries, marked) && marked <= run.done
    requires i < |at| == |entries| && Arrivals(run.now, at[i], used)
    ensures i < |run.entries|
    ensures LoadsOne(at, entries, i, run.maxId) <==> (i < marked ==>
      !Taken(at[i].logs, run.entries[i].day, run.maxId) && Known(run.entries[i].logs, at[i].accounts))
  {
    hide Survives, Run.Kept, Loadable, BackLogs, BackContexts, Taken, Known;
    SurvivesArrives(run, removed, erased, at[i], used);
    if i < marked {
      DayLoadsWhen(run.(now := at[i]), entries, marked, removed, erased, i);
    }
  }

  lemma KeptThen(run: Run, grown: Tables, used: set<int>)
    requires run.Kept() && run.full.contexts.Keys <= run.full.logs.Keys <= used && Arrivals(run.now, grown, used)
    ensures Then(run, grown).Kept() && Then(run, grown).full.contexts.Keys <= Then(run, grown).full.logs.Keys
  {
    hide Run.Kept;
    NewRows(run, grown, used);
    KeptArrives(run, grown);
    JoinedGrows(run, grown);
  }

  // ---- one database, from export to restore ----

  /** The rows of a deleted day that was not marked. */
  ghost function Unmarked(run: Run, marked: nat): set<int>
    requires run.done <= |run.entries|
  {
    if marked < run.done then run.entries[marked].logs.Keys else {}
  }

  /** The tables after a restore that committed: all rows that ever existed but those of an unmarked day. */
  ghost predicate GivenBack(run: Run, marked: nat, now: Tables, seen: seq<Rollup>)
    requires run.done <= |run.entries|
  {
    && now.logs == run.full.logs - Unmarked(run, marked)
    && now.contexts == run.full.contexts - Unmarked(run, marked)
    && now.daily == Without(seen, run.archive)
    && (seen == run.now.daily ==> now.daily == run.start.daily)
  }

  /** The row is in a marked day, or in no deleted day and of no removed account. */
  ghost predicate Returns(run: Run, marked: nat, removed: set<string>, row: int)
    requires marked <= run.done <= |run.entries| && row in run.start.logs
  {
    var account := run.start.logs[row].account;
    || row in Archived(run.entries, marked)
    || (row !in Archived(run.entries, run.done) && (account.Some? ==> account.value !in removed))
  }

  /** The files of the marked days hold what was exported. */
  ghost predicate Intact(files: seq<File>, entries: seq<Entry>, marked: nat)
    requires marked <= |entries| == |files|
  {
    forall i :: 0 <= i < marked ==> files[i] == File(entries[i].logs, entries[i].contexts)
  }

  lemma FilesIntact(archive: Archive, run: Run, marked: nat)
    requires MarkedUpTo(archive.entries, run.entries, marked) && marked <= |run.entries|
    requires |archive.files| == |archive.entries|
    ensures |archive.files| == |run.entries|
    ensures Intact(archive.files, run.entries, marked) <==>
      forall i :: 0 <= i < |archive.entries| && archive.entries[i].applied ==> archive.Intact(i)
  {
    if Intact(archive.files, run.entries, marked) {
    } else {
      var i :| 0 <= i < marked && archive.files[i] != File(run.entries[i].logs, run.entries[i].contexts);
      assert archive.entries[i].applied && !archive.Intact(i);
    }
  }

  lemma StartIds(run: Run, entries: seq<Entry>, marked: nat, used: set<int>, removed: set<string>, erased: set<string>)
    requires Tracks(run, used, removed, erased) && MarkedUpTo(entries, run.entries, marked)
    requires Keyed(run.start.logs)
    ensures forall i :: 0 <= i < |entries| ==> Keyed(entries[i].logs) && entries[i].logs.Keys <= used
    ensures run.done <= |run.entries| == |entries|
  {
    forall i | 0 <= i < |entries| ensures Keyed(entries[i].logs) && entries[i].logs.Keys <= used {
      assert entries[i].logs == Range(run.start.logs, run.entries[i].day, run.maxId);
    }
  }

  lemma {:induction false} RestoredIs(run: Run, entries: seq<Entry>, marked: nat, at: seq<Tables>, grown: Tables,
      used: set<int>, seen: seq<Rollup>, after: Tables)
    requires Tracks(run, used, {}, {}) && MarkedUpTo(entries, run.entries, marked)
    requires marked <= run.done <= marked + 1 && |at| == |entries| && Meanwhile(run.now, at, grown, used)
    requires forall i :: 0 <= i < |run.start.daily| ==> run.start.daily[i].archive != run.archive
    ensures Then(run, grown).Kept() && run.done <= |run.entries|
    ensures after.logs == BackLogs(grown.logs, entries, |entries|)
      && after.contexts == BackContexts(grown.contexts, entries, |entries|) && after.daily == Without(seen, run.archive)
      ==> GivenBack(Then(run, grown), marked, after, seen)
  {
    hide Run.Kept, Arrivals, LoadsAt, BackLogs, BackContexts, MarkedUpTo, Survives;
    KeptThen(run, grown, used);
    EntriesMarked(run, entries, marked);
    RestoredTables(Then(run, grown), entries, marked);
    RollupsDropped(Then(run, grown));
  }

  /**
   * Apply, then whatever others do, then restore. The restore commits exactly when the files are intact, no live row
   * lies in a marked day's range, the accounts of its rows are there and the rollup count stood still; otherwise it
   * changes nothing. While no account is removed it gives back every row that ever existed and the rollups of before
   * the export; in any case the rows that `Returns` names. `parted` is the run as the restore begins and `run` as it
   * ends; `at` is what others had committed when each day was checked.
   */
  method ApplyThenRestore(db: Database, id: string, days: int, now: int)
    returns (archive: Archive, applied: ApplyOutcome, restored: RestoreOutcome, ghost parted: Run, ghost run: Run,
      ghost marked: nat, ghost removed: set<string>, ghost at: seq<Tables>, ghost seen: seq<Rollup>,
      ghost read: seq<File>)
    requires db.Valid() && forall i :: 0 <= i < |db.daily| ==> db.daily[i].archive != id
    modifies db
    ensures db.Valid() && run.start == parted.start == old(db.State()) && run.archive == id
    ensures run.done <= |run.entries| == |at| && marked <= run.done <= marked + 1
    ensures |archive.files| == |run.entries|
    ensures !restored.Restored? ==> MarkedUpTo(archive.entries, run.entries, marked)
    ensures |read| == |run.entries| && (applied.FilesCorrupt? <==> !AsExported(read, run.entries))
    ensures run.done > 0 ==> AsExported(read, run.entries)
    ensures !applied.Crashed? ==> marked == run.done
    ensures run == Then(parted, run.now) && forall i :: 0 <= i < |at| ==>
      Grows(parted.now, at[i]) && Grows(at[i], run.now)
    ensures !restored.Committed() ==> db.State() == run.now.(daily := seen)
    ensures removed == {} ==> run.Kept()
    ensures removed == {} && restored.Committed() ==> GivenBack(run, marked, db.State(), seen)
    ensures restored.Committed() <==>
      && Intact(archive.files, run.entries, marked) && Undisputed(run.entries, marked, at, run.maxId)
      && CountOf(seen, id) == CountOf(parted.now.daily, id)
    ensures restored.Committed() ==>
      forall row :: row in run.start.logs && Returns(run, marked, removed, row) ==>
        row in db.logs && db.logs[row] == run.start.logs[row]
  {
    hide Run.Kept, Tracks, Survives, MarkedUpTo, Keyed, Arrivals, LoadsAt, BackLogs, BackContexts;
    ghost var erased: set<string>;
    assert Keyed(db.logs);
    archive, applied, parted, marked, removed, erased := Apply(db, id, days, now);
    read := archive.files;
    parted := Arrived(db, parted, removed, erased);
    parted, removed, erased := Removals(db, parted, removed, erased);
    archive.Rot();
    ghost var entries, used := archive.entries, db.used;
    StartIds(parted, entries, marked, used, removed, erased);
    FilesIntact(archive, parted, marked);
    ghost var grown: Tables;
    restored, at, grown, seen := Restore(db, archive);
    run := Then(parted, grown);
    LoadsWhen(parted, entries, marked, removed, erased, at, grown, used);
    OnlyGrew(parted.now, at, grown, used);
    TracksArrives(parted, grown, used, db.used, removed, erased);
    if removed == {} {
      NoneErased(parted, used, removed, erased);
      RestoredIs(parted, entries, marked, at, grown, used, seen, db.State());
    }
    if restored.Committed() {
      AllBack(run, entries, marked, db.used, removed, erased);
    }
  }

  lemma OnlyGrew(start: Tables, at: seq<Tables>, end: Tables, used: set<int>)
    requires Meanwhile(start, at, end, used)
    ensures forall i :: 0 <= i < |at| ==> Grows(start, at[i]) && Grows(at[i], end)
  {
  }

  lemma NoneErased(run: Run, used: set<int>, removed: set<string>, erased: set<string>)
    requires Tracks(run, used, removed, erased) && removed == {}
    ensures Tracks(run, used, {}, {})
  {
    forall id | id in run.start.logs ensures Fate(run, {}, {}, id) {
      assert Fate(run, removed, erased, id);
    }
  }

  lemma AllBack(run: Run, entries: seq<Entry>, marked: nat, used: set<int>, removed: set<string>, erased: set<string>)
    requires Tracks(run, used, removed, erased) && MarkedUpTo(entries, run.entries, marked) && marked <= run.done
    ensures run.done <= |run.entries|
    ensures forall row :: row in run.start.logs && Returns(run, marked, removed, row) ==>
      row in BackLogs(run.now.logs, entries, |entries|)
      && BackLogs(run.now.logs, entries, |entries|)[row] == run.start.logs[row]
  {
    forall row | row in run.start.logs && Returns(run, marked, removed, row)
      ensures row in BackLogs(run.now.logs, entries, |entries|)
        && BackLogs(run.now.logs, entries, |entries|)[row] == run.start.logs[row]
    {
      SurvivorsBack(run, entries, marked, removed, erased, row);
    }
  }
}
