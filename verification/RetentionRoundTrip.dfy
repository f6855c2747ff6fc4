/** Restore undoes apply, and exactly when (app/retention_restore.py:22-70, app/retention_apply.py:125-128). */
module RetentionRoundTrip {
  import opened Picking
  import opened RetentionPolicy
  import opened RetentionApply
  import opened RetentionTotals
  import opened RetentionRun
  import opened RetentionRestore

  /** Archived rows of the deleted days that are not loaded back by the first `n` entries. */
  ghost function Missing(run: Run, marked: nat, n: nat): set<int>
    requires run.done <= |run.entries| && marked <= run.done && n <= |run.entries|
  {
    Archived(run.entries, run.done) - Archived(run.entries, if n < marked then n else marked)
  }

  lemma ArchivedApartFrom(run: Run, i: nat, n: nat)
    requires run.Kept() && i < |run.entries| && n <= i
    ensures Archived(run.entries, n) !! run.entries[i].logs.Keys
  {
    forall id | id in run.entries[i].logs ensures id !in Archived(run.entries, n) {
      ArchivedIn(run.entries, n, id);
      if j :| 0 <= j < n && id in run.entries[j].logs {
        ArchivedRow(run, j, id);
        ArchivedRow(run, i, id);
        DaysApart(run.entries, run.start.logs, run.start.contexts, run.cutoff, run.maxId, i, j, run.full.logs[id].at);
      }
    }
  }

  lemma {:induction false} ArchivedGrows(entries: seq<Entry>, m: nat, n: nat)
    requires m <= n <= |entries|
    ensures Archived(entries, m) <= Archived(entries, n)
    decreases n
  {
    if m < n {
      ArchivedGrows(entries, m, n - 1);
    }
  }

  /** A day's archived parts are the parts its rows have among all rows. */
  lemma DayContexts(run: Run, i: nat)
    requires run.Kept() && i < |run.entries|
    ensures run.entries[i].contexts.Keys <= run.entries[i].logs.Keys
    ensures run.entries[i].contexts == map id | id in run.full.contexts && id in run.entries[i].logs.Keys ::
      run.full.contexts[id]
  {
    var e := run.entries[i];
    forall id | id in e.contexts
        ensures id in e.logs && id in run.full.contexts && run.full.contexts[id] == e.contexts[id] {
      assert id in Range(run.start.logs, e.day, run.maxId);
    }
    forall id | id in run.full.contexts && id in e.logs ensures id in e.contexts {
      ArchivedRow(run, i, id);
      assert id in run.start.contexts;
    }
  }

  /** Loading the marked days puts exactly their rows back next to the live ones. */
  lemma {:induction false} BackAt(run: Run, entries: seq<Entry>, marked: nat, n: nat)
    requires run.Kept() && MarkedUpTo(entries, run.entries, marked) && marked <= run.done && n <= |entries|
    ensures BackLogs(run.now.logs, entries, n) == run.full.logs - Missing(run, marked, n)
    ensures BackContexts(run.now.contexts, entries, n) == run.full.contexts - Missing(run, marked, n)
  {
    hide *;
    if n == 0 {
      NoneBack(run, entries, marked);
    } else {
      BackAt(run, entries, marked, n - 1);
      EntryMarked(run, entries, marked, n - 1);
      BackUnfold(run.now.logs, run.now.contexts, entries, n);
      if n - 1 < marked {
        BackOne(run, marked, n - 1);
      } else {
        MissingSame(run, marked, n - 1);
      }
    }
  }

  lemma NoneBack(run: Run, entries: seq<Entry>, marked: nat)
    requires run.Kept() && marked <= run.done
    ensures BackLogs(run.now.logs, entries, 0) == run.full.logs - Missing(run, marked, 0)
    ensures BackContexts(run.now.contexts, entries, 0) == run.full.contexts - Missing(run, marked, 0)
  {
    assert Missing(run, marked, 0) == Archived(run.entries, run.done);
  }

  lemma EntryMarked(run: Run, entries: seq<Entry>, marked: nat, i: nat)
    requires MarkedUpTo(entries, run.entries, marked) && i < |entries|
    ensures |entries| == |run.entries| && entries[i] == run.entries[i].(applied := i < marked)
  {
  }

  lemma BackUnfold(logs: Logs, contexts: Contexts, entries: seq<Entry>, n: nat)
    requires 0 < n <= |entries|
    ensures BackLogs(logs, entries, n) ==
      BackLogs(logs, entries, n - 1) + (if entries[n - 1].applied then entries[n - 1].logs else map[])
    ensures BackContexts(contexts, entries, n)
         == BackContexts(contexts, entries, n - 1) + (if entries[n - 1].applied then entries[n - 1].contexts else map[])
  {
  }

  lemma MissingSame(run: Run, marked: nat, n: nat)
    requires run.Kept() && marked <= run.done && marked <= n < |run.entries|
    ensures Missing(run, marked, n + 1) == Missing(run, marked, n)
  {
  }

  lemma StepOut(all: set<int>, before: set<int>, keys: set<int>, after: set<int>)
    requires after == before + keys && after <= all && before !! keys
    ensures all - before == (all - after) + keys && (all - after) !! keys
  {
  }

  lemma MissingIs(run: Run, marked: nat, n: nat)
    requires run.Kept() && n <= marked <= run.done
    ensures Missing(run, marked, n) == Archived(run.entries, run.done) - Archived(run.entries, n)
    ensures Archived(run.entries, n) <= Archived(run.entries, run.done)
  {
    ArchivedGrows(run.entries, n, run.done);
  }

  lemma DoneWithin(run: Run)
    requires run.Kept()
    ensures run.done <= |run.entries|
  {
  }

  lemma ArchivedNext(entries: seq<Entry>, i: nat)
    requires i < |entries|
    ensures Archived(entries, i + 1) == Archived(entries, i) + entries[i].logs.Keys
  {
  }

  /** Entry `i` takes its own rows, and only those, out of the missing ones. */
  lemma MissingOne(run: Run, marked: nat, i: nat)
    requires run.Kept() && i < marked <= run.done
    ensures Missing(run, marked, i) == Missing(run, marked, i + 1) + run.entries[i].logs.Keys
    ensures Missing(run, marked, i + 1) !! run.entries[i].logs.Keys
  {
    hide *;
    DoneWithin(run);
    ArchivedApartFrom(run, i, i);
    ArchivedNext(run.entries, i);
    MissingIs(run, marked, i);
    MissingIs(run, marked, i + 1);
    StepOut(Archived(run.entries, run.done), Archived(run.entries, i), run.entries[i].logs.Keys,
      Archived(run.entries, i + 1));
  }

  lemma PutBack<V>(all: map<int, V>, missing: set<int>, left: set<int>, back: set<int>, part: map<int, V>)
    requires missing == left + back && left !! back && part.Keys <= back
    requires part == map id | id in all && id in back :: all[id]
    ensures (all - missing) + part == all - left
  {
  }

  lemma BackOne(run: Run, marked: nat, i: nat)
    requires run.Kept() && i < marked <= run.done
    ensures (run.full.logs - Missing(run, marked, i)) + run.entries[i].logs ==
      run.full.logs - Missing(run, marked, i + 1)
    ensures (run.full.contexts - Missing(run, marked, i)) + run.entries[i].contexts ==
      run.full.contexts - Missing(run, marked, i + 1)
    ensures run.entries[i].logs.Keys <= Missing(run, marked, i)
  {
    MissingOne(run, marked, i);
    DayContexts(run, i);
    DayRows(run, i);
    hide *;
    var keys := run.entries[i].logs.Keys;
    var missing, left := Missing(run, marked, i), Missing(run, marked, i + 1);
    PutBack(run.full.logs, missing, left, keys, run.entries[i].logs);
    PutBack(run.full.contexts, missing, left, keys, run.entries[i].contexts);
  }

  lemma DayRows(run: Run, i: nat)
    requires run.Kept() && i < |run.entries|
    ensures run.entries[i].logs == map id | id in run.full.logs && id in run.entries[i].logs.Keys :: run.full.logs[id]
  {
    forall id | id in run.entries[i].logs ensures id in run.full.logs && run.full.logs[id] == run.entries[i].logs[id] {
      ArchivedRow(run, i, id);
    }
  }

  /** Some arrival lies in the range of day `i`: it came late with an old id and an old time. */
  ghost predicate Intruded(run: Run, i: nat)
    requires i < |run.entries|
  {
    exists id ::
      id in run.full.logs && id !in run.start.logs && InRange(run.full.logs[id], run.entries[i].day, run.maxId)
  }

  /** A marked day loads exactly when no arrival lies in its range. */
  lemma DayLoads(run: Run, marked: nat, i: nat)
    requires run.Kept() && i < marked <= run.done
    ensures Loadable(run.full.logs - Missing(run, marked, i), run.full.contexts - Missing(run, marked, i),
      run.entries[i], run.maxId)
       <==> !Intruded(run, i)
  {
    var e := run.entries[i];
    var logs, contexts := run.full.logs - Missing(run, marked, i), run.full.contexts - Missing(run, marked, i);
    BackOne(run, marked, i);
    DayContexts(run, i);
    RangeOfDay(run, marked, i);
    if !Intruded(run, i) {
      var parts := RangeContexts(logs + e.logs, contexts + e.contexts, e.day, run.maxId);
      forall id | id in parts ensures id in e.contexts && parts[id] == e.contexts[id] {
        assert id in Range(logs + e.logs, e.day, run.maxId);
      }
      forall id | id in e.contexts ensures id in parts {
        assert id in Range(logs + e.logs, e.day, run.maxId);
      }
      assert parts == e.contexts;
    }
  }

  lemma RangeOfDay(run: Run, marked: nat, i: nat)
    requires run.Kept() && i < marked <= run.done
    ensures (Range(run.full.logs - Missing(run, marked, i + 1), run.entries[i].day, run.maxId) == run.entries[i].logs)
        <==> !Intruded(run, i)
  {
    var e := run.entries[i];
    var loaded := Range(run.full.logs - Missing(run, marked, i + 1), e.day, run.maxId);
    forall id | id in e.logs ensures id in loaded && loaded[id] == e.logs[id] {
      DayLoaded(run, marked, i, id);
    }
    if id :| id in run.full.logs && id !in run.start.logs && InRange(run.full.logs[id], e.day, run.maxId) {
      IntruderLoaded(run, marked, i, id);
    } else {
      forall id | id in loaded ensures id in e.logs {
        assert id in Range(run.start.logs, e.day, run.maxId) <==> id in e.logs;
      }
      assert loaded == e.logs;
    }
  }

  lemma DayLoaded(run: Run, marked: nat, i: nat, id: int)
    requires run.Kept() && i < marked <= run.done && id in run.entries[i].logs
    ensures var loaded := Range(run.full.logs - Missing(run, marked, i + 1), run.entries[i].day, run.maxId);
      id in loaded && loaded[id] == run.entries[i].logs[id]
  {
    ArchivedRow(run, i, id);
    MissingOne(run, marked, i);
  }

  lemma IntruderLoaded(run: Run, marked: nat, i: nat, id: int)
    requires run.Kept() && i < marked <= run.done
    requires id in run.full.logs && id !in run.start.logs && InRange(run.full.logs[id], run.entries[i].day, run.maxId)
    ensures id in Range(run.full.logs - Missing(run, marked, i + 1), run.entries[i].day, run.maxId)
      && id !in run.entries[i].logs
  {
    ArchivedIn(run.entries, run.done, id);
    if j :| 0 <= j < |run.entries| && id in run.entries[j].logs {
      ArchivedRow(run, j, id);
    }
  }

  lemma {:induction false} OnlyRollups(daily: seq<Rollup>, archive: string)
    ensures (forall i :: 0 <= i < |daily| ==> daily[i].archive == archive) ==> Without(daily, archive) == []
    ensures (forall i :: 0 <= i < |daily| ==> daily[i].archive != archive) ==> Without(daily, archive) == daily
    ensures forall i :: 0 <= i < |Without(daily, archive)| ==> Without(daily, archive)[i].archive != archive
  {
    if daily != [] {
      OnlyRollups(daily[1..], archive);
    }
  }

  lemma {:induction false} WithoutConcat(a: seq<Rollup>, b: seq<Rollup>, archive: string)
    ensures Without(a + b, archive) == Without(a, archive) + Without(b, archive)
  {
    if a == [] {
      assert a + b == b;
    } else {
      assert (a + b)[1..] == a[1..] + b;
      WithoutConcat(a[1..], b, archive);
    }
  }

  /** Dropping the archive's rollups gives back the rollup table of before the export. */
  lemma RollupsDropped(run: Run)
    requires run.Kept() && forall i :: 0 <= i < |run.start.daily| ==> run.start.daily[i].archive != run.archive
    ensures Without(run.now.daily, run.archive) == run.start.daily
  {
    var rolled := run.now.daily[|run.start.daily|..];
    assert run.now.daily == run.start.daily + rolled;
    WithoutConcat(run.start.daily, rolled, run.archive);
    OnlyRollups(run.start.daily, run.archive);
    OnlyRollups(rolled, run.archive);
  }

  /** When every deleted day is marked, a restore that loads gives every row that ever existed and the old rollups,
      and it loads exactly when no late arrival lies in a restored day's range. */
  lemma RestoreUndoesApply(run: Run, entries: seq<Entry>)
    requires run.Kept() && MarkedUpTo(entries, run.entries, run.done)
    requires forall i :: 0 <= i < |run.start.daily| ==> run.start.daily[i].archive != run.archive
    ensures BackLogs(run.now.logs, entries, |entries|) == run.full.logs
    ensures BackContexts(run.now.contexts, entries, |entries|) == run.full.contexts
    ensures Without(run.now.daily, run.archive) == run.start.daily
    ensures Loads(run.now.logs, run.now.contexts, entries, |entries|, run.maxId)
       <==> forall i :: 0 <= i < run.done ==> !Intruded(run, i)
  {
    hide *;
    Marks(run, entries);
    BackAt(run, entries, run.done, |entries|);
    NoneMissing(run);
    RollupsDropped(run);
    AllLoad(run, entries);
  }

  lemma Marks(run: Run, entries: seq<Entry>)
    requires run.Kept() && MarkedUpTo(entries, run.entries, run.done)
    ensures |entries| == |run.entries|
  {
  }

  lemma AllLoad(run: Run, entries: seq<Entry>)
    requires run.Kept() && MarkedUpTo(entries, run.entries, run.done)
    ensures Loads(run.now.logs, run.now.contexts, entries, |entries|, run.maxId) <==>
      forall i :: 0 <= i < run.done ==> !Intruded(run, i)
  {
    forall i | 0 <= i < run.done
      ensures Loadable(BackLogs(run.now.logs, entries, i), BackContexts(run.now.contexts, entries, i), entries[i],
        run.maxId)
         <==> !Intruded(run, i)
    {
      EntryLoads(run, entries, i);
    }
    hide Run.Clean, Run.RolledUp, Exported, Loadable, Intruded, BackLogs, BackContexts;
  }

  lemma NoneMissing(run: Run)
    requires run.Kept()
    ensures Missing(run, run.done, |run.entries|) == {}
    ensures forall full: Tables :: full.logs - Missing(run, run.done, |run.entries|) == full.logs
    ensures forall full: Tables :: full.contexts - Missing(run, run.done, |run.entries|) == full.contexts
  {
  }

  lemma EntryLoads(run: Run, entries: seq<Entry>, i: nat)
    requires run.Kept() && MarkedUpTo(entries, run.entries, run.done) && i < run.done
    ensures Loadable(BackLogs(run.now.logs, entries, i), BackContexts(run.now.contexts, entries, i), entries[i],
      run.maxId)
       <==> !Intruded(run, i)
  {
    MarkedLoads(run, entries, run.done, i);
  }

  lemma MarkedLoads(run: Run, entries: seq<Entry>, marked: nat, i: nat)
    requires run.Kept() && MarkedUpTo(entries, run.entries, marked) && i < marked <= run.done
    ensures Loadable(BackLogs(run.now.logs, entries, i), BackContexts(run.now.contexts, entries, i), entries[i],
      run.maxId)
       <==> !Intruded(run, i)
  {
    hide BackLogs, BackContexts, Missing, Intruded;
    BackAt(run, entries, marked, i);
    DayLoads(run, marked, i);
    assert entries[i] == run.entries[i].(applied := true);
  }

  /** What a restore that loaded leaves: every row that ever existed, without those of a deleted day not yet marked. */
  lemma RestoredTables(run: Run, entries: seq<Entry>, marked: nat)
    requires run.Kept() && MarkedUpTo(entries, run.entries, marked) && marked <= run.done <= marked + 1
    ensures var left := if marked < run.done then run.entries[marked].logs.Keys else {};
      && BackLogs(run.now.logs, entries, |entries|) == run.full.logs - left
      && BackContexts(run.now.contexts, entries, |entries|) == run.full.contexts - left
  {
    hide *;
    EntriesMarked(run, entries, marked);
    BackAt(run, entries, marked, |entries|);
    MissingAtEnd(run, marked);
  }

  lemma EntriesMarked(run: Run, entries: seq<Entry>, marked: nat)
    requires run.Kept() && MarkedUpTo(entries, run.entries, marked) && marked <= run.done
    ensures |entries| == |run.entries| && run.done <= |entries|
  {
  }

  lemma MissingAtEnd(run: Run, marked: nat)
    requires run.Kept() && marked <= run.done <= marked + 1
    ensures Missing(run, marked, |run.entries|) == if marked < run.done then run.entries[marked].logs.Keys else {}
  {
    if marked < run.done {
      ArchivedNext(run.entries, marked);
      ArchivedApartFrom(run, marked, marked);
    }
  }

  /** Restoring after a crash between a day's delete and its mark drops that day's rollups but not load its rows. */
  lemma UnmarkedDayLost(run: Run, entries: seq<Entry>)
    requires run.Kept() && run.Clean() && run.done > 0 && MarkedUpTo(entries, run.entries, run.done - 1)
    ensures var e := run.entries[run.done - 1];
      && BackLogs(run.now.logs, entries, |entries|) == run.full.logs - e.logs.Keys
      && e.logs.Keys <= run.full.logs.Keys
      && forall k ::
           Plus(Report(run.full.logs - e.logs.Keys, run.start.daily, k), TotalOf(run.full.logs, e.logs.Keys, k))
                  == Report(run.full.logs, run.start.daily, k)
  {
    var e := run.entries[run.done - 1];
    BackAt(run, entries, run.done - 1, |entries|);
    ArchivedApartFrom(run, run.done - 1, run.done - 1);
    assert Missing(run, run.done - 1, |entries|) == e.logs.Keys;
    forall id | id in e.logs ensures id in run.full.logs {
      ArchivedRow(run, run.done - 1, id);
    }
    CleanRange(run, run.done - 1);
    forall k ensures Plus(Report(run.full.logs - e.logs.Keys, run.start.daily, k),
        TotalOf(run.full.logs, e.logs.Keys, k))
                  == Report(run.full.logs, run.start.daily, k)
    {
      LessDay(e, run.maxId, run.full, run.start.daily, k);
    }
  }

  lemma CleanRange(run: Run, i: nat)
    requires run.Kept() && run.Clean() && i < |run.entries|
    ensures Range(run.full.logs, run.entries[i].day, run.maxId) == run.entries[i].logs
  {
    var range := Range(run.full.logs, run.entries[i].day, run.maxId);
    forall id | id in run.entries[i].logs ensures id in range && range[id] == run.entries[i].logs[id] {
      ArchivedRow(run, i, id);
    }
    forall id | id in range ensures id in run.entries[i].logs {
      assert id in run.start.logs;
      assert id in Range(run.start.logs, run.entries[i].day, run.maxId);
    }
  }

  lemma LessDay(e: Entry, maxId: int, full: Tables, daily: seq<Rollup>, k: Key)
    requires Keyed(full.logs) && Range(full.logs, e.day, maxId) == e.logs && e.logs.Keys <= full.logs.Keys
    ensures Plus(Report(full.logs - e.logs.Keys, daily, k), TotalOf(full.logs, e.logs.Keys, k)) ==
      Report(full.logs, daily, k)
  {
    var live := full.logs.Keys - e.logs.Keys;
    assert full.logs.Keys == live + e.logs.Keys;
    assert (full.logs - e.logs.Keys).Keys == live;
    forall id | id in live
        ensures Superseded(full.logs, full.logs[id]) == Superseded(full.logs - e.logs.Keys, full.logs[id]) {
      OutsideUnaffected(e, maxId, full, id);
    }
    hide Superseded, Plus;
    TotalUnion(full.logs, live, e.logs.Keys, k);
    TotalSame(full.logs, full.logs - e.logs.Keys, live, k);
    Regroup(TotalOf(full.logs, live, k), TotalOf(full.logs, e.logs.Keys, k), RolledTotal(daily, k));
    PlusLaws(TotalOf(full.logs, live, k), RolledTotal(daily, k), TotalOf(full.logs, e.logs.Keys, k));
  }

  /** After a clean run, a restore keeps every reported total exactly when every deleted day was marked. */
  lemma RestoreKeepsTotals(run: Run, entries: seq<Entry>, marked: nat)
    requires run.Kept() && run.Clean() && MarkedUpTo(entries, run.entries, marked) && marked <= run.done <= marked + 1
    requires forall i :: 0 <= i < |run.start.daily| ==> run.start.daily[i].archive != run.archive
    ensures (forall k :: Report(BackLogs(run.now.logs, entries, |entries|), Without(run.now.daily, run.archive), k)
                      == Report(run.now.logs, run.now.daily, k))
       <==> marked == run.done
  {
    hide Plus, Report;
    RollupsDropped(run);
    forall k { KeptReports(run, k); }
    if marked == run.done {
      RestoreUndoesApply(run, entries);
    } else {
      UnmarkedDayLost(run, entries);
      var e := run.entries[run.done - 1];
      assert e.logs != map[] && e.logs.Keys != {};
      var id := Any(e.logs.Keys);
      var k := KeyOf(run.full.logs, run.full.logs[id]);
      OwnGroup(run.full.logs, e.logs.Keys, id);
      PlusRequests(Report(run.full.logs - e.logs.Keys, run.start.daily, k), TotalOf(run.full.logs, e.logs.Keys, k));
      assert Report(run.full.logs - e.logs.Keys, run.start.daily, k) != Report(run.full.logs, run.start.daily, k);
    }
  }

  lemma OwnGroup(logs: Logs, ids: set<int>, id: int)
    requires ids <= logs.Keys && id in ids
    ensures TotalOf(logs, ids, KeyOf(logs, logs[id])).requests > 0
  {
    hide Superseded;
    TotalPick(logs, ids, KeyOf(logs, logs[id]), id);
    RequestsNonnegative(logs, ids - {id}, KeyOf(logs, logs[id]));
  }

  lemma {:induction false} RequestsNonnegative(logs: Logs, ids: set<int>, k: Key)
    requires ids <= logs.Keys
    ensures TotalOf(logs, ids, k).requests >= 0
    decreases |ids|
  {
    hide KeyOf;
    if ids != {} {
      var id := Any(ids);
      TotalPick(logs, ids, k, id);
      RequestsNonnegative(logs, ids - {id}, k);
    }
  }

  /** A second restore changes nothing: no entry is applied any more and no rollup is left. */
  lemma {:induction false} SecondRestoreChangesNothing(logs: Logs, contexts: Contexts, entries: seq<Entry>, n: nat,
      daily: seq<Rollup>, archive: string, maxId: int)
    requires n <= |entries|
    ensures BackLogs(logs, Cleared(entries), n) == logs && BackContexts(contexts, Cleared(entries), n) == contexts
    ensures Loads(logs, contexts, Cleared(entries), n, maxId)
    ensures Without(Without(daily, archive), archive) == Without(daily, archive)
  {
    OnlyRollups(daily, archive);
    OnlyRollups(Without(daily, archive), archive);
    if n > 0 {
      SecondRestoreChangesNothing(logs, contexts, entries, n - 1, daily, archive, maxId);
    }
  }
}
