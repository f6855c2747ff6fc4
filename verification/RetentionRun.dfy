/** The apply loop over a busy database (app/retention_apply.py:120-144). */
module RetentionRun {
  import opened RetentionPolicy
  import opened RetentionApply
  import opened RetentionTotals
  import opened RetentionRemoval

  /** The manifest after the first `marked` days were marked applied. */
  ghost predicate MarkedUpTo(entries: seq<Entry>, exported: seq<Entry>, marked: nat) {
    |entries| == |exported| && forall i :: 0 <= i < |entries| ==> entries[i] == exported[i].(applied := i < marked)
  }

  function RowsIn(entries: seq<Entry>, n: nat): int
    requires n <= |entries|
  {
    if n == 0 then 0 else RowsIn(entries, n - 1) + |entries[n - 1].logs|
  }

  function PartsIn(entries: seq<Entry>, n: nat): int
    requires n <= |entries|
  {
    if n == 0 then 0 else PartsIn(entries, n - 1) + |entries[n - 1].contexts|
  }

  /** Every file holds exactly its day's rows and parts. */
  ghost predicate AsExported(files: seq<File>, entries: seq<Entry>)
    requires |files| == |entries|
  {
    forall i :: 0 <= i < |entries| ==> files[i] == File(entries[i].logs, entries[i].contexts)
  }

  lemma FilesVerified(archive: Archive)
    requires |archive.files| == |archive.entries|
    ensures AsExported(archive.files, archive.entries) <==>
      forall i :: 0 <= i < |archive.entries| ==> archive.Intact(i)
  {
    if AsExported(archive.files, archive.entries) {
    } else {
      var i :| 0 <= i < |archive.entries|
        && archive.files[i] != File(archive.entries[i].logs, archive.entries[i].contexts);
      assert !archive.Intact(i);
    }
  }

  /** Where a run stands: what survives any removals, and all that is kept while no account was removed. */
  ghost predicate Tracks(run: Run, used: set<int>, removed: set<string>, erased: set<string>) {
    && Survives(run, removed, erased)
    && run.start.contexts.Keys <= run.start.logs.Keys <= used
    && (removed == {} ==> run.Kept() && run.full.contexts.Keys <= run.full.logs.Keys <= used)
  }

  /** Export, verify, then delete and mark day by day. Nothing is deleted unless every file was read back whole. Other
      sessions commit throughout, accounts are removed, and the process may stop anywhere; whatever the outcome, the run
      is kept, and at most the last deleted day is unmarked. */
  method Apply(db: Database, id: string, days: int, now: int)
    returns (archive: Archive, outcome: ApplyOutcome, ghost run: Run, ghost marked: nat, ghost removed: set<string>,
      ghost erased: set<string>)
    requires db.Valid()
    modifies db
    ensures db.Valid() && fresh(archive) && old(db.used) <= db.used && |archive.files| == |archive.entries|
    ensures archive.id == id == run.archive && archive.cutoff == CutoffFor(days, now) == run.cutoff
      && archive.maxId == run.maxId
    ensures run.start == old(db.State()) && Tracks(run, db.used, removed, erased) && run.now == db.State()
    ensures MarkedUpTo(archive.entries, run.entries, marked) && marked <= run.done <= marked + 1
    ensures !outcome.Crashed? ==> marked == run.done
    ensures archive.maxId == 0 || (archive.maxId in old(db.logs) && old(db.logs)[archive.maxId].at < archive.cutoff)
    ensures |archive.files| == |run.entries| && (outcome.FilesCorrupt? <==> !AsExported(archive.files, run.entries))
    ensures outcome.FilesCorrupt? ==> run.done == 0 && db.State() == old(db.State())
    ensures outcome.DayChanged? ==> run.done < |run.entries| && outcome.day == run.entries[run.done].day
    ensures outcome.DayChanged? ==> Differs(db.State(), run.entries[run.done], run.maxId)
    ensures outcome.Finished? ==> run.done == |run.entries|
    ensures outcome.Finished? ==>
      outcome.rows == RowsIn(run.entries, run.done) && outcome.parts == PartsIn(run.entries, run.done)
    ensures outcome.Finished? && removed == {} ==> outcome.rollups == |db.daily| - |old(db.daily)|
  {
    archive := Export(db, id, days, now);
    run := Run(db.State(), db.State(), db.State(), archive.entries, 0, id, archive.cutoff, archive.maxId);
    KeptStarts(run);
    SurvivesStarts(run);
    archive.Rot();
    var ok := archive.Verify();
    FilesVerified(archive);
    if !ok {
      return archive, FilesCorrupt, run, 0, {}, {};
    }
    outcome, run, marked, removed, erased := DeleteDays(db, archive, run);
  }

  method DeleteDays(db: Database, archive: Archive, ghost before: Run)
    returns (outcome: ApplyOutcome, ghost run: Run, ghost marked: nat, ghost removed: set<string>,
      ghost erased: set<string>)
    requires db.Valid() && Tracks(before, db.used, {}, {}) && before.now == db.State()
    requires before.done == 0 && before.archive == archive.id && before.maxId == archive.maxId
    requires before.entries == archive.entries && MarkedUpTo(archive.entries, archive.entries, 0)
    modifies db, archive`entries
    ensures db.Valid() && Tracks(run, db.used, removed, erased) && run.now == db.State() && old(db.used) <= db.used
    ensures run == before.(full := run.full, now := run.now, done := run.done)
    ensures MarkedUpTo(archive.entries, run.entries, marked) && marked <= run.done <= marked + 1
    ensures !outcome.Crashed? ==> marked == run.done
    ensures !outcome.FilesCorrupt?
    ensures outcome.DayChanged? ==> run.done < |run.entries| && outcome.day == run.entries[run.done].day
    ensures outcome.DayChanged? ==> Differs(db.State(), run.entries[run.done], run.maxId)
    ensures outcome.Finished? ==> run.done == |run.entries|
    ensures outcome.Finished? ==>
      outcome.rows == RowsIn(run.entries, run.done) && outcome.parts == PartsIn(run.entries, run.done)
    ensures outcome.Finished? && removed == {} ==> outcome.rollups == |db.daily| - |old(db.daily)|
  {
    hide Tracks, MarkedUpTo, Keyed, Differs;
    var exported := archive.entries;
    run, marked, removed, erased := before, 0, {}, {};
    var rows, parts, rollups := 0, 0, 0;
    for i := 0 to |exported|
      invariant db.Valid() && Tracks(run, db.used, removed, erased) && run.now == db.State() && old(db.used) <= db.used
      invariant run == before.(full := run.full, now := run.now, done := i)
      invariant marked == i && MarkedUpTo(archive.entries, exported, i)
      invariant rows == RowsIn(exported, i) && parts == PartsIn(exported, i)
      invariant removed == {} ==> rollups == |db.daily| - |old(db.daily)|
    {
      if * {
        return Crashed, run, marked, removed, erased;
      }
      var deletion: Deletion;
      deletion, run, removed, erased := NextDay(db, archive.id, archive.maxId, exported, i, run, removed, erased);
      if deletion.Changed? {
        return DayChanged(exported[i].day), run, marked, removed, erased;
      }
      rows, parts, rollups := rows + deletion.rows, parts + deletion.parts, rollups + deletion.rollups;
      if * {
        return Crashed, run, marked, removed, erased;
      }
      MarkNext(archive.entries, exported, i);
      archive.Mark(i);
      marked := marked + 1;
    }
    outcome := Finished(rows, parts, rollups);
  }

  lemma MarkNext(entries: seq<Entry>, exported: seq<Entry>, i: nat)
    requires MarkedUpTo(entries, exported, i) && i < |exported|
    ensures i < |entries| && MarkedUpTo(entries[i := entries[i].(applied := true)], exported, i + 1)
    ensures RowsIn(exported, i + 1) == RowsIn(exported, i) + |exported[i].logs|
    ensures PartsIn(exported, i + 1) == PartsIn(exported, i) + |exported[i].contexts|
  {
  }

  /** One turn of the loop: inserts and removals by others, then the day's transaction. */
  method NextDay(db: Database, id: string, maxId: int, exported: seq<Entry>, i: nat, ghost before: Run,
    ghost absent: set<string>, ghost lost: set<string>)
    returns (deletion: Deletion, ghost run: Run, ghost removed: set<string>, ghost erased: set<string>)
    requires db.Valid() && i < |exported| && before.entries == exported && before.done == i
    requires before.archive == id && before.maxId == maxId
    requires Tracks(before, db.used, absent, lost) && before.now == db.State()
    modifies db
    ensures db.Valid() && Tracks(run, db.used, removed, erased) && run.now == db.State() && old(db.used) <= db.used
    ensures run == before.(full := run.full, now := run.now, done := if deletion.Deleted? then i + 1 else i)
    ensures absent <= removed && lost <= erased
    ensures deletion.Changed? ==> Differs(db.State(), exported[i], maxId)
    ensures deletion.Changed? && removed == {} ==> db.daily == old(db.daily)
    ensures deletion.Deleted? ==> deletion.rows == |exported[i].logs| && deletion.parts == |exported[i].contexts|
    ensures deletion.Deleted? && removed == {} ==> deletion.rollups == |db.daily| - |old(db.daily)|
  {
    hide Tracks, DayDeleted, Range, RangeContexts, Keyed, Differs;
    run := Arrived(db, before, absent, lost);
    run, removed, erased := Removals(db, run, absent, lost);
    ghost var used, mid, full: Tables, rolls := db.used, db.State(), db.State(), [];
    deletion, mid, full, rolls := DeleteDay(db, id, maxId, exported[i]);
    if deletion.Changed? {
      TracksArrives(run, full, used, db.used, removed, erased);
      run := Then(run, full);
    } else {
      DayDaily(exported[i], maxId, id, run.now, mid, full, db.State(), rolls);
      TracksDeletes(run, mid, full, db.State(), rolls, used, db.used, removed, erased);
      run := Then(run, full).(now := db.State(), done := i + 1);
    }
  }

  /** The run after more rows came. */
  ghost function Then(run: Run, grown: Tables): Run { run.(full := Joined(run.full, grown), now := grown) }

  method Arrived(db: Database, ghost before: Run, ghost removed: set<string>, ghost erased: set<string>)
    returns (ghost run: Run)
    requires db.Valid() && Tracks(before, db.used, removed, erased) && before.now == db.State()
    modifies db
    ensures db.Valid() && Tracks(run, db.used, removed, erased) && run.now == db.State() && old(db.used) <= db.used
    ensures run == before.(full := run.full, now := run.now) && db.daily == old(db.daily)
  {
    hide Tracks;
    ghost var used := db.used;
    db.Arrive();
    TracksArrives(before, db.State(), used, db.used, removed, erased);
    run := Then(before, db.State());
  }

  /** Any accounts are removed, with or without their history, and rows arrive in between. */
  method Removals(db: Database, ghost before: Run, ghost absent: set<string>, ghost lost: set<string>)
    returns (ghost run: Run, ghost removed: set<string>, ghost erased: set<string>)
    requires db.Valid() && Tracks(before, db.used, absent, lost) && before.now == db.State()
    modifies db
    ensures db.Valid() && Tracks(run, db.used, removed, erased) && run.now == db.State() && old(db.used) <= db.used
    ensures run == before.(full := run.full, now := run.now) && absent <= removed && lost <= erased
    ensures removed == {} ==> db.daily == old(db.daily)
  {
    hide Tracks;
    run, removed, erased := before, absent, lost;
    var accounts: seq<(string, bool)> := *;
    for i := 0 to |accounts|
      invariant db.Valid() && Tracks(run, db.used, removed, erased) && run.now == db.State() && old(db.used) <= db.used
      invariant run == before.(full := run.full, now := run.now) && absent <= removed && lost <= erased
      invariant i > 0 ==> removed != {}
      invariant i == 0 ==> db.daily == old(db.daily)
    {
      db.RemoveAccount(accounts[i].0, accounts[i].1);
      TracksRemoval(run, db.State(), db.used, removed, erased, accounts[i].0, accounts[i].1);
      removed := removed + {accounts[i].0};
      erased := if accounts[i].1 then erased + {accounts[i].0} else erased;
      run := Arrived(db, run.(now := db.State()), removed, erased);
    }
  }

  lemma TracksArrives(run: Run, grown: Tables, used: set<int>, later: set<int>, removed: set<string>,
      erased: set<string>)
    requires Tracks(run, used, removed, erased) && Arrivals(run.now, grown, used)
    requires used <= later && grown.logs.Keys <= later
    ensures Tracks(Then(run, grown), later, removed, erased)
  {
    hide Run.Kept, Survives, Grows;
    SurvivesArrives(run, removed, erased, grown, used);
    SurvivesAlike(run.(now := grown), Then(run, grown), removed, erased);
    if removed == {} {
      NewRows(run, grown, used);
      KeptArrives(run, grown);
    }
  }

  /** What survives does not look at the rows that ever existed. */
  lemma SurvivesAlike(run: Run, other: Run, removed: set<string>, erased: set<string>)
    requires Survives(run, removed, erased) && other == run.(full := other.full)
    ensures Survives(other, removed, erased)
  {
    forall id | id in other.start.logs ensures Fate(other, removed, erased, id) {
      assert Fate(run, removed, erased, id);
    }
    forall id | id in other.start.contexts ensures PartFate(other, id) {
      assert PartFate(run, id);
    }
  }

  lemma NewRows(run: Run, grown: Tables, used: set<int>)
    requires Arrivals(run.now, grown, used) && run.full.logs.Keys <= used
    ensures NewIds(run, grown) && Grows(run.now, grown)
  {
  }

  lemma TracksRemoval(run: Run, after: Tables, used: set<int>, removed: set<string>, erased: set<string>,
      account: string, history: bool)
    requires Tracks(run, used, removed, erased) && Erases(run.now, after, account, history)
    ensures Tracks(run.(now := after), used, removed + {account},
      if history then erased + {account} else erased)
  {
    hide Run.Kept, Survives, Erases;
    SurvivesRemoval(run, removed, erased, after, account, history);
  }

  lemma TracksDeletes(run: Run, mid: Tables, grown: Tables, after: Tables, rolls: seq<Rollup>, used: set<int>,
      later: set<int>, removed: set<string>, erased: set<string>)
    requires Tracks(run, used, removed, erased) && run.done < |run.entries|
    requires Arrivals(run.now, grown, used) && used <= later && grown.logs.Keys <= later
    requires DayDeleted(run.entries[run.done], run.maxId, run.archive, run.now, mid, grown, after, rolls)
    ensures Tracks(Then(run, grown).(now := after, done := run.done + 1), later, removed, erased)
  {
    hide Run.Kept, Survives, Grows, DayDeleted;
    var next := Then(run, grown).(now := after, done := run.done + 1);
    SurvivesDeletes(run, removed, erased, mid, grown, after, rolls, used);
    SurvivesAlike(run.(now := after, done := run.done + 1), next, removed, erased);
    if removed == {} {
      NewRows(run, grown, used);
      KeptDeletes(run, mid, grown, after, rolls);
    }
  }

  lemma DayDaily(e: Entry, maxId: int, archive: string, before: Tables, mid: Tables, full: Tables, after: Tables,
      rolls: seq<Rollup>)
    requires DayDeleted(e, maxId, archive, before, mid, full, after, rolls)
    ensures |after.daily| == |before.daily| + |rolls| && Grows(before, full)
  {
  }
}
