/** Inputs on which retention changes totals or cannot restore: one day, one archived request, one late row. */
module RetentionCases {
  import opened Options
  import opened RetentionPolicy
  import opened RetentionApply
  import opened RetentionTotals
  import opened RetentionRun
  import opened RetentionRestore
  import opened RetentionRoundTrip
  import opened RetentionRemoval

  const UNMEASURED := Measures(None, None, None, None, None, None, None, None)

  /** Copies of one request at midnight of day zero, under different ids. */
  function Copy(id: int): Row {
    Row(id, 0, Some("account"), Some("request"), "message", false, Dims(None, "provider", "model", None, "success"),
      UNMEASURED, "")
  }

  /** Another request of the same day. */
  function Stray(id: int): Row { Copy(id).(request := Some("stray")) }

  function Only(r: Row): Tables { Tables(map[r.id := r], map[], [], {"account"}) }

  function Day(r: Row): Entry { Entry(0, map[r.id := r], map[], false) }

  /** The rollup of a day that holds only this row. */
  ghost function Rolled(r: Row): seq<Rollup> {
    [Rollup("archive", KeyOf(map[r.id := r], r), TotalOf(map[r.id := r], {r.id}, KeyOf(map[r.id := r], r)))]
  }

  lemma DayOf(r: Row, logs: Logs, contexts: Contexts, maxId: int)
    requires r.at == 0 && r.id in logs && logs[r.id] == r && contexts == map[] && r.id <= maxId
    requires forall id :: id in logs && id != r.id ==> id > maxId
    requires Keyed(logs)
    ensures Range(logs, 0, maxId) == map[r.id := r] && RangeContexts(logs, contexts, 0, maxId) == map[]
  {
    var range := Range(logs, 0, maxId);
    forall id ensures id in range <==> id == r.id {
      assert id in logs ==> logs[id].id == id;
    }
    assert range[r.id] == r;
  }

  lemma RolledUp(r: Row)
    ensures RollsUp(Rolled(r), map[r.id := r], {r.id}, "archive")
  {
    var logs := map[r.id := r];
    assert KeyOf(logs, logs[r.id]) == Rolled(r)[0].key;
    assert Occurs(Rolled(r)[0].key, logs, {r.id});
  }

  function Both(): Logs { map[1 := Copy(1), 2 := Copy(2)] }

  function LateFull(): Tables { Tables(Both(), map[], [], {"account"}) }

  ghost function LateAfter(): Tables { Tables(map[2 := Copy(2)], map[], Rolled(Copy(1)), {"account"}) }

  lemma LateGrows()
    ensures Grows(Only(Copy(1)), Only(Copy(1))) && Grows(Only(Copy(1)), LateFull())
  {
    assert Copy(1).id == 1;
    hide Copy;
  }

  lemma LateAfterIs()
    ensures LateAfter() == Tables(LateFull().logs - {1}, LateFull().contexts - {1},
      LateFull().daily + Rolled(Copy(1)), {"account"})
  {
    hide Copy, Rolled;
    assert Both() - {1} == map[2 := Copy(2)];
    var none: Contexts := map[];
    assert none - {1} == none;
  }

  lemma LateParts()
    ensures LateFull().logs == Both() && LateFull().contexts == map[] && Only(Copy(1)).logs == map[1 := Copy(1)]
    ensures Keyed(Both()) && 1 in Both() && Both()[1] == Copy(1) && Copy(1).at == 0 && Copy(1).id == 1
    ensures forall id :: id in Both() && id != 1 ==> id > 1
    ensures Day(Copy(1)) == Entry(0, map[1 := Copy(1)], map[], false) && Day(Copy(1)).logs.Keys == {1}
  {
  }

  lemma LateDeleted()
    ensures DayDeleted(Day(Copy(1)), 1, "archive", Only(Copy(1)), Only(Copy(1)), LateFull(), LateAfter(),
      Rolled(Copy(1)))
  {
    LateParts();
    LateGrows();
    LateAfterIs();
    DayOf(Copy(1), Both(), map[], 1);
    RolledUp(Copy(1));
    hide RollsUp, Range, RangeContexts, Rolled, Grows, Both, LateFull, LateAfter, Copy, Only, Day;
  }

  /** The copy that arrives supersedes the first one, which nothing superseded before. */
  lemma CopySupersedes()
    ensures Superseded(Both(), Copy(1)) && !Superseded(map[1 := Copy(1)], Copy(1))
  {
    assert Replaces(Both()[2], Copy(1));
  }

  /** A copy of the day's request commits between the rollup and the delete: the request is counted twice. */
  lemma ReplacedBeforeDelete() returns (e: Entry, before: Tables, full: Tables, after: Tables, rolls: seq<Rollup>)
    ensures DayDeleted(e, 1, "archive", before, before, full, after, rolls) && Keyed(full.logs)
    ensures exists k :: Report(after.logs, after.daily, k) != Report(full.logs, full.daily, k)
  {
    e, before, rolls := Day(Copy(1)), Only(Copy(1)), Rolled(Copy(1));
    full, after := LateFull(), LateAfter();
    LateDeleted();
    CopySupersedes();
    assert Keyed(full.logs) && 1 in e.logs && e.logs[1] == Copy(1) && full.logs == Both()
      && before.logs == map[1 := Copy(1)];
    hide *;
    DayConserves(e, 1, "archive", before, before, full, after, rolls);
  }

  /** A run that archived one row and deleted its day, with nothing else in the table. */
  lemma OneDayRun(id: int) returns (run: Run)
    requires id > 0
    ensures run.Kept() && run.Clean() && run.done == 1 && run.entries == [Day(Copy(id))] && run.maxId == id
      && run.archive == "archive"
    ensures run.start == run.full == Only(Copy(id)) && run.now == Tables(map[], map[], Rolled(Copy(id)), {"account"})
  {
    var start := Only(Copy(id));
    var begun := Run(start, start, start, [Day(Copy(id))], 0, "archive", DAY, id);
    var after := Tables(map[], map[], Rolled(Copy(id)), {"account"});
    OneDayExported(id);
    OneDayDeleted(id);
    OneDayParts(id);
    hide Exported, DayDeleted, Rolled, Copy, Only, Day, Run.Kept, Grows;
    KeptStarts(begun);
    KeptDeletes(begun, start, start, after, Rolled(Copy(id)));
    assert Joined(start, start) == start;
    run := begun.(full := Joined(start, start), now := after, done := 1);
  }

  lemma OneDayParts(id: int)
    ensures var start := Only(Copy(id));
      && Keyed(start.logs) && start.contexts == map[] && Grows(start, start) && start.logs == map[id := Copy(id)]
      && Joined(start, start) == start
  {
  }

  lemma OneDayExported(id: int)
    requires id > 0
    ensures Exported([Day(Copy(id))], Only(Copy(id)).logs, Only(Copy(id)).contexts, DAY, id)
  {
    var start := Only(Copy(id));
    DayOf(Copy(id), start.logs, start.contexts, id);
    var entries := [Day(Copy(id))];
    assert entries[0].day == DayStart(Copy(id).at);
    assert id in entries[0].logs && entries[0].logs != map[];
    hide Range, RangeContexts;
  }

  lemma OneDayDeleted(id: int)
    requires id > 0
    ensures DayDeleted(Day(Copy(id)), id, "archive", Only(Copy(id)), Only(Copy(id)), Only(Copy(id)),
      Tables(map[], map[], Rolled(Copy(id)), {"account"}), Rolled(Copy(id)))
  {
    var start := Only(Copy(id));
    DayOf(Copy(id), start.logs, start.contexts, id);
    RolledUp(Copy(id));
    assert Day(Copy(id)).logs.Keys == {id};
    assert start.logs - {id} == map[] && start.contexts - {id} == map[];
    hide Range, RangeContexts, RollsUp, Rolled;
  }

  lemma CopyArrives(run: Run)
    requires run.Kept() && run.done == 1 && run.entries == [Day(Copy(1))] && run.full == Only(Copy(1))
      && run.now.logs == map[]
    requires run.now.contexts == map[]
    ensures var grown := run.now.(logs := map[2 := Copy(2)]);
      && Grows(run.now, grown) && Keyed(grown.logs) && NewIds(run, grown) && Joined(run.full, grown).logs == Both()
    ensures Archived(run.entries, run.done) == {1}
  {
    hide Run.Kept;
    ArchivedNext(run.entries, 0);
    assert Day(Copy(1)).logs.Keys == {1};
  }

  /** A copy of an archived request arrives later: again the request is counted twice. */
  lemma ReplacedAfterDelete() returns (run: Run, grown: Tables)
    ensures run.Kept() && run.Clean() && Grows(run.now, grown) && Keyed(grown.logs) && NewIds(run, grown)
    ensures exists k :: Report(grown.logs, grown.daily, k) != Report(Joined(run.full, grown).logs, run.start.daily, k)
  {
    hide Run.Kept, Run.Clean, Report, Superseded, Rolled, Grows, Joined, NewIds, Archived;
    run := OneDayRun(1);
    grown := run.now.(logs := map[2 := Copy(2)]);
    CopyArrives(run);
    CopySupersedes();
    assert 1 in Archived(run.entries, run.done) && Both()[1] == Copy(1) && run.full.logs[1] == Copy(1);
    ArrivalConserves(run, grown);
  }

  /** A row with an older id and a time in the archived day arrives after the delete: the day cannot be loaded back. */
  lemma StrayBlocksRestore() returns (run: Run, entries: seq<Entry>)
    ensures run.Kept() && MarkedUpTo(entries, run.entries, run.done) && run.done == |entries| == 1
    ensures !Loads(run.now.logs, run.now.contexts, entries, |entries|, run.maxId)
  {
    var before := OneDayRun(3);
    var grown := before.now.(logs := map[2 := Stray(2)]);
    KeptArrives(before, grown);
    run := before.(full := Joined(before.full, grown), now := grown);
    entries := [run.entries[0].(applied := true)];
    assert 2 in run.full.logs && 2 !in run.start.logs && InRange(run.full.logs[2], run.entries[0].day, run.maxId);
    EntryLoads(run, entries, 0);
  }

  /** The process dies after the day's delete and before its mark: the restore changes a reported total. */
  lemma CrashBeforeMark() returns (run: Run, entries: seq<Entry>)
    ensures run.Kept() && run.Clean() && run.done == 1 && MarkedUpTo(entries, run.entries, 0)
    ensures Loads(run.now.logs, run.now.contexts, entries, |entries|, run.maxId)
    ensures exists k :: Report(BackLogs(run.now.logs, entries, |entries|), Without(run.now.daily, run.archive), k)
                     != Report(run.now.logs, run.now.daily, k)
  {
    hide Report, Run.Kept, Run.Clean, Rolled, BackLogs, Without, Loadable;
    run := OneDayRun(1);
    entries := run.entries;
    RestoreKeepsTotals(run, entries, 0);
  }

  /** An account is removed after its day was archived: the day's range is free, and still the day cannot be loaded,
      because its rows name an account that is gone. */
  lemma RemovalBlocksRestore() returns (run: Run, entries: seq<Entry>)
    ensures Survives(run, {"account"}, {"account"}) && MarkedUpTo(entries, run.entries, run.done)
    ensures Loads(run.now.logs, run.now.contexts, entries, |entries|, run.maxId)
    ensures |entries| == 1 && !LoadsAt([run.now], entries, 1, run.maxId)
  {
    var before := OneDayRun(1);
    entries := [before.entries[0].(applied := true)];
    run := before.(now := Tables(map[], map[], [], {}));
    hide *;
    KeptSurvives(before);
    RolledErased(Copy(1));
    SurvivesRemoval(before, {}, {}, run.now, "account", true);
    OneLoads(before, entries);
    NobodyKnown(run.now, entries, run.maxId);
  }

  lemma NobodyKnown(tables: Tables, entries: seq<Entry>, maxId: int)
    requires tables.accounts == {} && entries == [Day(Copy(1)).(applied := true)]
    ensures !LoadsAt([tables], entries, 1, maxId) && Copy(1).account == Some("account")
  {
    var e := entries[0];
    assert 1 in e.logs && e.logs[1].account == Some("account");
    assert !Fits(tables, entries, 0, maxId);
    assert !LoadsOne([tables], entries, 0, maxId);
  }

  lemma RolledErased(r: Row)
    requires r.account == Some("account")
    ensures Erases(Tables(map[], map[], Rolled(r), {"account"}), Tables(map[], map[], [], {}), "account", true)
  {
    var rolled := Rolled(r);
    assert |rolled| == 1 && rolled[0].key.account == Some("account") && rolled[1..] == [];
    assert Forgotten(rolled[1..], "account", true) == [];
    assert Forgotten(rolled, "account", true) == Forgotten(rolled[1..], "account", true);
  }

  lemma OneLoads(run: Run, entries: seq<Entry>)
    requires run.Kept() && run.done == 1 && run.entries == [Day(Copy(1))] && run.full.logs == run.start.logs
    requires entries == [run.entries[0].(applied := true)]
    ensures MarkedUpTo(entries, run.entries, 1)
    ensures Loads(run.now.logs, run.now.contexts, entries, |entries|, run.maxId)
  {
    hide Run.Kept, Loadable, BackLogs, BackContexts, Copy, Day;
    EntryLoads(run, entries, 0);
  }
}
