/** Loading an archive back (app/retention_restore.py:10-79). */
module RetentionRestore {
  import opened RetentionPolicy
  import opened RetentionApply
  import opened Options
  import opened Picking

  /** `Interrupted`: the process died after the transaction committed and before the manifest was written. */
  datatype RestoreOutcome =
    | Restored(rows: int, parts: int, rollups: int)
    | Interrupted
    | FileDamaged
    | LoadFailed(day: int)
    | RollupsChanged
  {
    predicate Committed() { Restored? || Interrupted? }
  }

  function Without(daily: seq<Rollup>, archive: string): seq<Rollup> {
    if daily == [] then []
    else (if daily[0].archive == archive then [] else [daily[0]]) + Without(daily[1..], archive)
  }

  function CountOf(daily: seq<Rollup>, archive: string): nat {
    if daily == [] then 0 else (if daily[0].archive == archive then 1 else 0) + CountOf(daily[1..], archive)
  }

  /** Dropping an archive's rollups keeps all others in order, and the count says how many go. */
  lemma {:induction false} CountIs(daily: seq<Rollup>, archive: string)
    ensures |daily| == CountOf(daily, archive) + |Without(daily, archive)|
    ensures (forall r :: r in daily && r.archive != archive ==> r in Without(daily, archive))
    ensures (forall r :: r in Without(daily, archive) ==> r in daily && r.archive != archive)
  {
    if daily != [] {
      assert daily == [daily[0]] + daily[1..];
      CountIs(daily[1..], archive);
    }
  }

  /**
   * The day's files load: no primary key is taken, the foreign key holds, and the range then holds exactly the archive.
   */
  ghost predicate Loadable(logs: Logs, contexts: Contexts, e: Entry, maxId: int) {
    && e.logs.Keys !! logs.Keys && e.contexts.Keys !! contexts.Keys
    && e.contexts.Keys <= logs.Keys + e.logs.Keys
    && Range(logs + e.logs, e.day, maxId) == e.logs
    && RangeContexts(logs + e.logs, contexts + e.contexts, e.day, maxId) == e.contexts
  }

  /** The tables with the applied days among the first `n` loaded. */
  ghost function BackLogs(logs: Logs, entries: seq<Entry>, n: nat): Logs
    requires n <= |entries|
  {
    if n == 0 then logs
    else if entries[n - 1].applied then BackLogs(logs, entries, n - 1) + entries[n - 1].logs
    else BackLogs(logs, entries, n - 1)
  }

  ghost function BackContexts(contexts: Contexts, entries: seq<Entry>, n: nat): Contexts
    requires n <= |entries|
  {
    if n == 0 then contexts
    else if entries[n - 1].applied then BackContexts(contexts, entries, n - 1) + entries[n - 1].contexts
    else BackContexts(contexts, entries, n - 1)
  }

  /** Rows and parts of the applied days among the first `n`. */
  function RowsBack(entries: seq<Entry>, n: nat): nat
    requires n <= |entries|
  {
    if n == 0 then 0 else RowsBack(entries, n - 1) + (if entries[n - 1].applied then |entries[n - 1].logs| else 0)
  }

  function PartsBack(entries: seq<Entry>, n: nat): nat
    requires n <= |entries|
  {
    if n == 0 then 0 else PartsBack(entries, n - 1) + (if entries[n - 1].applied then |entries[n - 1].contexts| else 0)
  }

  ghost predicate Loads(logs: Logs, contexts: Contexts, entries: seq<Entry>, n: nat, maxId: int) {
    n <= |entries| && forall i :: 0 <= i < n && entries[i].applied ==>
      Loadable(BackLogs(logs, entries, i), BackContexts(contexts, entries, i), entries[i], maxId)
  }

  /** Entry `i` loads into `tables`, next to what the entries before it loaded, and its accounts are known there. */
  ghost predicate Fits(tables: Tables, entries: seq<Entry>, i: nat, maxId: int)
    requires i < |entries|
  {
    && Loadable(BackLogs(tables.logs, entries, i), BackContexts(tables.contexts, entries, i), entries[i], maxId)
    && Known(entries[i].logs, tables.accounts)
  }

  ghost predicate LoadsOne(at: seq<Tables>, entries: seq<Entry>, i: nat, maxId: int)
    requires i < |entries| && i < |at|
  {
    entries[i].applied ==> Fits(at[i], entries, i, maxId)
  }

  ghost predicate LoadsAt(at: seq<Tables>, entries: seq<Entry>, n: nat, maxId: int)
    requires n <= |entries| && n <= |at|
  {
    forall i :: 0 <= i < n ==> LoadsOne(at, entries, i, maxId)
  }

  /** Some entry does not fit, and `day` is the day of the first such one. */
  ghost predicate FailsOn(at: seq<Tables>, entries: seq<Entry>, maxId: int, day: int)
    requires |at| == |entries|
  {
    exists i: nat :: i < |entries| && LoadsAt(at, entries, i, maxId) && !LoadsOne(at, entries, i, maxId)
      && entries[i].day == day
  }

  /** What other sessions committed by each moment `at`, on the way from `start` to `end`. */
  ghost predicate Meanwhile(start: Tables, at: seq<Tables>, end: Tables, used: set<int>) {
    && Arrivals(start, end, used)
    && forall i :: 0 <= i < |at| ==> Arrivals(start, at[i], used) && Arrivals(at[i], end, used)
  }

  /** While nothing arrives, every entry meets the same tables. */
  lemma {:induction false} LoadsQuietly(tables: Tables, at: seq<Tables>, entries: seq<Entry>, maxId: int)
    requires |at| == |entries| && forall i :: 0 <= i < |at| ==> at[i] == tables
    ensures LoadsAt(at, entries, |entries|, maxId) <==>
      && Loads(tables.logs, tables.contexts, entries, |entries|, maxId)
      && forall i :: 0 <= i < |entries| && entries[i].applied ==> Known(entries[i].logs, tables.accounts)
  {
    hide Loadable, Known, BackLogs, BackContexts;
    if LoadsAt(at, entries, |entries|, maxId) {
      forall i | 0 <= i < |entries| && entries[i].applied ensures Fits(tables, entries, i, maxId) {
        assert LoadsOne(at, entries, i, maxId);
      }
    }
  }

  function Cleared(entries: seq<Entry>): seq<Entry> {
    seq(|entries|, i requires 0 <= i < |entries| => entries[i].(applied := false))
  }

  /** Every mark is gone and nothing else changes. */
  lemma ClearedIs(entries: seq<Entry>)
    ensures |Cleared(entries)| == |entries|
    ensures forall i :: 0 <= i < |entries| ==>
      !Cleared(entries)[i].applied && Cleared(entries)[i].day == entries[i].day
      && Cleared(entries)[i].logs == entries[i].logs && Cleared(entries)[i].contexts == entries[i].contexts
  {
  }

  /** A restore transaction either changes no request table at all or loads every applied day and drops the
      archive's rollups, while other sessions commit rows: `at` is what they committed when each day was checked,
      `grown` what they had at the end, and `seen` the rollup table the final delete saw. */
  method Restore(db: Database, archive: Archive)
    returns (outcome: RestoreOutcome, ghost at: seq<Tables>, ghost grown: Tables, ghost seen: seq<Rollup>)
    requires db.Valid() && |archive.files| == |archive.entries|
    requires forall i :: 0 <= i < |archive.entries| ==>
      Keyed(archive.entries[i].logs) && archive.entries[i].logs.Keys <= db.used
    modifies db, archive`entries
    ensures db.Valid() && |at| == |old(archive.entries)| && Meanwhile(old(db.State()), at, grown, old(db.used))
    ensures old(db.used) <= db.used && grown.logs.Keys <= db.used
    ensures !outcome.Committed() ==> db.State() == grown.(daily := seen)
    ensures archive.entries == if outcome.Restored? then Cleared(old(archive.entries)) else old(archive.entries)
    ensures outcome.Committed() ==>
      && db.logs == BackLogs(grown.logs, old(archive.entries), |old(archive.entries)|)
      && db.contexts == BackContexts(grown.contexts, old(archive.entries), |old(archive.entries)|)
      && db.daily == Without(seen, archive.id)
    ensures outcome.Restored? ==>
      && outcome.rows == RowsBack(old(archive.entries), |old(archive.entries)|)
      && outcome.parts == PartsBack(old(archive.entries), |old(archive.entries)|)
      && outcome.rollups == CountOf(seen, archive.id)
    ensures outcome.FileDamaged? <==>
      exists i :: 0 <= i < |old(archive.entries)| && old(archive.entries[i]).applied && !old(archive.Intact(i))
    ensures outcome.LoadFailed? <==>
      !outcome.FileDamaged? && !LoadsAt(at, old(archive.entries), |old(archive.entries)|, archive.maxId)
    ensures outcome.LoadFailed? ==> FailsOn(at, old(archive.entries), archive.maxId, outcome.day)
    ensures outcome.Committed() <==>
      && (forall i :: 0 <= i < |old(archive.entries)| && old(archive.entries[i]).applied ==> old(archive.Intact(i)))
      && LoadsAt(at, old(archive.entries), |old(archive.entries)|, archive.maxId)
      && CountOf(seen, archive.id) == CountOf(old(db.daily), archive.id)
  {
    hide LoadsAt, BackLogs, BackContexts, RowsBack, PartsBack, Keyed, Grows, Cleared;
    ghost var start := db.State();
    at, grown, seen := seq(|archive.entries|, _ => start), start, db.daily;
    ArrivalsNone(start, db.used);
    var entries := archive.entries;
    for i := 0 to |entries|
      invariant forall j :: 0 <= j < i && entries[j].applied ==> archive.Intact(j)
    {
      if entries[i].applied && archive.files[i] != File(entries[i].logs, entries[i].contexts) {
        assert !archive.Intact(i);
        return FileDamaged, at, grown, seen;
      }
    }
    var counted := CountOf(db.daily, archive.id);
    var failed, logs, contexts, rows, parts;
    failed, logs, contexts, rows, parts, at, grown := LoadDays(db, archive.files, entries, archive.maxId);
    seen := db.daily;
    if failed.Some? {
      return LoadFailed(failed.value), at, grown, seen;
    }
    db.EditRollups();
    seen := db.daily;
    if CountOf(db.daily, archive.id) != counted {
      return RollupsChanged, at, grown, seen;
    }
    BackStaysValid(at, grown, entries, |entries|, archive.maxId, db.used, start, old(db.used));
    db.logs, db.contexts, db.daily := logs, contexts, Without(db.daily, archive.id);
    if * {
      return Interrupted, at, grown, seen;
    }
    archive.entries := Cleared(entries);
    outcome := Restored(rows, parts, counted);
  }

  lemma ArrivalsNone(tables: Tables, used: set<int>)
    requires Keyed(tables.logs) && Known(tables.logs, tables.accounts) && tables.contexts.Keys <= tables.logs.Keys
    ensures Arrivals(tables, tables, used)
  {
  }

  /** Inside the transaction, every applied day through its staging table, while other sessions commit rows to `db`.
      `backLogs` and `backContexts` are the tables as the transaction sees them at its end. */
  method LoadDays(db: Database, files: seq<File>, entries: seq<Entry>, maxId: int)
    returns (failed: Option<int>, backLogs: Logs, backContexts: Contexts, rows: int, parts: int, ghost at: seq<Tables>,
      ghost grown: Tables)
    requires db.Valid() && |files| == |entries|
    requires forall i :: 0 <= i < |entries| && entries[i].applied ==>
      files[i] == File(entries[i].logs, entries[i].contexts)
    modifies db
    ensures db.Valid() && old(db.used) <= db.used && db.State() == grown
    ensures |at| == |entries| && Meanwhile(old(db.State()), at, grown, old(db.used))
    ensures failed.None? <==> LoadsAt(at, entries, |entries|, maxId)
    ensures failed.Some? ==> FailsOn(at, entries, maxId, failed.value)
    ensures failed.None? ==> backLogs == BackLogs(grown.logs, entries, |entries|)
    ensures failed.None? ==> backContexts == BackContexts(grown.contexts, entries, |entries|)
    ensures failed.None? ==> rows == RowsBack(entries, |entries|) && parts == PartsBack(entries, |entries|)
  {
    ghost var start := db.State();
    assert Keyed(start.logs) && Known(start.logs, start.accounts) && start.contexts.Keys <= start.logs.Keys;
    hide *;
    var logs: Logs, contexts: Contexts := map[], map[];
    rows, parts, at := 0, 0, [];
    LoadsNone(start, old(db.used), entries, maxId);
    for i := 0 to |entries|
      invariant db.Valid() && old(db.used) <= db.used
      invariant LoadedUpTo(start, at, db.State(), old(db.used), entries, i, maxId, logs, contexts, rows, parts)
    {
      ghost var was, used := db.State(), db.used;
      db.Arrive();
      LoadsLater(start, at, was, db.State(), old(db.used), used, entries, i, maxId, logs, contexts, rows, parts);
      if entries[i].applied {
        InsertedSoFar(start, at, db.State(), old(db.used), entries, i, maxId, logs, contexts, rows, parts);
        var loaded, _, _ := LoadDay(db.logs + logs, db.contexts + contexts, db.accounts, files[i], entries[i], maxId);
        if !loaded {
          LoadFails(start, at, db.State(), old(db.used), entries, i, maxId, logs, contexts, rows, parts);
          grown := db.State();
          at := at + seq(|entries| - i, _ => grown);
          return Some(entries[i].day), logs, contexts, rows, parts, at, grown;
        }
        LoadsNext(start, at, db.State(), old(db.used), entries, i, maxId, logs, contexts, rows, parts);
        logs, contexts := logs + entries[i].logs, contexts + entries[i].contexts;
        rows, parts := rows + |entries[i].logs|, parts + |entries[i].contexts|;
      } else {
        LoadSkips(start, at, db.State(), old(db.used), entries, i, maxId, logs, contexts, rows, parts);
      }
      at := at + [db.State()];
    }
    ghost var was, used := db.State(), db.used;
    db.Arrive();
    LoadsLater(start, at, was, db.State(), old(db.used), used, entries, |entries|, maxId, logs, contexts, rows, parts);
    LoadsAll(start, at, db.State(), old(db.used), entries, maxId, logs, contexts, rows, parts);
    failed, backLogs, backContexts, grown := None, db.logs + logs, db.contexts + contexts, db.State();
  }

  /** The state of the load after the first `n` entries: `logs` and `contexts` are what the transaction inserted. */
  ghost predicate LoadedUpTo(start: Tables, at: seq<Tables>, now: Tables, used: set<int>, entries: seq<Entry>, n: nat,
      maxId: int, logs: Logs, contexts: Contexts, rows: int, parts: int)
  {
    && |at| == n <= |entries| && Meanwhile(start, at, now, used) && LoadsAt(at, entries, n, maxId)
    && logs == BackLogs(map[], entries, n) && contexts == BackContexts(map[], entries, n)
    && rows == RowsBack(entries, n) && parts == PartsBack(entries, n)
  }

  /** Loaded rows lie next to the others. */
  lemma {:induction false} BackIs(logs: Logs, contexts: Contexts, entries: seq<Entry>, n: nat)
    requires n <= |entries|
    ensures BackLogs(logs, entries, n) == logs + BackLogs(map[], entries, n)
    ensures BackContexts(contexts, entries, n) == contexts + BackContexts(map[], entries, n)
  {
    if n > 0 {
      BackIs(logs, contexts, entries, n - 1);
      PlusJoins(logs, BackLogs(map[], entries, n - 1), entries[n - 1].logs);
      PlusJoins(contexts, BackContexts(map[], entries, n - 1), entries[n - 1].contexts);
    }
  }

  lemma PlusJoins<V>(a: map<int, V>, b: map<int, V>, c: map<int, V>)
    ensures (a + b) + c == a + (b + c)
  {
  }

  /** What the transaction sees: its own rows next to those that others committed. */
  lemma {:induction false} InsertedSoFar(start: Tables, at: seq<Tables>, now: Tables, used: set<int>,
      entries: seq<Entry>, n: nat, maxId: int, logs: Logs, contexts: Contexts, rows: int, parts: int)
    requires LoadedUpTo(start, at, now, used, entries, n, maxId, logs, contexts, rows, parts)
    ensures now.logs + logs == BackLogs(now.logs, entries, n)
    ensures now.contexts + contexts == BackContexts(now.contexts, entries, n)
  {
    hide Meanwhile, LoadsAt;
    BackIs(now.logs, now.contexts, entries, n);
  }

  lemma LoadsNone(start: Tables, used: set<int>, entries: seq<Entry>, maxId: int)
    requires Keyed(start.logs) && Known(start.logs, start.accounts) && start.contexts.Keys <= start.logs.Keys
    ensures LoadedUpTo(start, [], start, used, entries, 0, maxId, map[], map[], 0, 0)
  {
    ArrivalsNone(start, used);
  }

  /** More rows arrive. */
  lemma {:induction false} LoadsLater(start: Tables, at: seq<Tables>, was: Tables, now: Tables, used: set<int>,
      later: set<int>, entries: seq<Entry>, n: nat, maxId: int, logs: Logs, contexts: Contexts, rows: int, parts: int)
    requires LoadedUpTo(start, at, was, used, entries, n, maxId, logs, contexts, rows, parts)
    requires Arrivals(was, now, later) && used <= later
    ensures LoadedUpTo(start, at, now, used, entries, n, maxId, logs, contexts, rows, parts)
  {
    ArrivalsJoin(start, was, now, used, later);
    forall i | 0 <= i < |at| ensures Arrivals(at[i], now, used) {
      ArrivalsJoin(at[i], was, now, used, later);
    }
    hide Arrivals;
  }

  lemma {:induction false} LoadFails(start: Tables, at: seq<Tables>, now: Tables, used: set<int>, entries: seq<Entry>,
      i: nat, maxId: int, logs: Logs, contexts: Contexts, rows: int, parts: int)
    requires LoadedUpTo(start, at, now, used, entries, i, maxId, logs, contexts, rows, parts)
    requires i < |entries| && entries[i].applied
    requires !Fits(now, entries, i, maxId)
    ensures var all := at + seq(|entries| - i, _ => now);
      && |all| == |entries| && Meanwhile(start, all, now, used) && !LoadsAt(all, entries, |entries|, maxId)
      && FailsOn(all, entries, maxId, entries[i].day)
  {
    hide Meanwhile, Fits, BackLogs, BackContexts;
    var all := at + seq(|entries| - i, _ => now);
    Padded(start, at, now, used, |entries| - i);
    assert all[i] == now;
    StoppedAt(all, entries, i, maxId);
    StoppedFirst(at, all, entries, i, maxId);
  }

  lemma {:induction false} Padded(start: Tables, at: seq<Tables>, now: Tables, used: set<int>, n: nat)
    requires Meanwhile(start, at, now, used)
    ensures Meanwhile(start, at + seq(n, _ => now), now, used)
  {
    ArrivalsNone(now, used);
    hide Arrivals;
  }

  lemma {:induction false} StoppedFirst(at: seq<Tables>, all: seq<Tables>, entries: seq<Entry>, i: nat, maxId: int)
    requires |at| == i < |entries| == |all| && LoadsAt(at, entries, i, maxId) && !LoadsOne(all, entries, i, maxId)
    requires all[..i] == at
    ensures FailsOn(all, entries, maxId, entries[i].day)
  {
    hide LoadsOne;
    forall j | 0 <= j < i ensures LoadsOne(all, entries, j, maxId) {
      OneAlike(at, all, entries, j, maxId);
    }
  }

  lemma {:induction false} OneAlike(at: seq<Tables>, all: seq<Tables>, entries: seq<Entry>, j: nat, maxId: int)
    requires j < |at| <= |all| && j < |entries| && all[..|at|] == at && LoadsOne(at, entries, j, maxId)
    ensures LoadsOne(all, entries, j, maxId)
  {
    assert all[j] == all[..|at|][j];
  }

  lemma {:induction false} StoppedAt(at: seq<Tables>, entries: seq<Entry>, i: nat, maxId: int)
    requires i < |entries| == |at| && entries[i].applied && !Fits(at[i], entries, i, maxId)
    ensures !LoadsAt(at, entries, |entries|, maxId) && !LoadsOne(at, entries, i, maxId)
  {
    assert !LoadsOne(at, entries, i, maxId);
  }

  /** The next entry was checked against `now`. */
  lemma {:induction false} EntryChecked(start: Tables, at: seq<Tables>, now: Tables, used: set<int>,
      entries: seq<Entry>, i: nat, maxId: int)
    requires |at| == i < |entries| && Meanwhile(start, at, now, used) && LoadsAt(at, entries, i, maxId)
    requires LoadsOne(at + [now], entries, i, maxId)
    ensures Meanwhile(start, at + [now], now, used) && LoadsAt(at + [now], entries, i + 1, maxId)
  {
    ArrivalsNone(now, used);
    hide Arrivals;
    forall j | 0 <= j < i ensures LoadsOne(at + [now], entries, j, maxId) {
      assert LoadsOne(at, entries, j, maxId) && (at + [now])[j] == at[j];
    }
  }

  lemma {:induction false} LoadsNext(start: Tables, at: seq<Tables>, now: Tables, used: set<int>, entries: seq<Entry>,
      i: nat, maxId: int, logs: Logs, contexts: Contexts, rows: int, parts: int)
    requires LoadedUpTo(start, at, now, used, entries, i, maxId, logs, contexts, rows, parts)
    requires i < |entries| && entries[i].applied
    requires Fits(now, entries, i, maxId)
    ensures LoadedUpTo(start, at + [now], now, used, entries, i + 1, maxId, logs + entries[i].logs,
      contexts + entries[i].contexts, rows + |entries[i].logs|, parts + |entries[i].contexts|)
  {
    hide Fits, LoadsAt, Meanwhile;
    EntryChecked(start, at, now, used, entries, i, maxId);
  }

  lemma {:induction false} LoadSkips(start: Tables, at: seq<Tables>, now: Tables, used: set<int>, entries: seq<Entry>,
      i: nat, maxId: int, logs: Logs, contexts: Contexts, rows: int, parts: int)
    requires LoadedUpTo(start, at, now, used, entries, i, maxId, logs, contexts, rows, parts)
    requires i < |entries| && !entries[i].applied
    ensures LoadedUpTo(start, at + [now], now, used, entries, i + 1, maxId, logs, contexts, rows, parts)
  {
    hide Fits, LoadsAt, Meanwhile;
    EntryChecked(start, at, now, used, entries, i, maxId);
  }

  lemma {:induction false} LoadsAll(start: Tables, at: seq<Tables>, now: Tables, used: set<int>, entries: seq<Entry>,
      maxId: int, logs: Logs, contexts: Contexts, rows: int, parts: int)
    requires LoadedUpTo(start, at, now, used, entries, |entries|, maxId, logs, contexts, rows, parts)
    ensures |at| == |entries| && Meanwhile(start, at, now, used) && LoadsAt(at, entries, |entries|, maxId)
    ensures now.logs + logs == BackLogs(now.logs, entries, |entries|)
    ensures now.contexts + contexts == BackContexts(now.contexts, entries, |entries|)
    ensures rows == RowsBack(entries, |entries|) && parts == PartsBack(entries, |entries|)
  {
    hide Meanwhile, LoadsAt;
    BackIs(now.logs, now.contexts, entries, |entries|);
  }
  /** Insert from the staged files, then compare the range with the manifest. */
  method LoadDay(logs: Logs, contexts: Contexts, accounts: set<string>, file: File, e: Entry, maxId: int)
    returns (loaded: bool, afterLogs: Logs, afterContexts: Contexts)
    requires file == File(e.logs, e.contexts)
    ensures loaded <==> Loadable(logs, contexts, e, maxId) && Known(e.logs, accounts)
    ensures loaded ==> afterLogs == logs + e.logs && afterContexts == contexts + e.contexts
  {
    afterLogs, afterContexts := logs, contexts;
    var named := set id | id in file.logs && file.logs[id].account.Some? :: file.logs[id].account.value;
    assert named <= accounts <==> Known(e.logs, accounts) by {
      assert forall id :: id in e.logs && e.logs[id].account.Some? ==> e.logs[id].account.value in named;
    }
    if !(file.logs.Keys !! logs.Keys) || !(named <= accounts) {
      return false, afterLogs, afterContexts;
    }
    afterLogs := logs + file.logs;
    if !(file.contexts.Keys !! contexts.Keys) || !(file.contexts.Keys <= afterLogs.Keys) {
      return false, afterLogs, afterContexts;
    }
    afterContexts := contexts + file.contexts;
    loaded := Range(afterLogs, e.day, maxId) == e.logs
      && RangeContexts(afterLogs, afterContexts, e.day, maxId) == e.contexts;
  }

  /** Committing leaves valid tables, whatever arrived since a day was checked. */
  lemma {:induction false} BackStaysValid(at: seq<Tables>, end: Tables, entries: seq<Entry>, n: nat, maxId: int,
      used: set<int>, start: Tables, before: set<int>)
    requires n <= |entries| == |at| && Meanwhile(start, at, end, before) && LoadsAt(at, entries, n, maxId)
    requires end.logs.Keys <= used
    requires forall i :: 0 <= i < |entries| ==> Keyed(entries[i].logs) && entries[i].logs.Keys <= used
    ensures Keyed(BackLogs(end.logs, entries, n)) && Known(BackLogs(end.logs, entries, n), end.accounts)
    ensures BackContexts(end.contexts, entries, n).Keys <= BackLogs(end.logs, entries, n).Keys <= used
  {
    if n > 0 {
      BackStaysValid(at, end, entries, n - 1, maxId, used, start, before);
      assert LoadsOne(at, entries, n - 1, maxId) && Arrivals(at[n - 1], end, before);
      ExtendsKeys(at[n - 1].logs, end.logs);
      BackWider(at[n - 1].logs, end.logs, entries, n - 1);
    }
  }

  lemma ExtendsKeys<V>(small: map<int, V>, large: map<int, V>)
    requires Extends(small, large)
    ensures small.Keys <= large.Keys
  {
    forall id | id in small.Keys ensures id in large.Keys {
      assert id in small;
    }
  }

  lemma {:induction false} BackWider(logs: Logs, more: Logs, entries: seq<Entry>, n: nat)
    requires n <= |entries| && logs.Keys <= more.Keys
    ensures BackLogs(logs, entries, n).Keys <= BackLogs(more, entries, n).Keys
  {
    if n > 0 {
      BackWider(logs, more, entries, n - 1);
    }
  }

  lemma {:induction false} BackGrows(logs: Logs, entries: seq<Entry>, m: nat, n: nat)
    requires m <= n <= |entries|
    ensures BackLogs(logs, entries, m).Keys <= BackLogs(logs, entries, n).Keys
    decreases n
  {
    if m < n {
      BackGrows(logs, entries, m, n - 1);
    }
  }

  /** After an interrupted restore the marks still stand, and restoring again fails on the keys that are taken,
      whatever arrives: by the contract of `Restore` it then changes no table of its own accord. */
  lemma {:induction false} RepeatAfterInterrupt(logs: Logs, entries: seq<Entry>, at: seq<Tables>, maxId: int, i: nat)
    requires i < |entries| == |at| && entries[i].applied && entries[i].logs != map[]
    requires BackLogs(logs, entries, |entries|).Keys <= at[i].logs.Keys
    ensures !LoadsAt(at, entries, |entries|, maxId)
  {
    BackGrows(logs, entries, i + 1, |entries|);
    BackGrows(at[i].logs, entries, 0, i);
    assert entries[i].logs.Keys <= BackLogs(at[i].logs, entries, i).Keys;
    assert entries[i].logs.Keys != {};
    var id := Any(entries[i].logs.Keys);
    assert id in BackLogs(at[i].logs, entries, i).Keys;
    assert !LoadsOne(at, entries, i, maxId);
  }
}
