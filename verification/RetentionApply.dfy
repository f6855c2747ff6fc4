/** Archive, then delete day by day (app/retention_apply.py:16-144).

  Other sessions keep writing: `Database.Arrive` commits new rows with fresh ids at any statement
  boundary, and `Archive.Rot` may damage archive files at any time. The process may die between any
  two steps. Within a transaction the row locks stop changes to locked rows, but not new rows.
*/
module RetentionApply {
  import opened Options
  import opened Picking
  import opened RetentionPolicy

  /** One day of the manifest: its recorded content (count and digests) and whether it is marked applied. */
  datatype Entry = Entry(day: int, logs: Logs, contexts: Contexts, applied: bool)

  /** The two files of a day as they are on disk. */
  datatype File = File(logs: Logs, contexts: Contexts)

  /** The request tables, the rollup table and the ids of the accounts table. */
  datatype Tables = Tables(logs: Logs, contexts: Contexts, daily: seq<Rollup>, accounts: set<string>)

  datatype Deletion = Deleted(rows: int, parts: int, rollups: int) | Changed

  datatype ApplyOutcome = Finished(rows: int, parts: int, rollups: int) | DayChanged(day: int) | FilesCorrupt | Crashed

  ghost predicate Extends<V>(small: map<int, V>, large: map<int, V>) {
    forall id :: id in small ==> id in large && large[id] == small[id]
  }

  /** Rows are only added; new context parts belong to new rows; the rollup table is untouched. */
  ghost predicate Grows(a: Tables, b: Tables) {
    && Extends(a.logs, b.logs) && Extends(a.contexts, b.contexts)
    && (forall id :: id in b.contexts && id !in a.contexts ==> id !in a.logs)
    && a.daily == b.daily && a.accounts <= b.accounts
  }

  /** Every row's account is in the accounts table. */
  ghost predicate Known(logs: Logs, accounts: set<string>) {
    forall id :: id in logs ==> logs[id].account.Some? ==> logs[id].account.value in accounts
  }

  /** A growth that uses no id of `used` and leaves the tables valid. */
  ghost predicate Arrivals(a: Tables, b: Tables, used: set<int>) {
    && Grows(a, b) && Keyed(b.logs) && Known(b.logs, b.accounts) && b.contexts.Keys <= b.logs.Keys
    && forall id :: id in b.logs && id !in a.logs ==> id !in used
  }

  lemma ArrivalsJoin(a: Tables, b: Tables, c: Tables, used: set<int>, later: set<int>)
    requires Arrivals(a, b, used) && Arrivals(b, c, later) && used <= later
    ensures Arrivals(a, c, used)
  {
  }

  /** A row without its account, marked deleted. */
  function Anonymous(r: Row): Row { r.(account := None, deleted := true) }

  /** Removing an account drops its rows, or makes them anonymous. */
  function Removed(logs: Logs, account: string, history: bool): Logs {
    map id | id in logs && !(history && logs[id].account == Some(account)) ::
      if logs[id].account == Some(account) then Anonymous(logs[id]) else logs[id]
  }

  function Forgotten(daily: seq<Rollup>, account: string, history: bool): seq<Rollup> {
    if daily == [] then []
    else if daily[0].key.account != Some(account) then [daily[0]] + Forgotten(daily[1..], account, history)
    else if history then Forgotten(daily[1..], account, history)
    else [daily[0].(key := daily[0].key.(account := None, deleted := true))] + Forgotten(daily[1..], account, history)
  }

  /** What a removal leaves, row by row: an account's rows are dropped with their parts or made anonymous, and no
      other row or part changes. */
  ghost predicate Erases(before: Tables, after: Tables, account: string, history: bool) {
    && (forall id :: id in after.logs <==> id in before.logs && !(history && before.logs[id].account == Some(account)))
    && (forall id :: id in after.logs ==>
          after.logs[id] == if before.logs[id].account == Some(account)
          then before.logs[id].(account := None, deleted := true) else before.logs[id])
    && (forall id :: id in after.contexts <==> id in before.contexts && id in after.logs)
    && (forall id :: id in after.contexts ==> after.contexts[id] == before.contexts[id])
    && after.daily == Forgotten(before.daily, account, history) && after.accounts == before.accounts - {account}
  }

  class Database {
    var logs: Logs
    var contexts: Contexts
    var daily: seq<Rollup>
    var accounts: set<string>
    var used: set<int>

    /** Tables as they are found; ids of rows deleted earlier may be used too. */
    constructor (tables: Tables, used: set<int>)
      requires Keyed(tables.logs) && Known(tables.logs, tables.accounts)
      requires tables.contexts.Keys <= tables.logs.Keys <= used
      ensures Valid() && State() == tables && this.used == used
    {
      logs, contexts, daily, accounts := tables.logs, tables.contexts, tables.daily, tables.accounts;
      this.used := used;
    }

    /** Primary keys match, both foreign keys hold, and ids come from a sequence that never repeats. */
    ghost predicate Valid()
      reads this
    {
      Keyed(logs) && Known(logs, accounts) && contexts.Keys <= logs.Keys <= used
    }

    ghost function State(): Tables
      reads this
    {
      Tables(logs, contexts, daily, accounts)
    }

    /** Any number of other sessions commit new rows and accounts. */
    method Arrive()
      requires Valid()
      modifies this`logs, this`contexts, this`accounts, this`used
      ensures Valid() && Arrivals(old(State()), State(), old(used)) && old(used) <= used
    {
      var more: Logs, parts: Contexts, others: set<string> := *, *, *;
      accounts := accounts + others;
      var added: Logs := map id | id in more && id !in used && more[id].id == id
        && (more[id].account.Some? ==> more[id].account.value in accounts) :: more[id];
      var addedParts: Contexts := map id | id in parts && id in added :: parts[id];
      logs := logs + added;
      contexts := contexts + addedParts;
      used := used + added.Keys;
    }

    /** An account is removed in one transaction; parts follow their rows. */
    method RemoveAccount(account: string, history: bool)
      requires Valid()
      modifies this`logs, this`contexts, this`daily, this`accounts
      ensures Valid() && Erases(old(State()), State(), account, history)
    {
      daily := Forgotten(daily, account, history);
      logs := Removed(logs, account, history);
      contexts := map id | id in contexts && id in logs :: contexts[id];
      accounts := accounts - {account};
    }

    /** Removing an account may rewrite or drop rollup rows while an archive is restored. */
    method EditRollups()
      requires Valid()
      modifies this`daily
      ensures Valid()
    {
      daily := *;
    }
  }

  // ---- the archive ----

  /** The days of an export partition the old rows: see `ExportPartitions`. */
  ghost predicate Exported(entries: seq<Entry>, logs: Logs, contexts: Contexts, cutoff: int, maxId: int) {
    && (forall i :: 0 <= i < |entries| ==>
          && entries[i].day % DAY == 0 && entries[i].day + DAY <= cutoff
          && entries[i].logs == Range(logs, entries[i].day, maxId) && entries[i].logs != map[]
          && entries[i].contexts == RangeContexts(logs, contexts, entries[i].day, maxId))
    && (forall i, j :: 0 <= i < j < |entries| ==> entries[i].day < entries[j].day)
    && (forall id :: id in logs && logs[id].at < cutoff ==>
          logs[id].id <= maxId && exists i :: 0 <= i < |entries| && entries[i].day == DayStart(logs[id].at))
  }

  class Archive {
    const id: string
    const cutoff: int
    const maxId: int
    var entries: seq<Entry>
    var files: seq<File>

    constructor (id: string, cutoff: int, maxId: int, entries: seq<Entry>)
      ensures this.id == id && this.cutoff == cutoff && this.maxId == maxId && this.entries == entries
      ensures |files| == |entries|
        && forall i :: 0 <= i < |entries| ==> files[i] == File(entries[i].logs, entries[i].contexts)
    {
      this.id, this.cutoff, this.maxId, this.entries := id, cutoff, maxId, entries;
      files := seq(|entries|, i requires 0 <= i < |entries| => File(entries[i].logs, entries[i].contexts));
    }

    /** The archive volume may lose or damage any file. */
    method Rot()
      modifies this`files
      ensures |files| == |old(files)|
    {
      var damaged: seq<File> := *;
      if |damaged| == |files| {
        files := damaged;
      }
    }

    ghost predicate Intact(i: nat)
      reads this
    {
      i < |entries| && i < |files| && files[i] == File(entries[i].logs, entries[i].contexts)
    }

    /** Re-reads every file against the digests of the manifest. */
    method Verify() returns (ok: bool)
      requires |files| == |entries|
      ensures ok <==> forall i :: 0 <= i < |entries| ==> Intact(i)
    {
      ok := true;
      for i := 0 to |entries|
        invariant ok <==> forall j :: 0 <= j < i ==> Intact(j)
      {
        assert Intact(i) <==> files[i] == File(entries[i].logs, entries[i].contexts);
        if files[i] != File(entries[i].logs, entries[i].contexts) {
          ok := false;
        }
      }
    }

    method Mark(i: nat)
      requires i < |entries|
      modifies this`entries
      ensures entries == old(entries)[i := old(entries)[i].(applied := true)]
    {
      entries := entries[i := entries[i].(applied := true)];
    }
  }

  // ---- export ----

  lemma {:induction false} LeastExists(days: set<int>) returns (least: int)
    requires days != {}
    ensures least in days && forall d :: d in days ==> least <= d
  {
    var d := Any(days);
    if days == {d} {
      least := d;
    } else {
      assert days - {d} != {};
      assert forall x :: x in days ==> x == d || x in days - {d};
      var rest := LeastExists(days - {d});
      least := if rest <= d then rest else d;
    }
  }

  /** `SELECT DISTINCT date(...) ... ORDER BY 1`. */
  method Ascending(days: set<int>) returns (sorted: seq<int>)
    ensures forall d :: d in sorted <==> d in days
    ensures forall i, j :: 0 <= i < j < |sorted| ==> sorted[i] < sorted[j]
  {
    sorted := [];
    var left := days;
    while left != {}
      invariant left <= days
      invariant forall d :: d in sorted <==> d in days - left
      invariant forall i, d :: 0 <= i < |sorted| && d in left ==> sorted[i] < d
      invariant forall i, j :: 0 <= i < j < |sorted| ==> sorted[i] < sorted[j]
      decreases |left|
    {
      ghost var least := LeastExists(left);
      var next :| next in left && forall d :: d in left ==> next <= d;
      sorted := sorted + [next];
      left := left - {next};
    }
  }

  /** `SELECT max(id) ... WHERE requested_at < cutoff`, or 0. */
  method MaxOldId(logs: Logs, cutoff: int) returns (maxId: int)
    requires Keyed(logs)
    ensures forall id :: id in logs && logs[id].at < cutoff ==> id <= maxId
    ensures maxId == 0 || (maxId in logs && logs[maxId].at < cutoff)
  {
    var negated := set id | id in logs && logs[id].at < cutoff :: -id;
    if negated == {} {
      assert forall id :: id in logs && logs[id].at < cutoff ==> -id in negated;
      return 0;
    }
    ghost var least := LeastExists(negated);
    var next :| next in negated && forall d :: d in negated ==> next <= d;
    maxId := -next;
    assert forall id :: id in logs && logs[id].at < cutoff ==> -id in negated;
  }

  /** The archive takes no id that a row before the cutoff does not have. */
  ghost predicate OldestKept(logs: Logs, cutoff: int, maxId: int) {
    maxId == 0 || (maxId in logs && logs[maxId].at < cutoff)
  }

  function DayEntry(logs: Logs, contexts: Contexts, day: int, maxId: int): Entry {
    Entry(day, Range(logs, day, maxId), RangeContexts(logs, contexts, day, maxId), false)
  }

  /** One consistent snapshot becomes one entry and two files per old day; the tables are not touched. */
  method Export(db: Database, id: string, days: int, now: int) returns (archive: Archive)
    requires db.Valid()
    ensures fresh(archive) && archive.id == id && archive.cutoff == CutoffFor(days, now)
    ensures Exported(archive.entries, db.logs, db.contexts, archive.cutoff, archive.maxId)
    ensures forall i :: 0 <= i < |archive.entries| ==> !archive.entries[i].applied && archive.Intact(i)
    ensures |archive.files| == |archive.entries| && OldestKept(db.logs, archive.cutoff, archive.maxId)
  {
    var cutoff := CutoffFor(days, now);
    var logs, contexts := db.logs, db.contexts;
    var maxId := MaxOldId(logs, cutoff);
    var dates := set id | id in logs && logs[id].at < cutoff && id <= maxId :: DayStart(logs[id].at);
    var sorted := Ascending(dates);
    var entries: seq<Entry> := [];
    for i := 0 to |sorted|
      invariant |entries| == i
      invariant forall j :: 0 <= j < i ==> entries[j] == DayEntry(logs, contexts, sorted[j], maxId)
    {
      entries := entries + [DayEntry(logs, contexts, sorted[i], maxId)];
    }
    archive := new Archive(id, cutoff, maxId, entries);
    ExportedDays(entries, logs, contexts, cutoff, maxId, sorted, dates);
  }

  lemma ExportedDays(entries: seq<Entry>, logs: Logs, contexts: Contexts, cutoff: int, maxId: int, sorted: seq<int>,
      dates: set<int>)
    requires Keyed(logs) && cutoff % DAY == 0
    requires forall id :: id in logs && logs[id].at < cutoff ==> id <= maxId
    requires dates == set id | id in logs && logs[id].at < cutoff && id <= maxId :: DayStart(logs[id].at)
    requires forall d :: d in sorted <==> d in dates
    requires forall i, j :: 0 <= i < j < |sorted| ==> sorted[i] < sorted[j]
    requires |entries| == |sorted|
    requires forall j :: 0 <= j < |sorted| ==> entries[j] == DayEntry(logs, contexts, sorted[j], maxId)
    ensures Exported(entries, logs, contexts, cutoff, maxId)
  {
    forall i | 0 <= i < |entries|
      ensures entries[i].day % DAY == 0 && entries[i].day + DAY <= cutoff && entries[i].logs != map[]
    {
      assert sorted[i] in dates;
      var id :| id in logs && logs[id].at < cutoff && id <= maxId && DayStart(logs[id].at) == sorted[i];
      DayHolds(logs[id].at, cutoff);
      assert id in entries[i].logs;
    }
    forall id | id in logs && logs[id].at < cutoff
      ensures logs[id].id <= maxId && exists i :: 0 <= i < |entries| && entries[i].day == DayStart(logs[id].at)
    {
      assert DayStart(logs[id].at) in dates;
      var i :| 0 <= i < |sorted| && sorted[i] == DayStart(logs[id].at);
      assert entries[i].day == sorted[i];
    }
  }

  /** Days are aligned, contain their times, and do not straddle a midnight cutoff. */
  lemma DayHolds(at: int, cutoff: int)
    requires cutoff % DAY == 0
    ensures DayStart(at) % DAY == 0 && DayStart(at) <= at < DayStart(at) + DAY
    ensures at < cutoff ==> DayStart(at) + DAY <= cutoff
    ensures forall day :: day % DAY == 0 && day <= at < day + DAY ==> day == DayStart(at)
  {
  }

  /** Every old row is in exactly one day of the archive; rows at or after the cutoff, or above `maxId`, are in none. */
  lemma ExportPartitions(entries: seq<Entry>, logs: Logs, contexts: Contexts, cutoff: int, maxId: int, id: int)
    requires Exported(entries, logs, contexts, cutoff, maxId) && Keyed(logs) && cutoff % DAY == 0 && id in logs
    ensures logs[id].at < cutoff <==> exists i :: 0 <= i < |entries| && id in entries[i].logs
    ensures forall i, j ::
      0 <= i < |entries| && 0 <= j < |entries| && id in entries[i].logs && id in entries[j].logs ==> i == j
    ensures forall i :: 0 <= i < |entries| && id in entries[i].logs ==> entries[i].logs[id] == logs[id]
    ensures logs[id].id > maxId ==> forall i :: 0 <= i < |entries| ==> id !in entries[i].logs
  {
    DayHolds(logs[id].at, cutoff);
    if logs[id].at < cutoff {
      var i :| 0 <= i < |entries| && entries[i].day == DayStart(logs[id].at);
      assert id in entries[i].logs;
    }
    forall i, j | 0 <= i < |entries| && 0 <= j < |entries| && id in entries[i].logs && id in entries[j].logs
        ensures i == j {
      assert entries[i].day == DayStart(logs[id].at) == entries[j].day;
    }
  }

  /** A day with a row of an account that was removed since the export no longer matches its archive, so by the contract
      of `DeleteDay` it is never deleted; every row of another account is as it was. */
  lemma RemovalBlocksDay(e: Entry, logs: Logs, account: string, history: bool, maxId: int, id: int)
    requires Keyed(logs) && id in e.logs && e.logs[id].account == Some(account)
    ensures Range(Removed(logs, account, history), e.day, maxId) != e.logs
    ensures forall other :: other in logs && logs[other].account != Some(account) ==>
      other in Removed(logs, account, history) && Removed(logs, account, history)[other] == logs[other]
  {
    var range := Range(Removed(logs, account, history), e.day, maxId);
    assert id in range ==> range[id].account != Some(account);
  }

  // ---- one day ----

  /** The committed effect of `delete_day`: `mid` is the table the rollup was computed on, `full` the table
      the delete saw, both after other sessions' inserts. */
  ghost predicate DayDeleted(e: Entry, maxId: int, archive: string, before: Tables, mid: Tables, full: Tables,
      after: Tables, rolls: seq<Rollup>) {
    && Grows(before, mid) && Grows(mid, full)
    && e.logs.Keys <= mid.logs.Keys
    && Range(full.logs, e.day, maxId) == e.logs && RangeContexts(full.logs, full.contexts, e.day, maxId) == e.contexts
    && RollsUp(rolls, mid.logs, e.logs.Keys, archive)
    && after == Tables(full.logs - e.logs.Keys, full.contexts - e.logs.Keys, full.daily + rolls, full.accounts)
  }

  /** The day's range no longer holds exactly what its entry says. */
  ghost predicate Differs(tables: Tables, e: Entry, maxId: int) {
    || Range(tables.logs, e.day, maxId) != e.logs
    || RangeContexts(tables.logs, tables.contexts, e.day, maxId) != e.contexts
  }

  lemma RangeGrows(a: Tables, b: Tables, day: int, maxId: int)
    requires Grows(a, b)
    ensures Range(a.logs, day, maxId).Keys <= Range(b.logs, day, maxId).Keys
    ensures Extends(Range(a.logs, day, maxId), Range(b.logs, day, maxId))
    ensures |Range(a.logs, day, maxId)| == |Range(b.logs, day, maxId)| ==>
      Range(a.logs, day, maxId) == Range(b.logs, day, maxId)
    ensures Range(a.logs, day, maxId) == Range(b.logs, day, maxId) ==>
      RangeContexts(a.logs, a.contexts, day, maxId) == RangeContexts(b.logs, b.contexts, day, maxId)
  {
    var small, large := Range(a.logs, day, maxId), Range(b.logs, day, maxId);
    forall id | id in small ensures id in large && large[id] == small[id] {
      assert id in a.logs && id in b.logs;
    }
    if |small| == |large| {
      SizeOfKeys(small);
      SizeOfKeys(large);
      SameSize(small.Keys, large.Keys);
      assert small == large;
    }
    if small == large {
      var before, after := RangeContexts(a.logs, a.contexts, day, maxId), RangeContexts(b.logs, b.contexts, day, maxId);
      forall id | id in after ensures id in before && before[id] == after[id] {
        assert id in large;
        assert id in small && id in a.logs;
      }
      forall id | id in before ensures id in after {
        assert id in a.contexts && id in a.logs;
      }
      assert before == after;
    }
  }

  lemma SizeOfKeys<V>(m: map<int, V>)
    ensures |m| == |m.Keys|
  {
  }

  lemma SameSize<T>(a: set<T>, b: set<T>)
    requires a <= b && |a| == |b|
    ensures a == b
  {
    assert |b - a| == |b| - |a|;
  }

  /** Lock, compare with the archive, roll up, delete, count; any mismatch rolls the transaction back. */
  method DeleteDay(db: Database, id: string, maxId: int, e: Entry)
    returns (outcome: Deletion, ghost mid: Tables, ghost full: Tables, ghost rolls: seq<Rollup>)
    requires db.Valid()
    modifies db
    ensures db.Valid() && old(db.used) <= db.used
    ensures Arrivals(old(db.State()), full, old(db.used)) && full.logs.Keys <= db.used
    ensures outcome.Changed? ==> db.State() == full && Differs(db.State(), e, maxId)
    ensures outcome.Deleted? ==> DayDeleted(e, maxId, id, old(db.State()), mid, full, db.State(), rolls)
    ensures outcome.Deleted? ==> outcome == Deleted(|e.logs|, |e.contexts|, |rolls|)
    ensures outcome.Deleted? <==>
      && Range(old(db.logs), e.day, maxId) == e.logs
      && RangeContexts(old(db.logs), old(db.contexts), e.day, maxId) == e.contexts
      && Range(full.logs, e.day, maxId) == e.logs
  {
    ghost var before := db.State();
    rolls := [];
    var live := Range(db.logs, e.day, maxId);
    var parts := RangeContexts(db.logs, db.contexts, e.day, maxId);
    if live != e.logs || parts != e.contexts {
      mid, full := db.State(), db.State();
      return Changed, mid, full, rolls;
    }
    db.Arrive();
    mid := db.State();
    RangeGrows(before, mid, e.day, maxId);
    var inserted := InsertRollups(db.logs, Range(db.logs, e.day, maxId).Keys, id);
    db.Arrive();
    full := db.State();
    RangeGrows(mid, full, e.day, maxId);
    RangeGrows(before, full, e.day, maxId);
    var doomed := Range(db.logs, e.day, maxId);
    if |doomed| != |e.logs| {
      return Changed, mid, full, rolls;
    }
    assert Range(mid.logs, e.day, maxId).Keys == e.logs.Keys;
    rolls := inserted;
    db.logs := db.logs - doomed.Keys;
    db.contexts := db.contexts - doomed.Keys;
    db.daily := db.daily + inserted;
    outcome := Deleted(|e.logs|, |e.contexts|, |inserted|);
  }
}
