/** What accounts that are removed during a run leave of it (app/modules/accounts/removal_repository.py:17-31). */
module RetentionRemoval {
  import opened Options
  import opened RetentionPolicy
  import opened RetentionApply
  import opened RetentionTotals

  // ---- reported totals ----

  /** A row is superseded only by rows of its own account. */
  lemma OthersSuperseded(before: Tables, after: Tables, account: string, history: bool, id: int)
    requires Erases(before, after, account, history) && id in before.logs
    requires before.logs[id].account != Some(account)
    ensures id in after.logs && after.logs[id] == before.logs[id]
    ensures Superseded(after.logs, after.logs[id]) == Superseded(before.logs, before.logs[id])
  {
    var r := before.logs[id];
    assert id in after.logs;
    if n :| n in before.logs && Replaces(before.logs[n], r) {
      assert n in after.logs && Replaces(after.logs[n], r);
    }
    if n :| n in after.logs && Replaces(after.logs[n], r) {
      assert before.logs[n].account != Some(account);
      assert n in before.logs && Replaces(before.logs[n], r);
    }
  }

  /** What one rollup row adds to a group. */
  function Part(r: Rollup, k: Key): Totals { if r.key == k then r.totals else ZERO }

  /** What is left of one rollup row. */
  function Rest(r: Rollup, account: string, history: bool): seq<Rollup> {
    if r.key.account != Some(account) then [r]
    else if history then []
    else [r.(key := Nameless(r.key))]
  }

  lemma RolledHead(daily: seq<Rollup>, account: string, history: bool, k: Key)
    requires daily != []
    ensures RolledTotal(daily, k) == Plus(Part(daily[0], k), RolledTotal(daily[1..], k))
    ensures RolledTotal(Forgotten(daily, account, history), k) ==
      Plus(RolledTotal(Rest(daily[0], account, history), k), RolledTotal(Forgotten(daily[1..], account, history), k))
  {
    hide Plus;
    var rest := Forgotten(daily[1..], account, history);
    assert Forgotten(daily, account, history) == Rest(daily[0], account, history) + rest;
    RolledConcat(Rest(daily[0], account, history), rest, k);
  }

  lemma RolledRest(r: Rollup, account: string, history: bool, k: Key)
    ensures RolledTotal(Rest(r, account, history), k) ==
      if r.key.account != Some(account) then Part(r, k)
      else if history then ZERO
      else Part(r.(key := Nameless(r.key)), k)
  {
  }

  lemma {:induction false} ForgottenOthers(daily: seq<Rollup>, account: string, history: bool, k: Key)
    requires k.account.Some? && k.account != Some(account)
    ensures RolledTotal(Forgotten(daily, account, history), k) == RolledTotal(daily, k)
  {
    if daily != [] {
      RolledHead(daily, account, history, k);
      RolledRest(daily[0], account, history, k);
      ForgottenOthers(daily[1..], account, history, k);
      hide Plus, RolledTotal, Forgotten, Rest;
    }
  }

  /** No other account's reported totals change when an account is removed. */
  lemma OthersReport(before: Tables, after: Tables, account: string, history: bool, k: Key)
    requires Erases(before, after, account, history) && k.account.Some? && k.account != Some(account)
    ensures Report(after.logs, after.daily, k) == Report(before.logs, before.daily, k)
  {
    var mine := set id | id in before.logs && before.logs[id].account == Some(account);
    var others := before.logs.Keys - mine;
    var left := after.logs.Keys - others;
    forall id | id in others
      ensures id in after.logs && after.logs[id] == before.logs[id]
        && Superseded(after.logs, after.logs[id]) == Superseded(before.logs, before.logs[id])
    {
      OthersSuperseded(before, after, account, history, id);
    }
    forall id | id in left ensures after.logs[id].account == None {
      assert id in mine;
    }
    hide Superseded, Plus;
    ForgottenOthers(before.daily, account, history, k);
    TotalSame(before.logs, after.logs, others, k);
    TotalNone(before.logs, mine, k);
    TotalNone(after.logs, left, k);
    assert before.logs.Keys == others + mine && after.logs.Keys == others + left;
    TotalUnion(before.logs, others, mine, k);
    TotalUnion(after.logs, others, left, k);
  }

  /** The key under which an account's rollup goes on without it. */
  function Nameless(k: Key): Key { k.(account := None, deleted := true) }

  lemma {:induction false} ForgottenKeys(daily: seq<Rollup>, account: string, history: bool)
    ensures forall r :: r in Forgotten(daily, account, history) ==> r.key.account != Some(account)
  {
    if daily != [] {
      ForgottenKeys(daily[1..], account, history);
    }
  }

  /** Nothing is left under the account's name. */
  lemma ForgottenName(daily: seq<Rollup>, account: string, history: bool, k: Key)
    requires k.account == Some(account)
    ensures RolledTotal(Forgotten(daily, account, history), k) == ZERO
  {
    hide *;
    var left := Forgotten(daily, account, history);
    ForgottenKeys(daily, account, history);
    forall i | 0 <= i < |left| ensures left[i].key != k {
      assert left[i] in left;
    }
    RolledNever(left, k);
  }

  /** Rolled totals of a removed account go on without its name, unless its history goes too. */
  lemma {:induction false} ForgottenTotals(daily: seq<Rollup>, account: string, history: bool, k: Key)
    requires k.account == Some(account)
    ensures RolledTotal(Forgotten(daily, account, history), Nameless(k)) ==
      if history then RolledTotal(daily, Nameless(k)) else WithName(daily, k)
  {
    if daily != [] {
      ForgottenTotals(daily[1..], account, history, k);
      NamelessStep(daily, account, history, k);
      hide *;
    } else {
      PlusLaws(ZERO, ZERO, ZERO);
    }
  }

  lemma NamelessStep(daily: seq<Rollup>, account: string, history: bool, k: Key)
    requires k.account == Some(account) && daily != []
    requires RolledTotal(Forgotten(daily[1..], account, history), Nameless(k)) ==
      if history then RolledTotal(daily[1..], Nameless(k)) else WithName(daily[1..], k)
    ensures RolledTotal(Forgotten(daily, account, history), Nameless(k)) ==
      if history then RolledTotal(daily, Nameless(k)) else WithName(daily, k)
  {
    hide Plus, RolledTotal, Forgotten, Rest, WithName, Part;
    var r := daily[0];
    RolledHead(daily, account, history, Nameless(k));
    RolledRest(r, account, history, Nameless(k));
    PartElsewhere(r, account, k);
    WithNameHead(daily, k);
  }

  lemma PartElsewhere(r: Rollup, account: string, k: Key)
    requires k.account == Some(account)
    ensures r.key.account != Some(account) ==> Part(r, k) == ZERO
    ensures r.key.account == Some(account) ==> Part(r, Nameless(k)) == ZERO
    ensures Part(r.(key := Nameless(r.key)), k) == ZERO
  {
  }

  /** The rollups of one group with and without the account's name, before and after a deletion. */
  ghost function WithName(daily: seq<Rollup>, k: Key): Totals {
    Plus(RolledTotal(daily, Nameless(k)),
         Plus(RolledTotal(daily, k.(deleted := false)), RolledTotal(daily, k.(deleted := true))))
  }

  function Named(r: Rollup, k: Key): Totals {
    if r.key.account == k.account then Part(r.(key := Nameless(r.key)), Nameless(k)) else Part(r, Nameless(k))
  }

  lemma PartNamed(r: Rollup, k: Key)
    requires k.account.Some?
    ensures Plus(Part(r, Nameless(k)), Plus(Part(r, k.(deleted := false)), Part(r, k.(deleted := true)))) == Named(r, k)
  {
    hide Plus;
    PlusLaws(r.totals, ZERO, ZERO);
    PlusLaws(ZERO, ZERO, ZERO);
  }

  lemma WithNameHead(daily: seq<Rollup>, k: Key)
    requires daily != [] && k.account.Some?
    ensures WithName(daily, k) == Plus(Named(daily[0], k), WithName(daily[1..], k))
  {
    hide Plus, Part, Named, RolledTotal;
    var r := daily[0];
    RolledHead(daily, "", true, Nameless(k));
    RolledHead(daily, "", true, k.(deleted := false));
    RolledHead(daily, "", true, k.(deleted := true));
    Arrange(Part(r, Nameless(k)), Part(r, k.(deleted := false)), Part(r, k.(deleted := true)),
      RolledTotal(daily[1..], Nameless(k)), RolledTotal(daily[1..], k.(deleted := false)),
      RolledTotal(daily[1..], k.(deleted := true)));
    PartNamed(r, k);
  }

  lemma Arrange(a: Totals, b: Totals, c: Totals, x: Totals, y: Totals, z: Totals)
    ensures Plus(Plus(a, x), Plus(Plus(b, y), Plus(c, z))) == Plus(Plus(a, Plus(b, c)), Plus(x, Plus(y, z)))
  {
  }

  // ---- what survives of a run ----

  /**
   * What has become of a row seen at export. A row in a deleted day is in the archive; a row of an account removed
   * before its day was deleted is anonymous, or gone if the history was to go; any other row is live as it was.
   */
  ghost predicate Fate(run: Run, removed: set<string>, erased: set<string>, id: int)
    requires run.done <= |run.entries| && id in run.start.logs
  {
    var r := run.start.logs[id];
    if id in Archived(run.entries, run.done) then id !in run.now.logs
    else if r.account.Some? && r.account.value in removed then
      if id in run.now.logs then run.now.logs[id] == r.(account := None, deleted := true) else r.account.value in erased
    else id in run.now.logs && run.now.logs[id] == r
  }

  /** A part goes with its row and never changes. */
  ghost predicate PartFate(run: Run, id: int)
    requires id in run.start.contexts
  {
    id in run.now.logs ==> id in run.now.contexts && run.now.contexts[id] == run.start.contexts[id]
  }

  /** What a run keeps while accounts are removed: `removed` are those, `erased` those with their history. */
  ghost predicate Survives(run: Run, removed: set<string>, erased: set<string>) {
    && run.done <= |run.entries| && Exported(run.entries, run.start.logs, run.start.contexts, run.cutoff, run.maxId)
    && (forall id :: id in run.start.logs ==> Fate(run, removed, erased, id))
    && (forall id :: id in run.start.contexts ==> PartFate(run, id))
  }

  lemma SurvivesStarts(run: Run)
    requires run.start == run.now && run.done == 0 && run.start.contexts.Keys <= run.start.logs.Keys
    requires Exported(run.entries, run.start.logs, run.start.contexts, run.cutoff, run.maxId)
    ensures Survives(run, {}, {})
  {
  }

  /** While no account was removed, what is kept survives. */
  lemma KeptSurvives(run: Run)
    requires run.Kept()
    ensures Survives(run, {}, {})
  {
    hide Exported, Run.Clean, Run.RolledUp;
    forall id | id in run.start.logs ensures Fate(run, {}, {}, id) {
      if id in Archived(run.entries, run.done) {
        ArchivedGone(run, id);
      }
    }
    forall id | id in run.start.contexts ensures PartFate(run, id) {
      assert id in run.full.contexts;
    }
  }

  lemma SurvivesArrives(run: Run, removed: set<string>, erased: set<string>, grown: Tables, used: set<int>)
    requires Survives(run, removed, erased) && Arrivals(run.now, grown, used) && run.start.logs.Keys <= used
    requires run.start.contexts.Keys <= run.start.logs.Keys
    ensures Survives(run.(now := grown), removed, erased)
  {
    var next := run.(now := grown);
    forall id | id in run.start.logs ensures Fate(next, removed, erased, id) {
      assert Fate(run, removed, erased, id);
    }
    forall id | id in run.start.contexts ensures PartFate(next, id) {
      assert PartFate(run, id) && id in run.start.logs.Keys;
    }
  }

  lemma SurvivesRemoval(run: Run, removed: set<string>, erased: set<string>, after: Tables, account: string,
      history: bool)
    requires Survives(run, removed, erased) && Erases(run.now, after, account, history)
    ensures Survives(run.(now := after), removed + {account}, if history then erased + {account} else erased)
  {
    var next, more, gone := run.(now := after), removed + {account}, if history then erased + {account} else erased;
    forall id | id in run.start.logs ensures Fate(next, more, gone, id) {
      assert Fate(run, removed, erased, id);
    }
    forall id | id in run.start.contexts ensures PartFate(next, id) {
      assert PartFate(run, id);
    }
  }

  lemma SurvivesDeletes(run: Run, removed: set<string>, erased: set<string>, mid: Tables, grown: Tables, after: Tables,
      rolls: seq<Rollup>, used: set<int>)
    requires Survives(run, removed, erased) && run.done < |run.entries| && Arrivals(run.now, grown, used)
    requires DayDeleted(run.entries[run.done], run.maxId, run.archive, run.now, mid, grown, after, rolls)
    requires run.start.logs.Keys <= used && run.start.contexts.Keys <= run.start.logs.Keys
    ensures Survives(run.(now := after, done := run.done + 1), removed, erased)
  {
    hide Exported, DayDeleted, Arrivals, Grows;
    SurvivesArrives(run, removed, erased, grown, used);
    var there, next := run.(now := grown), run.(now := after, done := run.done + 1);
    DeletedRows(run, mid, grown, after, rolls);
    forall id | id in run.start.logs ensures Fate(next, removed, erased, id) {
      assert Fate(there, removed, erased, id);
    }
    forall id | id in run.start.contexts ensures PartFate(next, id) {
      assert PartFate(there, id);
    }
  }

  /** The day's delete takes its rows and their parts out, and nothing else. */
  lemma DeletedRows(run: Run, mid: Tables, grown: Tables, after: Tables, rolls: seq<Rollup>)
    requires run.done < |run.entries|
    requires DayDeleted(run.entries[run.done], run.maxId, run.archive, run.now, mid, grown, after, rolls)
    ensures Archived(run.entries, run.done + 1) == Archived(run.entries, run.done) + run.entries[run.done].logs.Keys
    ensures after.logs == grown.logs - run.entries[run.done].logs.Keys
    ensures after.contexts == grown.contexts - run.entries[run.done].logs.Keys
  {
  }
}
