/** Request log retention: tables, day ranges and the daily rollup (app/retention_policy.py:39-116).

  A table is a map from primary key to row. Times are microseconds since the epoch, in UTC. Checksums
  and re-exported digests stand for the content they are taken of.
*/
module RetentionPolicy {
  import opened Options
  import opened Picking

  const DAY: int := 86_400_000_000

  const WARMUP_KINDS: set<string> := {"warmup", "limit_warmup"}

  /** Measured columns; every one of them may be null. */
  datatype Measures = Measures(input: Option<int>, output: Option<int>, cachedInput: Option<int>,
      cacheCreation: Option<int>, cacheRead: Option<int>, reasoning: Option<int>, cost: Option<real>,
      latency: Option<int>)

  datatype Dims = Dims(apiKey: Option<string>, provider: string, model: string, source: Option<string>, status: string)

  /** A row of request_logs; `rest` stands for the columns that retention only carries along. */
  datatype Row = Row(id: int, at: int, account: Option<string>, request: Option<string>, kind: string, deleted: bool,
      dims: Dims, measures: Measures, rest: string)

  /** A row of request_context_parts, keyed by its request_logs row. */
  datatype Context = Context(logId: int, data: string)

  /** The group-by columns of the rollup. */
  datatype Key = Key(day: int, account: Option<string>, dims: Dims, kind: string, deleted: bool, superseded: bool)

  datatype Totals = Totals(requests: int, input: int, output: int, outputOrReasoning: int, cachedInput: int,
      cacheCreation: int, cacheRead: int, reasoning: int, cost: real, latencySum: int, latencyCount: int)

  /** A row of request_log_daily. */
  datatype Rollup = Rollup(archive: string, key: Key, totals: Totals)

  type Logs = map<int, Row>
  type Contexts = map<int, Context>

  // ---- totals ----

  const ZERO := Totals(0, 0, 0, 0, 0, 0, 0, 0, 0.0, 0, 0)

  function Plus(a: Totals, b: Totals): Totals {
    Totals(a.requests + b.requests, a.input + b.input, a.output + b.output, a.outputOrReasoning + b.outputOrReasoning,
           a.cachedInput + b.cachedInput, a.cacheCreation + b.cacheCreation, a.cacheRead + b.cacheRead,
           a.reasoning + b.reasoning, a.cost + b.cost, a.latencySum + b.latencySum, a.latencyCount + b.latencyCount)
  }

  lemma PlusLaws(a: Totals, b: Totals, c: Totals)
    ensures Plus(a, Plus(b, c)) == Plus(Plus(a, b), c)
    ensures Plus(a, b) == Plus(b, a) && Plus(a, ZERO) == a
    ensures Plus(a, b) == Plus(a, c) ==> b == c
  {
  }

  function Or0(v: Option<int>): int { if v.Some? then v.value else 0 }

  /** One row's contribution to the rollup columns; sums skip nulls. */
  function Measured(r: Row): Totals {
    var m := r.measures;
    Totals(1, Or0(m.input), Or0(m.output), if m.output.Some? then m.output.value
      else Or0(m.reasoning), Or0(m.cachedInput),
           Or0(m.cacheCreation), Or0(m.cacheRead), Or0(m.reasoning), if m.cost.Some? then m.cost.value else 0.0,
           Or0(m.latency), if m.latency.Some? then 1 else 0)
  }

  /** Which column sums what: nulls count as nothing, output falls back to reasoning, and latency is counted apart. */
  lemma Columns(r: Row)
    ensures var t, m := Measured(r), r.measures;
      && t.requests == 1
      && t.input == Value(m.input) && t.output == Value(m.output) && t.cachedInput == Value(m.cachedInput)
      && t.cacheCreation == Value(m.cacheCreation) && t.cacheRead == Value(m.cacheRead)
      && t.reasoning == Value(m.reasoning) && t.latencySum == Value(m.latency)
      && t.outputOrReasoning == Value(if m.output == None then m.reasoning else m.output)
      && t.latencyCount == (if m.latency == None then 0 else 1)
      && t.cost == (match m.cost case None => 0.0 case Some(cost) => cost)
  {
  }

  ghost function Value(v: Option<int>): int { match v case None => 0 case Some(n) => n }

  /** Totals add column by column. */
  lemma PlusColumns(a: Totals, b: Totals)
    ensures var t := Plus(a, b);
      && t.requests - a.requests == b.requests && t.input - a.input == b.input && t.output - a.output == b.output
      && t.outputOrReasoning - a.outputOrReasoning == b.outputOrReasoning
      && t.cachedInput - a.cachedInput == b.cachedInput && t.cacheCreation - a.cacheCreation == b.cacheCreation
      && t.cacheRead - a.cacheRead == b.cacheRead && t.reasoning - a.reasoning == b.reasoning
      && t.cost - a.cost == b.cost && t.latencySum - a.latencySum == b.latencySum
      && t.latencyCount - a.latencyCount == b.latencyCount
  {
  }

  // ---- days and ranges ----

  function DayStart(at: int): int { at / DAY * DAY }

  function CutoffFor(days: int, now: int): int { DayStart(now) - days * DAY }

  /** The cutoff is the midnight that many days before the last one. */
  lemma CutoffIs(days: int, now: int)
    ensures CutoffFor(days, now) % DAY == 0
    ensures CutoffFor(days, now) + days * DAY <= now < CutoffFor(days, now) + days * DAY + DAY
    ensures DAY == 24 * 3600 * 1_000_000
  {
  }

  predicate InRange(r: Row, day: int, maxId: int) { day <= r.at < day + DAY && r.id <= maxId }

  function Range(logs: Logs, day: int, maxId: int): Logs {
    map id | id in logs && InRange(logs[id], day, maxId) :: logs[id]
  }

  function RangeContexts(logs: Logs, contexts: Contexts, day: int, maxId: int): Contexts {
    map id | id in contexts && id in logs && InRange(logs[id], day, maxId) :: contexts[id]
  }

  ghost predicate Keyed(logs: Logs) { forall id :: id in logs ==> logs[id].id == id }

  // ---- superseded rows and rollup keys ----

  predicate Counts(r: Row) { r.kind !in WARMUP_KINDS && !r.deleted }

  /** `n` is a later copy of the same request; SQL equality with null is never true. */
  predicate Replaces(n: Row, r: Row) {
    && n.account.Some? && n.account == r.account
    && n.request.Some? && n.request == r.request
    && n.at == r.at && n.id > r.id && Counts(n)
  }

  predicate Superseded(logs: Logs, r: Row) { Counts(r) && exists n | n in logs :: Replaces(logs[n], r) }

  function KeyOf(logs: Logs, r: Row): Key {
    Key(DayStart(r.at), r.account, r.dims, r.kind, r.deleted, Superseded(logs, r))
  }

  /** A group is of one day, account and set of dimensions, and a row of it is superseded when a later row of the same
      request, account and time stands in the table; warm-ups and deleted rows neither supersede nor are superseded. */
  lemma GroupIs(logs: Logs, r: Row)
    ensures var k := KeyOf(logs, r);
      && k.day % DAY == 0 && k.day <= r.at < k.day + DAY
      && k.account == r.account && k.dims == r.dims && k.kind == r.kind && k.deleted == r.deleted
      && (k.superseded <==>
            && !r.deleted && r.kind != "warmup" && r.kind != "limit_warmup" && r.account != None && r.request != None
            && exists id :: id in logs && logs[id].id > r.id && logs[id].account == r.account
                            && logs[id].request == r.request && logs[id].at == r.at && !logs[id].deleted
                            && logs[id].kind != "warmup" && logs[id].kind != "limit_warmup")
  {
    if id :| (id in logs && logs[id].id > r.id && logs[id].account == r.account
              && logs[id].request == r.request && logs[id].at == r.at && !logs[id].deleted
              && logs[id].kind != "warmup" && logs[id].kind != "limit_warmup") {
      assert r.account != None && r.request != None ==> Replaces(logs[id], r);
    }
  }

  // ---- sums over sets of rows ----

  /** What row `id` adds to group `k`, when supersession is judged against `logs`. */
  ghost function Share(logs: Logs, id: int, k: Key): Totals
    requires id in logs
  {
    if KeyOf(logs, logs[id]) == k then Measured(logs[id]) else ZERO
  }

  ghost function TotalOf(logs: Logs, ids: set<int>, k: Key): Totals
    requires ids <= logs.Keys
  {
    if ids == {} then ZERO
    else
      var id := Any(ids);
      Plus(Share(logs, id, k), TotalOf(logs, ids - {id}, k))
  }

  lemma {:induction false} TotalPick(logs: Logs, ids: set<int>, k: Key, id: int)
    requires ids <= logs.Keys && id in ids
    ensures TotalOf(logs, ids, k) == Plus(Share(logs, id, k), TotalOf(logs, ids - {id}, k))
    decreases |ids|
  {
    hide Plus, Share;
    var first := Any(ids);
    if first != id {
      TotalPick(logs, ids - {first}, k, id);
      TotalPick(logs, ids - {id}, k, first);
      assert ids - {first} - {id} == ids - {id} - {first};
      var rest := TotalOf(logs, ids - {id} - {first}, k);
      PlusLaws(Share(logs, first, k), Share(logs, id, k), rest);
      PlusLaws(Share(logs, id, k), Share(logs, first, k), rest);
    }
  }

  lemma {:induction false} TotalUnion(logs: Logs, a: set<int>, b: set<int>, k: Key)
    requires a <= logs.Keys && b <= logs.Keys && a !! b
    ensures TotalOf(logs, a + b, k) == Plus(TotalOf(logs, a, k), TotalOf(logs, b, k))
    decreases |a|
  {
    hide Plus, Share;
    if a == {} {
      assert a + b == b;
      PlusLaws(TotalOf(logs, b, k), ZERO, ZERO);
    } else {
      var id := Any(a);
      TotalPick(logs, a, k, id);
      TotalPick(logs, a + b, k, id);
      assert a + b - {id} == (a - {id}) + b;
      TotalUnion(logs, a - {id}, b, k);
      PlusLaws(Share(logs, id, k), TotalOf(logs, a - {id}, k), TotalOf(logs, b, k));
    }
  }

  /** Totals agree in two tables that agree on the rows and on which of them are superseded. */
  lemma {:induction false} TotalSame(logs: Logs, other: Logs, ids: set<int>, k: Key)
    requires ids <= logs.Keys && ids <= other.Keys
    requires forall id :: id in ids ==>
      logs[id] == other[id] && Superseded(logs, logs[id]) == Superseded(other, other[id])
    ensures TotalOf(logs, ids, k) == TotalOf(other, ids, k)
    decreases |ids|
  {
    hide Plus, Superseded;
    if ids != {} {
      var id := Any(ids);
      TotalPick(logs, ids, k, id);
      TotalPick(other, ids, k, id);
      TotalSame(logs, other, ids - {id}, k);
    }
  }

  lemma {:induction false} TotalNone(logs: Logs, ids: set<int>, k: Key)
    requires ids <= logs.Keys && forall id :: id in ids ==> KeyOf(logs, logs[id]) != k
    ensures TotalOf(logs, ids, k) == ZERO
    decreases |ids|
  {
    hide KeyOf, Plus;
    if ids != {} {
      var id := Any(ids);
      TotalPick(logs, ids, k, id);
      TotalNone(logs, ids - {id}, k);
      PlusLaws(ZERO, ZERO, ZERO);
    }
  }

  ghost function RolledTotal(daily: seq<Rollup>, k: Key): Totals {
    if daily == [] then ZERO
    else Plus(if daily[0].key == k then daily[0].totals else ZERO, RolledTotal(daily[1..], k))
  }

  lemma {:induction false} RolledConcat(a: seq<Rollup>, b: seq<Rollup>, k: Key)
    ensures RolledTotal(a + b, k) == Plus(RolledTotal(a, k), RolledTotal(b, k))
  {
    hide Plus;
    if a == [] {
      assert a + b == b;
      PlusLaws(RolledTotal(b, k), ZERO, ZERO);
    } else {
      assert (a + b)[1..] == a[1..] + b;
      RolledConcat(a[1..], b, k);
      PlusLaws(if a[0].key == k then a[0].totals else ZERO, RolledTotal(a[1..], k), RolledTotal(b, k));
    }
  }

  /** What a reader of lifetime totals sees for group `k`: live rows plus rolled-up days. */
  ghost function Report(logs: Logs, daily: seq<Rollup>, k: Key): Totals {
    Plus(TotalOf(logs, logs.Keys, k), RolledTotal(daily, k))
  }

  // ---- the rollup insert ----

  /** One rollup row per group that occurs among `ids`, holding that group's totals. */
  ghost predicate RollsUp(rolls: seq<Rollup>, logs: Logs, ids: set<int>, archive: string) {
    && ids <= logs.Keys
    && (forall i :: 0 <= i < |rolls| ==>
         rolls[i].archive == archive && rolls[i].totals == TotalOf(logs, ids, rolls[i].key))
    && (forall i, j :: 0 <= i < j < |rolls| ==> rolls[i].key != rolls[j].key)
    && (forall id :: id in ids ==> exists i :: 0 <= i < |rolls| && rolls[i].key == KeyOf(logs, logs[id]))
    && (forall i :: 0 <= i < |rolls| ==> Occurs(rolls[i].key, logs, ids))
  }

  /** Some row of the set is in the group. */
  ghost predicate Occurs(k: Key, logs: Logs, ids: set<int>)
    requires ids <= logs.Keys
  {
    exists id :: id in ids && KeyOf(logs, logs[id]) == k
  }

  /** Rolling up loses nothing: every group's rolled total is the total of its rows. */
  lemma RollupComplete(rolls: seq<Rollup>, logs: Logs, ids: set<int>, archive: string, k: Key)
    requires RollsUp(rolls, logs, ids, archive)
    ensures RolledTotal(rolls, k) == TotalOf(logs, ids, k)
  {
    if i :| 0 <= i < |rolls| && rolls[i].key == k {
      RolledOnce(rolls, i, k);
    } else {
      RolledNever(rolls, k);
      forall id | id in ids ensures KeyOf(logs, logs[id]) != k {
      }
      TotalNone(logs, ids, k);
    }
  }

  lemma {:induction false} RolledNever(rolls: seq<Rollup>, k: Key)
    requires forall i :: 0 <= i < |rolls| ==> rolls[i].key != k
    ensures RolledTotal(rolls, k) == ZERO
  {
    if rolls != [] {
      RolledNever(rolls[1..], k);
    }
  }

  lemma {:induction false} RolledOnce(rolls: seq<Rollup>, i: nat, k: Key)
    requires i < |rolls| && rolls[i].key == k
    requires forall a, b :: 0 <= a < b < |rolls| ==> rolls[a].key != rolls[b].key
    ensures RolledTotal(rolls, k) == rolls[i].totals
  {
    if i == 0 {
      RolledNever(rolls[1..], k);
    } else {
      RolledOnce(rolls[1..], i - 1, k);
      PlusLaws(rolls[i].totals, ZERO, ZERO);
    }
  }

  /** Some rollup of the list has the key. */
  ghost predicate HasKey(rolls: seq<Rollup>, k: Key) { exists i :: 0 <= i < |rolls| && rolls[i].key == k }

  /** The groups in `done` have been inserted, each once. */
  ghost predicate Inserted(rolls: seq<Rollup>, logs: Logs, ids: set<int>, archive: string, done: set<Key>) {
    && ids <= logs.Keys
    && (forall i :: 0 <= i < |rolls| ==>
          rolls[i].key in done && rolls[i].archive == archive && rolls[i].totals == TotalOf(logs, ids, rolls[i].key))
    && (forall i, j :: 0 <= i < j < |rolls| ==> rolls[i].key != rolls[j].key)
    && (forall k :: k in done ==> HasKey(rolls, k))
  }

  lemma InsertOne(rolls: seq<Rollup>, logs: Logs, ids: set<int>, archive: string, done: set<Key>, key: Key)
    requires Inserted(rolls, logs, ids, archive, done) && key !in done
    ensures Inserted(rolls + [Rollup(archive, key, TotalOf(logs, ids, key))], logs, ids, archive, done + {key})
  {
    var longer := rolls + [Rollup(archive, key, TotalOf(logs, ids, key))];
    forall k | k in done + {key} ensures HasKey(longer, k) {
      if k == key {
        assert longer[|rolls|].key == k;
      } else {
        var i :| 0 <= i < |rolls| && rolls[i].key == k;
        assert longer[i].key == k;
      }
    }
  }

  lemma InsertedAll(rolls: seq<Rollup>, logs: Logs, ids: set<int>, archive: string, done: set<Key>)
    requires Inserted(rolls, logs, ids, archive, done)
    requires forall id :: id in ids ==> KeyOf(logs, logs[id]) in done
    requires forall k :: k in done ==> Occurs(k, logs, ids)
    ensures RollsUp(rolls, logs, ids, archive)
  {
    hide KeyOf;
    forall id | id in ids ensures exists i :: 0 <= i < |rolls| && rolls[i].key == KeyOf(logs, logs[id]) {
      assert HasKey(rolls, KeyOf(logs, logs[id]));
    }
  }

  /** Groups come out in any order. */
  method InsertRollups(logs: Logs, ids: set<int>, archive: string) returns (rolls: seq<Rollup>)
    requires ids <= logs.Keys
    ensures RollsUp(rolls, logs, ids, archive)
  {
    hide KeyOf, TotalOf;
    rolls := [];
    var keys := set id | id in ids :: KeyOf(logs, logs[id]);
    ghost var all := keys;
    while keys != {}
      invariant keys <= all
      invariant Inserted(rolls, logs, ids, archive, all - keys)
    {
      Nonempty(keys);
      var key :| key in keys;
      var totals := SumGroup(logs, ids, key);
      InsertOne(rolls, logs, ids, archive, all - keys, key);
      assert all - keys + {key} == all - (keys - {key});
      rolls := rolls + [Rollup(archive, key, totals)];
      keys := keys - {key};
    }
    assert all - keys == all;
    forall k | k in all ensures Occurs(k, logs, ids) {
      var id :| id in ids && KeyOf(logs, logs[id]) == k;
    }
    InsertedAll(rolls, logs, ids, archive, all);
  }

  method SumGroup(logs: Logs, ids: set<int>, key: Key) returns (totals: Totals)
    requires ids <= logs.Keys
    ensures totals == TotalOf(logs, ids, key)
  {
    hide Plus, KeyOf, Measured;
    totals := ZERO;
    var todo := ids;
    PlusLaws(TotalOf(logs, ids, key), ZERO, ZERO);
    while todo != {}
      invariant todo <= ids
      invariant Plus(totals, TotalOf(logs, todo, key)) == TotalOf(logs, ids, key)
    {
      Nonempty(todo);
      var id :| id in todo;
      TotalPick(logs, todo, key, id);
      PlusLaws(totals, Share(logs, id, key), TotalOf(logs, todo - {id}, key));
      PlusLaws(totals, ZERO, ZERO);
      if KeyOf(logs, logs[id]) == key {
        totals := Plus(totals, Measured(logs[id]));
      }
      todo := todo - {id};
    }
    PlusLaws(totals, ZERO, ZERO);
  }
}
