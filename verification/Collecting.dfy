/** Turning ledger rows into events while decisions are still arriving (clients/route_workflow_args.py:164-205).

  An event's id is made from its row alone, but its job, decision and attempt come from the decision that the row's
  reference means when the row is collected.
*/
module Collecting {
  import opened Options
  import opened EventLog
  import opened DecisionIndex

  /** A row of the ledger: `ref` names a decision, or a job and so that job's last decision. */
  datatype Line = Line(id: string, ref: string, ts: int, kind: Kind, data: Data)

  function Resolve(r: Line, index: Index): Option<Event>
    requires index.Valid()
  {
    var d := index.Lookup(r.ref);
    if d.None? then None else Some(Event(r.id, d.value.job, d.value.id, d.value.attempt, r.ts, r.kind, r.data))
  }

  /** The events of the rows whose references are known. */
  function Collected(rows: seq<Line>, index: Index): seq<Event>
    requires index.Valid()
  {
    if rows == [] then []
    else
      var e := Resolve(rows[|rows| - 1], index);
      Collected(rows[..|rows| - 1], index) + (if e.Some? then [e.value] else [])
  }

  method Collect(rows: seq<Line>, index: Index) returns (events: seq<Event>)
    requires index.Valid()
    ensures events == Collected(rows, index)
  {
    events := [];
    for i := 0 to |rows|
      invariant events == Collected(rows[..i], index)
    {
      assert rows[..i + 1][..i] == rows[..i];
      var decision := index.Lookup(rows[i].ref);
      if decision.None? {
        continue;
      }
      var d := decision.value;
      events := events + [Event(rows[i].id, d.job, d.id, d.attempt, rows[i].ts, rows[i].kind, rows[i].data)];
    }
    assert rows[..|rows|] == rows;
  }

  /** Rows may be repeated, but one id means one row. */
  ghost predicate OneRowPerId(rows: seq<Line>) {
    forall i, j :: 0 <= i < j < |rows| && rows[i].id == rows[j].id ==> rows[i] == rows[j]
  }

  /** What a known row's event is, under either index. */
  ghost predicate SameDecision(r: Line, early: Index, late: Index)
    requires early.Valid() && late.Valid()
  {
    Resolve(r, early).Some? ==> Resolve(r, late) == Resolve(r, early)
  }

  // ---- what is kept of events collected twice ----

  /** Collecting first some and later all keeps what one collection of all keeps, exactly when each event that was new
      the first time comes out the same the second time. */
  lemma PartsKept(log: seq<Event>, some: seq<Event>, all: seq<Event>)
    ensures First(log + some + all) == First(log + all) <==>
      forall id :: id in First(some) && id !in First(log) ==> id in First(all) && First(all)[id] == First(some)[id]
  {
    FirstConcat(log + some, all);
    FirstConcat(log, some);
    FirstConcat(log, all);
    var x, y := First(all) + (First(some) + First(log)), First(all) + First(log);
    if forall id :: id in First(some) && id !in First(log) ==> id in First(all) && First(all)[id] == First(some)[id] {
      assert x.Keys == y.Keys;
      assert x == y;
    }
    if id :| id in First(some) && id !in First(log) && (id in First(all) ==> First(all)[id] != First(some)[id]) {
      assert id in x && x[id] == First(some)[id];
      assert x != y;
    }
  }

  /** While one id means one row, the event kept for a row is its own. */
  lemma {:induction false} CollectedKeeps(rows: seq<Line>, index: Index, id: string)
    requires index.Valid() && OneRowPerId(rows)
    ensures id in First(Collected(rows, index)) <==>
      exists i :: 0 <= i < |rows| && rows[i].id == id && Resolve(rows[i], index).Some?
    ensures forall i :: 0 <= i < |rows| && rows[i].id == id && Resolve(rows[i], index).Some? ==>
      id in First(Collected(rows, index)) && Some(First(Collected(rows, index))[id]) == Resolve(rows[i], index)
  {
    if rows != [] {
      var n := |rows| - 1;
      CollectedKeeps(rows[..n], index, id);
      var before := Collected(rows[..n], index);
      var e := Resolve(rows[n], index);
      if e.Some? {
        assert (before + [e.value])[..|before|] == before && e.value.id == rows[n].id;
      } else {
        assert before + [] == before;
      }
      assert First(Collected(rows, index)) ==
        if e.None? || rows[n].id in First(before) then First(before) else First(before)[rows[n].id := e.value];
      assert forall i :: 0 <= i < n ==> rows[..n][i] == rows[i];
    }
  }

  // ---- decisions that arrive in parts ----

  /** The new events of two ingests, the second with more rows and other decisions. */
  function Twice(log: seq<Event>, rows: seq<Line>, more: seq<Line>, early: Index, late: Index): seq<Event>
    requires early.Valid() && late.Valid()
  {
    log + Fresh(log, Collected(rows, early))
      + Fresh(log + Fresh(log, Collected(rows, early)), Collected(rows + more, late))
  }

  /** Two ingests keep what one later ingest of everything keeps exactly when every row that the first one collected,
      and that was not stored yet, still means the same decision. */
  lemma DecisionsInParts(log: seq<Event>, rows: seq<Line>, more: seq<Line>, early: Index, late: Index)
    requires early.Valid() && late.Valid() && OneRowPerId(rows + more)
    ensures First(Twice(log, rows, more, early, late)) == First(log + Fresh(log, Collected(rows + more, late))) <==>
      forall i :: 0 <= i < |rows| && rows[i].id !in First(log) ==> SameDecision(rows[i], early, late)
  {
    var some, all := Collected(rows, early), Collected(rows + more, late);
    TwiceKeeps(log, some, all);
    FreshKeeps(log, all);
    PartsKept(log, some, all);
    assert forall i :: 0 <= i < |rows| ==> (rows + more)[i] == rows[i];
    forall id { CollectedKeeps(rows, early, id); }
    forall id { CollectedKeeps(rows + more, late, id); }
    forall i | 0 <= i < |rows| && rows[i].id !in First(log)
      ensures SameDecision(rows[i], early, late) <==> (rows[i].id in First(some) ==>
          rows[i].id in First(all) && First(all)[rows[i].id] == First(some)[rows[i].id])
    {
      RowKept(rows, more, early, late, i);
    }
    hide First, Fresh, Collected, SameDecision, Resolve;
  }

  lemma RowKept(rows: seq<Line>, more: seq<Line>, early: Index, late: Index, i: nat)
    requires early.Valid() && late.Valid() && OneRowPerId(rows + more) && i < |rows|
    ensures var some, all := First(Collected(rows, early)), First(Collected(rows + more, late));
      SameDecision(rows[i], early, late) <==>
        (rows[i].id in some ==> rows[i].id in all && all[rows[i].id] == some[rows[i].id])
  {
    hide First, Collected, Resolve;
    assert forall j :: 0 <= j < |rows| ==> (rows + more)[j] == rows[j];
    CollectedKeeps(rows, early, rows[i].id);
    CollectedKeeps(rows + more, late, rows[i].id);
  }

  /** An ingest keeps what its collected events would keep. */
  lemma TwiceKeeps(log: seq<Event>, some: seq<Event>, all: seq<Event>)
    ensures First(log + Fresh(log, some) + Fresh(log + Fresh(log, some), all)) == First(log + some + all)
  {
    hide *;
    var stored := log + Fresh(log, some);
    FreshKeeps(stored, all);
    FreshKeeps(log, some);
    FirstConcat(stored, all);
    FirstConcat(log + some, all);
  }

  // ---- references to jobs ----

  /** More decisions: none is changed, and every job keeps its own. */
  ghost predicate Later(early: Index, late: Index) {
    && early.Valid() && late.Valid()
    && (forall id :: id in early.byId ==> id in late.byId && late.byId[id] == early.byId[id])
  }

  /** A reference to a decision never changes its meaning; one to a job does when the job has another last decision. */
  lemma ReferencesHold(r: Line, early: Index, late: Index)
    requires Later(early, late) && r.ref != ""
    ensures r.ref in early.byId ==> SameDecision(r, early, late)
    ensures r.ref !in early.byId && r.ref in early.byJob && r.ref !in late.byId && r.ref in late.byJob ==>
      (SameDecision(r, early, late) <==>
        var a, b := early.byJob[r.ref][|early.byJob[r.ref]| - 1], late.byJob[r.ref][|late.byJob[r.ref]| - 1];
        a.id == b.id && a.attempt == b.attempt)
  {
  }

  const NOTHING := Data(true, "", "", None, None, None, None, None, None, Unstated, "", None, "", None)

  /** A closeout that names its job is collected before the job's second attempt: it stays with the first one. */
  lemma LaterAttemptMoves() returns (row: Line, early: Index, late: Index)
    ensures Later(early, late) && OneRowPerId([row])
    ensures First(Twice([], [row], [], early, late)) != First([] + Fresh([], Collected([row] + [], late)))
  {
    var one := Decision("d1", "job", "", 1, None, "explore", "");
    var two := one.(id := "d2", attempt := 2);
    early := Index(map["d1" := one], map["job" := [one]]);
    late := Index(map["d1" := one, "d2" := two], map["job" := [one, two]]);
    row := Line("evt", "job", 0, Closeout, NOTHING);
    assert Resolve(row, early).value.attempt == 1 && Resolve(row, late).value.attempt == 2;
    assert !SameDecision(row, early, late) && "evt" !in First([]);
    DecisionsInParts([], [row], [], early, late);
  }
}
