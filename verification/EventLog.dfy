/** The stored event log and what counts as new (clients/route_build_outcomes.py:146-151, 224-247). */
module EventLog {
  import opened Options

  datatype Kind = Closeout | Merge | Infra | Repair | Escalation | Revert | Verdict | Metric

  datatype Direction = Up | Down | Unstated

  /** The fields of an event's data that outcomes read. */
  datatype Data = Data(ok: bool, infraReason: string, fallbackReason: string, matches: Option<bool>,
      verdict: Option<string>, expected: Option<string>, delta: Option<real>, before: Option<real>, after: Option<real>,
      direction: Direction, mergeSha: string, childJob: Option<string>, workerModel: string, wall: Option<real>)

  datatype Event = Event(id: string, job: string, decision: string, attempt: int, ts: int, kind: Kind, data: Data)

  /** The event kept for each id: the first one. */
  function First(events: seq<Event>): map<string, Event> {
    if events == [] then map[]
    else
      var rest, last := First(events[..|events| - 1]), events[|events| - 1];
      if last.id in rest then rest else rest[last.id := last]
  }

  lemma {:induction false} FirstIs(events: seq<Event>, id: string)
    ensures id in First(events) <==> exists i :: 0 <= i < |events| && events[i].id == id
    ensures id in First(events) ==>
      exists i :: 0 <= i < |events| && events[i] == First(events)[id] && events[i].id == id
                                                && forall j :: 0 <= j < i ==> events[j].id != id
  {
    if events != [] {
      var n := |events| - 1;
      FirstIs(events[..n], id);
      if i :| 0 <= i < |events| && events[i].id == id {
        assert i < n ==> events[..n][i].id == id;
      }
      if id in First(events[..n]) {
        var i :| 0 <= i < n && events[..n][i] == First(events[..n])[id] && events[..n][i].id == id
                 && forall j :: 0 <= j < i ==> events[..n][j].id != id;
        forall j | 0 <= j < i ensures events[j].id != id {
          assert events[..n][j].id != id;
        }
        assert events[i] == First(events)[id];
      } else if id == events[n].id {
        forall j | 0 <= j < n ensures events[j].id != id {
          assert events[..n][j] == events[j];
        }
      }
    }
  }

  lemma {:induction false} FirstConcat(a: seq<Event>, b: seq<Event>)
    ensures First(a + b) == First(b) + First(a)
  {
    if b == [] {
      assert a + b == a;
    } else {
      assert (a + b)[..|a + b| - 1] == a + b[..|b| - 1];
      FirstConcat(a, b[..|b| - 1]);
    }
  }

  ghost predicate Agree(a: map<string, Event>, b: map<string, Event>) {
    forall id :: id in a && id in b ==> a[id] == b[id]
  }

  ghost predicate Consistent(events: seq<Event>) {
    forall i, j :: 0 <= i < j < |events| && events[i].id == events[j].id ==> events[i] == events[j]
  }

  /** While one id means one event, order and repetition of the events are immaterial. */
  lemma OrderIrrelevant(a: seq<Event>, b: seq<Event>)
    requires Consistent(a) && forall e :: e in a <==> e in b
    ensures First(a) == First(b)
  {
    forall id ensures id in First(a) <==> id in First(b) {
      FirstIs(a, id);
      FirstIs(b, id);
      if i :| 0 <= i < |a| && a[i].id == id {
        assert a[i] in b;
      }
      if i :| 0 <= i < |b| && b[i].id == id {
        assert b[i] in a;
      }
    }
    forall id | id in First(a) ensures First(a)[id] == First(b)[id] {
      FirstIs(a, id);
      FirstIs(b, id);
      var i :| 0 <= i < |a| && a[i] == First(a)[id] && a[i].id == id;
      var j :| 0 <= j < |b| && b[j] == First(b)[id] && b[j].id == id;
      assert b[j] in a;
      var k :| 0 <= k < |a| && a[k] == b[j];
    }
  }

  /** Two batches may come in either order exactly when they give no id two meanings. */
  lemma BatchOrder(a: seq<Event>, b: seq<Event>)
    ensures First(a + b) == First(b + a) <==> Agree(First(a), First(b))
  {
    FirstConcat(a, b);
    FirstConcat(b, a);
    var x, y := First(a), First(b);
    if Agree(x, y) {
      assert y + x == x + y;
    }
    if id :| id in x && id in y && x[id] != y[id] {
      assert (y + x)[id] != (x + y)[id];
    }
  }

  // ---- what an ingest appends ----

  predicate Stored(log: seq<Event>, id: string) { exists i :: 0 <= i < |log| && log[i].id == id }

  /** The collected events whose ids are neither stored nor collected before. */
  function Fresh(log: seq<Event>, collected: seq<Event>): seq<Event> {
    if collected == [] then []
    else
      var rest, last := Fresh(log, collected[..|collected| - 1]), collected[|collected| - 1];
      if Stored(log + rest, last.id) then rest else rest + [last]
  }

  /** An ingest never changes what an id means, and adds the ids it was missing. */
  lemma {:induction false} FreshKeeps(log: seq<Event>, collected: seq<Event>)
    ensures First(log + Fresh(log, collected)) == First(log + collected)
  {
    if collected == [] {
      assert log + [] == log;
    } else {
      var rest, last := collected[..|collected| - 1], collected[|collected| - 1];
      FreshKeeps(log, rest);
      assert (log + collected)[..|log + collected| - 1] == log + rest;
      var some := log + Fresh(log, rest);
      FirstIs(some, last.id);
      assert (some + [last])[..|some|] == some;
      assert log + (Fresh(log, rest) + [last]) == some + [last];
    }
  }

  /** Everything collected is stored afterwards. */
  lemma {:induction false} FreshCovers(log: seq<Event>, collected: seq<Event>, i: nat)
    requires i < |collected|
    ensures Stored(log + Fresh(log, collected), collected[i].id)
  {
    var n := |collected| - 1;
    var rest, last := Fresh(log, collected[..n]), collected[n];
    if i < n {
      FreshCovers(log, collected[..n], i);
      StoredMore(log + rest, [last], collected[i].id);
      assert log + (rest + [last]) == (log + rest) + [last];
    } else if !Stored(log + rest, last.id) {
      assert (log + (rest + [last]))[|log + rest|] == last;
    }
  }

  lemma StoredMore(log: seq<Event>, more: seq<Event>, id: string)
    ensures Stored(log, id) ==> Stored(log + more, id)
  {
    if i :| 0 <= i < |log| && log[i].id == id {
      assert (log + more)[i].id == id;
    }
  }

  lemma {:induction false} NothingFresh(log: seq<Event>, collected: seq<Event>)
    requires forall i :: 0 <= i < |collected| ==> Stored(log, collected[i].id)
    ensures Fresh(log, collected) == []
  {
    if collected != [] {
      var n := |collected| - 1;
      forall i | 0 <= i < n ensures Stored(log, collected[..n][i].id) {
        assert collected[..n][i] == collected[i];
      }
      NothingFresh(log, collected[..n]);
      assert log + [] == log;
    }
  }

  /** Ingesting the same sources again appends nothing. */
  lemma IngestTwice(log: seq<Event>, collected: seq<Event>)
    ensures Fresh(log + Fresh(log, collected), collected) == []
  {
    forall i | 0 <= i < |collected| ensures Stored(log + Fresh(log, collected), collected[i].id) {
      FreshCovers(log, collected, i);
    }
    NothingFresh(log + Fresh(log, collected), collected);
  }

  /** Two partial ingests append, in the same order, what one ingest of both parts appends. */
  lemma {:induction false} IngestInParts(log: seq<Event>, a: seq<Event>, b: seq<Event>)
    ensures Fresh(log, a + b) == Fresh(log, a) + Fresh(log + Fresh(log, a), b)
  {
    if b == [] {
      assert a + b == a;
    } else {
      var n := |b| - 1;
      IngestInParts(log, a, b[..n]);
      assert (a + b)[..|a + b| - 1] == a + b[..n];
      var x, y := Fresh(log, a), Fresh(log + Fresh(log, a), b[..n]);
      assert log + (x + y) == (log + x) + y;
      assert (x + y) + [b[n]] == x + (y + [b[n]]);
    }
  }
}
