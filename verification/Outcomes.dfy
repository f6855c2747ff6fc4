/**
 * Folding the event log into one outcome per job (clients/route_build_outcomes.py:52-247,
 * clients/route_workflow_args.py:310-346).
 */
module Outcomes {
  import opened Options
  import opened Ordering
  import opened EventLog
  import opened DecisionIndex

  const REPAIR_WINDOW := 72 * 3600
  const REDISPATCH_WINDOW := 2 * 3600

  datatype Status = Pending | InfraFailure | Accepted | Rejected

  datatype Rule = MergedNoRepair | VerdictMatches | MetricMoved | CloseoutOk

  function RuleFor(class_: string): Rule {
    if class_ in {"implement", "mechanical", "ui"} then MergedNoRepair
    else if class_ in {"verify", "review", "audit", "judge"} then VerdictMatches
    else if class_ in {"decide"} then MetricMoved
    else CloseoutOk
  }

  /** A job's decisions, and its events by time and id. */
  datatype View = View(job: string, decisions: seq<Decision>, events: seq<Event>)

  function Of(events: seq<Event>, kinds: set<Kind>): seq<Event> {
    if events == [] then []
    else Of(events[..|events| - 1], kinds) + (if events[|events| - 1].kind in kinds then [events[|events| - 1]] else [])
  }

  /** `attempt or 1`. */
  function Nth(attempt: int): int { if attempt == 0 then 1 else attempt }

  function LastAttempt(decisions: seq<Decision>): int
    requires decisions != []
  {
    var n := |decisions| - 1;
    if n == 0 then Nth(decisions[0].attempt)
    else if LastAttempt(decisions[..n]) >= Nth(decisions[n].attempt) then LastAttempt(decisions[..n])
    else Nth(decisions[n].attempt)
  }

  // ---- the status of a job ----

  predicate Failed(view: View)
    requires view.decisions != []
  {
    var closeouts := Of(view.events, {Closeout});
    closeouts != [] && !closeouts[|closeouts| - 1].data.ok && !Awaiting(view)
  }

  /** The last attempt has not been closed out. */
  predicate Awaiting(view: View)
    requires view.decisions != []
  {
    var closeouts := Of(view.events, {Closeout});
    closeouts == [] || Nth(closeouts[|closeouts| - 1].attempt) < LastAttempt(view.decisions)
  }

  predicate Troubled(events: seq<Event>, horizon: Option<int>) {
    exists i :: 0 <= i < |events| && events[i].kind in {Repair, Escalation, Revert}
      && (horizon.None? || events[i].ts <= horizon.value)
  }

  predicate Matches(data: Data) {
    if data.matches.Some? then data.matches.value else data.verdict.Some? && data.verdict == data.expected
  }

  predicate Moved(data: Data) {
    var delta := if data.delta.Some? then data.delta
                 else if data.before.Some? && data.after.Some? then Some(data.after.value - data.before.value)
                 else None;
    delta.Some? && ((data.direction == Up && delta.value > 0.0) || (data.direction == Down && delta.value < 0.0))
  }

  /** Another job of the same caller and class began within two hours of the close. */
  predicate Redispatched(view: View, index: Index, closed: int)
    requires view.decisions != []
  {
    view.decisions[0].caller != ""
      && exists job :: job in index.byJob && index.byJob[job] != [] && Rival(view, index.byJob[job][0], closed)
  }

  predicate Rival(view: View, other: Decision, closed: int)
    requires view.decisions != []
  {
    && other.job != view.job && other.caller == view.decisions[0].caller && other.class_ == view.decisions[0].class_
    && other.ts.Some? && closed < other.ts.value <= closed + REDISPATCH_WINDOW
  }

  function JobStatus(view: View, index: Index, now: int): Status
    requires view.decisions != []
  {
    var closeouts, merges := Of(view.events, {Closeout}), Of(view.events, {Merge});
    var rule := RuleFor(view.decisions[0].class_);
    if closeouts == [] && merges == [] then
      if exists i :: 0 <= i < |view.events| && view.events[i].kind == Infra && view.events[i].data.infraReason != ""
      then InfraFailure else Pending
    else if rule == MergedNoRepair then
      var horizon := if merges == [] then None else Some(merges[0].ts + REPAIR_WINDOW);
      if Troubled(view.events, horizon) then Rejected
      else if horizon.Some? then if now >= horizon.value then Accepted else Pending
      else if Failed(view) then Rejected else Pending
    else if Of(view.events, {Repair, Escalation}) != [] then Rejected
    else if rule == VerdictMatches then
      var verdicts := Of(view.events, {Verdict});
      if verdicts != [] then if Matches(verdicts[|verdicts| - 1].data) then Accepted else Rejected
      else if Failed(view) then Rejected else Pending
    else if rule == MetricMoved then
      var metrics := Of(view.events, {Metric});
      if metrics != [] then if Moved(metrics[|metrics| - 1].data) then Accepted else Rejected
      else if Failed(view) then Rejected else Pending
    else if Failed(view) then Rejected
    else if Awaiting(view) then Pending
    else
      var closed := closeouts[|closeouts| - 1].ts;
      if Redispatched(view, index, closed) then Rejected
      else if now >= closed + REDISPATCH_WINDOW then Accepted else Pending
  }

  /** Time alone only ever turns pending into accepted. */
  lemma TimeOnlyAccepts(view: View, index: Index, now: int, later: int)
    requires view.decisions != [] && now <= later
    ensures JobStatus(view, index, later) == JobStatus(view, index, now)
         || (JobStatus(view, index, now) == Pending && JobStatus(view, index, later) == Accepted)
  {
  }

  lemma {:induction false} OfIn(events: seq<Event>, kinds: set<Kind>, e: Event)
    ensures e in Of(events, kinds) <==> e in events && e.kind in kinds
  {
    if events != [] {
      assert events == events[..|events| - 1] + [events[|events| - 1]];
      OfIn(events[..|events| - 1], kinds, e);
    }
  }

  /** The kept events stay in order. */
  lemma {:induction false} OfAscending(events: seq<Event>, kinds: set<Kind>)
    requires Ascending(events, ByTime())
    ensures Ascending(Of(events, kinds), ByTime())
  {
    if events != [] {
      var rest, last := events[..|events| - 1], events[|events| - 1];
      OfAscending(rest, kinds);
      forall i | 0 <= i < |Of(rest, kinds)| ensures Before(ByTime()(Of(rest, kinds)[i]), ByTime()(last)) {
        OfIn(rest, kinds, Of(rest, kinds)[i]);
        assert Of(rest, kinds)[i] in Of(rest, kinds);
        var j :| 0 <= j < |rest| && rest[j] == Of(rest, kinds)[i];
        assert events[j] == rest[j];
      }
    }
  }

  /** The last closeout is the one with the latest time and id. */
  lemma LastIsLatest(events: seq<Event>, kinds: set<Kind>, e: Event)
    requires Ascending(events, ByTime()) && e in events && e.kind in kinds
    ensures Of(events, kinds) != []
    ensures var last := Of(events, kinds)[|Of(events, kinds)| - 1]; last == e || Before(ByTime()(e), ByTime()(last))
  {
    OfIn(events, kinds, e);
    OfAscending(events, kinds);
    var k :| 0 <= k < |Of(events, kinds)| && Of(events, kinds)[k] == e;
  }

  /** The last of the kept events is the one that no other follows. */
  lemma LastIs(events: seq<Event>, kinds: set<Kind>, last: Event)
    requires Ascending(events, ByTime()) && last in events && last.kind in kinds
    requires forall e :: e in events && e.kind in kinds && e != last ==> Before(ByTime()(e), ByTime()(last))
    ensures Of(events, kinds) != [] && Of(events, kinds)[|Of(events, kinds)| - 1] == last
  {
    LastIsLatest(events, kinds, last);
    var kept := Of(events, kinds);
    var final := kept[|kept| - 1];
    OfIn(events, kinds, final);
    assert final in kept;
    BeforeTotal(ByTime()(final), ByTime()(last));
  }

  // ---- what each status means, of the set of a job's events ----

  ghost predicate Has(view: View, kinds: set<Kind>) { exists e :: e in view.events && e.kind in kinds }

  /** The event of this kind that no other of the kind follows. */
  ghost predicate LatestOf(view: View, kind: Kind, last: Event) {
    && last in view.events && last.kind == kind
    && forall e :: e in view.events && e.kind == kind && e != last ==> Before(ByTime()(e), ByTime()(last))
  }

  /** The close is of the highest attempt; an attempt without a number is the first. */
  ghost predicate ClosesAll(view: View, close: Event) {
    forall i :: 0 <= i < |view.decisions| ==> Attempt(view.decisions[i].attempt) <= Attempt(close.attempt)
  }

  ghost function Attempt(n: int): int { if n != 0 then n else 1 }

  /** The latest close is of the highest attempt, and bad. */
  ghost predicate ClosedBadly(view: View) {
    exists close :: LatestOf(view, Closeout, close) && !close.data.ok && ClosesAll(view, close)
  }

  lemma {:induction false} LastAttemptIs(decisions: seq<Decision>, n: int)
    requires decisions != []
    ensures LastAttempt(decisions) <= n <==> forall i :: 0 <= i < |decisions| ==> Attempt(decisions[i].attempt) <= n
  {
    var k := |decisions| - 1;
    if k > 0 {
      LastAttemptIs(decisions[..k], n);
      assert forall i :: 0 <= i < k ==> decisions[..k][i] == decisions[i];
    }
  }

  lemma {:induction false} SomeLatest(view: View, kind: Kind) returns (last: Event)
    requires Ascending(view.events, ByTime()) && Has(view, {kind})
    ensures LatestOf(view, kind, last)
    ensures Of(view.events, {kind}) != [] && Of(view.events, {kind})[|Of(view.events, {kind})| - 1] == last
  {
    NoneOf(view.events, {kind});
    var kept := Of(view.events, {kind});
    last := kept[|kept| - 1];
    OfIn(view.events, {kind}, last);
    assert last in kept;
    forall e | e in view.events && e.kind == kind && e != last ensures Before(ByTime()(e), ByTime()(last)) {
      LastIsLatest(view.events, {kind}, e);
    }
  }

  lemma LatestIs(view: View, kind: Kind, last: Event)
    requires Ascending(view.events, ByTime()) && LatestOf(view, kind, last)
    ensures Of(view.events, {kind}) != [] && Of(view.events, {kind})[|Of(view.events, {kind})| - 1] == last
  {
    LastIs(view.events, {kind}, last);
  }

  lemma HasNone(view: View, kinds: set<Kind>)
    ensures Of(view.events, kinds) == [] <==> !Has(view, kinds)
  {
    NoneOf(view.events, kinds);
  }

  lemma EitherIs(view: View)
    ensures Has(view, {Closeout, Merge}) <==> Has(view, {Closeout}) || Has(view, {Merge})
  {
  }

  /** The fold's last close, and what it makes of it. */
  lemma CloseIs(view: View)
    requires view.decisions != [] && Ascending(view.events, ByTime())
    ensures Failed(view) <==> ClosedBadly(view)
    ensures Awaiting(view) <==> !exists close :: LatestOf(view, Closeout, close) && ClosesAll(view, close)
    ensures Of(view.events, {Closeout}) == [] <==> !Has(view, {Closeout})
    ensures Of(view.events, {Merge}) == [] <==> !Has(view, {Merge})
    ensures Of(view.events, {Repair, Escalation}) == [] <==> !Has(view, {Repair, Escalation})
  {
    NoneOf(view.events, {Closeout});
    NoneOf(view.events, {Merge});
    NoneOf(view.events, {Repair, Escalation});
    if Has(view, {Closeout}) {
      var last := SomeLatest(view, Closeout);
      LastAttemptIs(view.decisions, Nth(last.attempt));
      forall close | LatestOf(view, Closeout, close) ensures close == last {
        BeforeTotal(ByTime()(close), ByTime()(last));
      }
    }
  }

  /** Neither closed nor merged: pending, unless an infrastructure failure gave a reason. */
  lemma OpenWork(view: View, index: Index, now: int)
    requires view.decisions != [] && !Has(view, {Closeout, Merge})
    ensures JobStatus(view, index, now) ==
      if exists e :: e in view.events && e.kind == Infra && e.data.infraReason != "" then InfraFailure else Pending
  {
    NoneOf(view.events, {Closeout});
    NoneOf(view.events, {Merge});
    hide Of;
  }

  /** Merged work is rejected when a repair, escalation or revert came by 72 hours after the earliest merge, accepted
      when these hours have passed without, and pending before. */
  lemma MergedWork(view: View, index: Index, now: int, merge: Event)
    requires view.decisions != [] && view.decisions[0].class_ in {"implement", "mechanical", "ui"}
    requires Ascending(view.events, ByTime()) && merge in view.events && merge.kind == Merge
      && forall e :: e in view.events && e.kind == Merge ==> merge.ts <= e.ts
    ensures JobStatus(view, index, now) ==
      if exists e :: e in view.events && e.kind in {Repair, Escalation, Revert} && e.ts - merge.ts <= 259_200
      then Rejected else if now - merge.ts >= 259_200 then Accepted else Pending
  {
    var merges := Of(view.events, {Merge});
    OfIn(view.events, {Merge}, merge);
    OfAscending(view.events, {Merge});
    OfIn(view.events, {Merge}, merges[0]);
    assert merges[0] in merges;
    var k :| 0 <= k < |merges| && merges[k] == merge;
    assert k > 0 ==> Before(ByTime()(merges[0]), ByTime()(merges[k]));
    assert merges[0].ts == merge.ts;
    TroubledIs(view, Some(merge.ts + REPAIR_WINDOW));
    hide Of;
  }

  lemma TroubledIs(view: View, horizon: Option<int>)
    ensures Troubled(view.events, horizon) <==>
      exists e :: e in view.events && e.kind in {Repair, Escalation, Revert}
                  && (horizon.Some? ==> e.ts <= horizon.value)
  {
    if e :| (e in view.events && e.kind in {Repair, Escalation, Revert}
             && (horizon.Some? ==> e.ts <= horizon.value)) {
      var i :| 0 <= i < |view.events| && view.events[i] == e;
      assert Troubled(view.events, horizon);
    }
  }

  /** Work of a merge class that is closed and not merged is rejected after any repair, escalation or revert or a bad
      close of its last attempt, and pending otherwise. */
  lemma UnmergedWork(view: View, index: Index, now: int)
    requires view.decisions != [] && view.decisions[0].class_ in {"implement", "mechanical", "ui"}
    requires Ascending(view.events, ByTime()) && Has(view, {Closeout}) && !Has(view, {Merge})
    ensures JobStatus(view, index, now) ==
      if Has(view, {Repair, Escalation, Revert}) || ClosedBadly(view) then Rejected else Pending
  {
    CloseIs(view);
    TroubledIs(view, None);
    hide Of, Failed, ClosedBadly, Troubled;
  }

  /** Any other work that was closed or merged is rejected after a repair or escalation. */
  lemma RepairedWork(view: View, index: Index, now: int)
    requires view.decisions != [] && view.decisions[0].class_ !in {"implement", "mechanical", "ui"}
    requires Ascending(view.events, ByTime()) && Has(view, {Closeout, Merge}) && Has(view, {Repair, Escalation})
    ensures JobStatus(view, index, now) == Rejected
  {
    CloseIs(view);
    hide Of, Failed, Troubled, Awaiting;
  }

  /** Review work is what its latest verdict says. */
  lemma VerdictWork(view: View, index: Index, now: int, verdict: Event)
    requires view.decisions != [] && view.decisions[0].class_ in {"verify", "review", "audit", "judge"}
    requires Ascending(view.events, ByTime()) && Has(view, {Closeout, Merge}) && !Has(view, {Repair, Escalation})
    requires LatestOf(view, Verdict, verdict)
    ensures JobStatus(view, index, now) ==
      if verdict.data.matches == Some(true)
        || (verdict.data.matches == None && verdict.data.verdict != None
            && verdict.data.verdict == verdict.data.expected)
      then Accepted else Rejected
  {
    hide Of, Failed, Troubled, Awaiting, Moved, Redispatched, LatestOf, Has, Ascending;
    CloseIs(view);
    EitherIs(view);
    LatestIs(view, Verdict, verdict);
  }

  /** The change that a metric reports: as stated, or from before to after. */
  ghost function Change(data: Data): Option<real> {
    match data.delta
    case Some(delta) => Some(delta)
    case None => if data.before == None || data.after == None then None
                 else Some(data.after.value - data.before.value)
  }

  lemma MovedIs(data: Data)
    ensures Moved(data) <==>
      && Change(data) != None
      && ((data.direction == Up && Change(data).value > 0.0) || (data.direction == Down && Change(data).value < 0.0))
  {
  }

  /** Work with a metric is accepted when its latest metric moved the way it was to, and rejected otherwise. */
  lemma MetricWork(view: View, index: Index, now: int, metric: Event)
    requires view.decisions != [] && view.decisions[0].class_ == "decide"
    requires Ascending(view.events, ByTime()) && Has(view, {Closeout, Merge}) && !Has(view, {Repair, Escalation})
    requires LatestOf(view, Metric, metric)
    ensures JobStatus(view, index, now) ==
      match Change(metric.data)
      case None => Rejected
      case Some(change) =>
        if metric.data.direction == Up && change > 0.0 then Accepted
        else if metric.data.direction == Down && change < 0.0 then Accepted
        else Rejected
  {
    hide Of, Failed, Troubled, Awaiting, Moved, Matches, Redispatched, LatestOf, Change, Has, Ascending;
    CloseIs(view);
    EitherIs(view);
    LatestIs(view, Metric, metric);
    MovedIs(metric.data);
  }

  /** Without a verdict or a metric such work is rejected on a bad close of its last attempt and pending otherwise. */
  lemma UnjudgedWork(view: View, index: Index, now: int)
    requires view.decisions != []
      && ((view.decisions[0].class_ in {"verify", "review", "audit", "judge"} && !Has(view, {Verdict}))
          || (view.decisions[0].class_ == "decide" && !Has(view, {Metric})))
    requires Ascending(view.events, ByTime()) && Has(view, {Closeout, Merge}) && !Has(view, {Repair, Escalation})
    ensures JobStatus(view, index, now) == if ClosedBadly(view) then Rejected else Pending
  {
    hide Of, Failed, ClosedBadly, Troubled, Awaiting, Moved, Matches, Redispatched, Has, Ascending;
    CloseIs(view);
    HasNone(view, {Verdict});
    HasNone(view, {Metric});
    EitherIs(view);
  }

  ghost predicate OrdinaryClass(class_: string) {
    class_ !in {"implement", "mechanical", "ui", "verify", "review", "audit", "judge", "decide"}
  }

  /** Another job of the same caller and class was first dispatched within two hours after a moment. */
  ghost predicate Taken(view: View, index: Index, moment: int)
    requires view.decisions != []
  {
    exists job, other :: job in index.byJob && index.byJob[job] != [] && other == index.byJob[job][0]
      && other.job != view.job && other.class_ == view.decisions[0].class_
      && view.decisions[0].caller == other.caller && other.caller != ""
      && other.ts != None && 0 < other.ts.value - moment <= 7_200
  }

  /** Ordinary work, closed and never repaired: rejected on a bad close of its last attempt or when somebody else took
      it up within two hours of a good one, accepted when these hours have passed without, and pending before, or while
      its last attempt is not closed. */
  lemma ClosedWork(view: View, index: Index, now: int, close: Event)
    requires view.decisions != [] && OrdinaryClass(view.decisions[0].class_)
    requires Ascending(view.events, ByTime()) && !Has(view, {Repair, Escalation}) && LatestOf(view, Closeout, close)
    ensures JobStatus(view, index, now) ==
      if !ClosesAll(view, close) then Pending
      else if !close.data.ok || Taken(view, index, close.ts) then Rejected
      else if now - close.ts >= 7_200 then Accepted else Pending
  {
    CloseIs(view);
    LastIs(view.events, {Closeout}, close);
    forall other | LatestOf(view, Closeout, other) ensures other == close {
      BeforeTotal(ByTime()(other), ByTime()(close));
    }
    TakenIs(view, index, close.ts);
    hide Of, Failed, Awaiting, Troubled, Redispatched, Taken, ClosesAll, LatestOf;
  }

  lemma TakenIs(view: View, index: Index, moment: int)
    requires view.decisions != []
    ensures Redispatched(view, index, moment) <==> Taken(view, index, moment)
  {
    if Redispatched(view, index, moment) {
      var job :| job in index.byJob && index.byJob[job] != [] && Rival(view, index.byJob[job][0], moment);
      var other := index.byJob[job][0];
      assert other.ts != None && 0 < other.ts.value - moment <= 7_200;
    }
    if Taken(view, index, moment) {
      var job, other :| job in index.byJob && index.byJob[job] != [] && other == index.byJob[job][0]
        && other.job != view.job && other.class_ == view.decisions[0].class_
        && view.decisions[0].caller == other.caller && other.caller != ""
        && other.ts != None && 0 < other.ts.value - moment <= 7_200;
      assert Rival(view, index.byJob[job][0], moment);
    }
  }

  /** Ordinary work that was merged and never closed waits. */
  lemma UnclosedWork(view: View, index: Index, now: int)
    requires view.decisions != [] && OrdinaryClass(view.decisions[0].class_)
    requires Ascending(view.events, ByTime()) && !Has(view, {Repair, Escalation})
    requires Has(view, {Merge}) && !Has(view, {Closeout})
    ensures JobStatus(view, index, now) == Pending
  {
    CloseIs(view);
    hide Of;
  }

  lemma NoneOf(events: seq<Event>, kinds: set<Kind>)
    ensures Of(events, kinds) == [] <==> forall e :: e in events ==> e.kind !in kinds
  {
    forall e {
      OfIn(events, kinds, e);
    }
    if Of(events, kinds) != [] {
      assert Of(events, kinds)[0] in Of(events, kinds);
    }
  }

  // ---- rows ----

  datatype Row = Row(job: string, decisions: seq<string>, status: Status, ts: Option<int>, repairs: nat,
      escalations: nat, infraReason: string, mergeShas: set<string>, children: set<string>, workerModel: string,
      wall: Option<real>, settled: bool, evidence: seq<string>)

  function ByTime(): Event -> Key { (e: Event) => (e.ts, e.id) }

  function ByName(): string -> Key { (job: string) => (0, job) }

  function ByJob(): Row -> Key { (row: Row) => (0, row.job) }

  /** The latest nonempty model name that a closeout or a failure reports. */
  function Latest(events: seq<Event>): string {
    if events == [] then ""
    else
      var last := events[|events| - 1];
      if last.kind in {Closeout, Infra} && last.data.workerModel != "" then last.data.workerModel
      else Latest(events[..|events| - 1])
  }

  function Reason(e: Event): string { if e.data.infraReason != "" then e.data.infraReason else e.data.fallbackReason }

  function LastReason(events: seq<Event>): string {
    if events == [] then ""
    else
      var last := events[|events| - 1];
      if last.kind == Infra && Reason(last) != "" then Reason(last) else LastReason(events[..|events| - 1])
  }

  function Wall(events: seq<Event>): Option<real> {
    if events == [] then None
    else
      var rest, last := Wall(events[..|events| - 1]), events[|events| - 1];
      if last.kind !in {Closeout, Infra} || last.data.wall.None? then rest
      else if rest.None? then last.data.wall else Some(rest.value + last.data.wall.value)
  }

  function RowOf(view: View, index: Index, now: int): Row
    requires view.decisions != []
  {
    var events := view.events;
    var closed := set i | 0 <= i < |events| && events[i].kind in {Closeout, Infra} :: events[i].decision;
    Row(view.job,
        seq(|view.decisions|, i requires 0 <= i < |view.decisions| => view.decisions[i].id),
        JobStatus(view, index, now),
        if events != [] then Some(events[|events| - 1].ts) else view.decisions[0].ts,
        |Of(events, {Repair})|, |Of(events, {Escalation})|,
        LastReason(events),
        set i | 0 <= i < |events| && events[i].kind == Merge :: events[i].data.mergeSha,
        set i | 0 <= i < |events| && events[i].kind in {Repair, Escalation} && events[i].data.childJob.Some?
                && events[i].data.childJob.value in index.byJob && events[i].data.childJob.value != view.job ::
                     events[i].data.childJob.value,
        Latest(events),
        Wall(events),
        forall i :: 0 <= i < |view.decisions| ==> view.decisions[i].id in closed,
        seq(|events|, i requires 0 <= i < |events| => events[i].id))
  }

  // ---- what the fields of a row mean, of the set of a job's events ----

  /** How many events of a kind there are, and when the last event was. */
  lemma RowCounts(view: View, index: Index, now: int)
    requires view.decisions != [] && Ascending(view.events, ByTime())
    ensures var row := RowOf(view, index, now);
      && row.repairs == |set e | e in view.events && e.kind == Repair|
      && row.escalations == |set e | e in view.events && e.kind == Escalation|
      && (view.events == [] ==> row.ts == view.decisions[0].ts)
      && (view.events != [] ==> row.ts != None && (forall e :: e in view.events ==> e.ts <= row.ts.value)
                                && exists e :: e in view.events && e.ts == row.ts.value)
  {
    CountOf(view.events, Repair);
    CountOf(view.events, Escalation);
    if view.events != [] {
      var last := view.events[|view.events| - 1];
      forall e | e in view.events ensures e.ts <= last.ts {
        var i :| 0 <= i < |view.events| && view.events[i] == e;
        assert i < |view.events| - 1 ==> Before(ByTime()(e), ByTime()(last));
      }
      assert last in view.events;
    }
    hide Of, JobStatus, LastReason, Latest, Wall;
  }

  lemma {:induction false} CountOf(events: seq<Event>, kind: Kind)
    requires Ascending(events, ByTime())
    ensures |Of(events, {kind})| == |set e | e in events && e.kind == kind|
  {
    if events != [] {
      var rest, last := events[..|events| - 1], events[|events| - 1];
      LastIsNew(events);
      CountOf(rest, kind);
      OneMore(rest, last, kind);
      assert events == rest + [last];
      hide Ascending;
    }
  }

  lemma LastIsNew(events: seq<Event>)
    requires Ascending(events, ByTime()) && events != []
    ensures events[|events| - 1] !in events[..|events| - 1]
    ensures Ascending(events[..|events| - 1], ByTime())
  {
    var rest, last := events[..|events| - 1], events[|events| - 1];
    if last in rest {
      var i :| 0 <= i < |rest| && rest[i] == last;
      assert Before(ByTime()(events[i]), ByTime()(last));
      BeforeTotal(ByTime()(last), ByTime()(last));
    }
  }

  lemma OneMore(rest: seq<Event>, last: Event, kind: Kind)
    requires last !in rest
    ensures |set e | e in rest + [last] && e.kind == kind| ==
      |set e | e in rest && e.kind == kind| + (if last.kind == kind then 1 else 0)
  {
    var before := set e | e in rest && e.kind == kind;
    assert (set e | e in rest + [last] && e.kind == kind) == before + (if last.kind == kind then {last} else {});
  }

  /** Which decisions, commits and child jobs a row names, and whether every decision was closed or failed. */
  lemma RowNames(view: View, index: Index, now: int)
    requires view.decisions != []
    ensures var row := RowOf(view, index, now);
      && row.job == view.job && |row.decisions| == |view.decisions| && |row.evidence| == |view.events|
      && (forall i :: 0 <= i < |view.decisions| ==> row.decisions[i] == view.decisions[i].id)
      && (forall i :: 0 <= i < |view.events| ==> row.evidence[i] == view.events[i].id)
      && (forall sha :: sha in row.mergeShas <==>
            exists e :: e in view.events && e.kind == Merge && e.data.mergeSha == sha)
      && (forall child :: child in row.children <==>
            child in index.byJob && child != view.job
            && exists e :: e in view.events && (e.kind == Repair || e.kind == Escalation)
                           && e.data.childJob == Some(child))
      && (row.settled <==> forall d :: d in view.decisions ==>
            exists e :: e in view.events && (e.kind == Closeout || e.kind == Infra) && e.decision == d.id)
  {
    hide JobStatus, LastReason, Latest, Wall, Of;
    var row := RowOf(view, index, now);
    forall sha ensures sha in row.mergeShas <==>
        exists e :: e in view.events && e.kind == Merge && e.data.mergeSha == sha {
      if e :| e in view.events && e.kind == Merge && e.data.mergeSha == sha {
        var i :| 0 <= i < |view.events| && view.events[i] == e;
      }
    }
    forall e, child | e in view.events && (e.kind == Repair || e.kind == Escalation) && e.data.childJob == Some(child)
        && child in index.byJob && child != view.job
      ensures child in row.children {
      var i :| 0 <= i < |view.events| && view.events[i] == e;
    }
    var closed := set i | 0 <= i < |view.events| && view.events[i].kind in {Closeout, Infra} :: view.events[i].decision;
    forall d ensures d in closed <==>
        exists e :: e in view.events && (e.kind == Closeout || e.kind == Infra) && e.decision == d {
      if e :| e in view.events && (e.kind == Closeout || e.kind == Infra) && e.decision == d {
        var i :| 0 <= i < |view.events| && view.events[i] == e;
      }
    }
    if row.settled {
      forall d | d in view.decisions ensures d.id in closed {
        var i :| 0 <= i < |view.decisions| && view.decisions[i] == d;
      }
    } else {
      var i :| 0 <= i < |view.decisions| && view.decisions[i].id !in closed;
      assert view.decisions[i] in view.decisions;
    }
  }

  /** The last event with something to tell: none after it has. */
  ghost predicate LastWith(events: seq<Event>, tells: Event -> bool, k: nat) {
    k < |events| && tells(events[k]) && forall i :: k < i < |events| ==> !tells(events[i])
  }

  /** The row's model and failure reason are the last that an event reports. */
  lemma {:induction false} RowReports(events: seq<Event>)
    ensures Latest(events) != "" ==> exists k: nat ::
      LastWith(events, (e: Event) => (e.kind == Closeout || e.kind == Infra) && e.data.workerModel != "", k)
      && Latest(events) == events[k].data.workerModel
    ensures Latest(events) == "" ==>
      forall e :: e in events && (e.kind == Closeout || e.kind == Infra) ==> e.data.workerModel == ""
    ensures LastReason(events) != "" ==> exists k: nat ::
      LastWith(events, (e: Event) => e.kind == Infra && (e.data.infraReason != "" || e.data.fallbackReason != ""), k)
      && LastReason(events) == if events[k].data.infraReason == "" then events[k].data.fallbackReason
                               else events[k].data.infraReason
    ensures LastReason(events) == "" ==>
      forall e :: e in events && e.kind == Infra ==> e.data.infraReason == "" && e.data.fallbackReason == ""
  {
    if events != [] {
      var rest, last := events[..|events| - 1], events[|events| - 1];
      RowReports(rest);
      assert events == rest + [last];
      LastStays(rest, last, (e: Event) => (e.kind == Closeout || e.kind == Infra) && e.data.workerModel != "");
      LastStays(rest, last,
        (e: Event) => e.kind == Infra && (e.data.infraReason != "" || e.data.fallbackReason != ""));
    }
  }

  lemma LastStays(rest: seq<Event>, last: Event, tells: Event -> bool)
    ensures tells(last) ==> LastWith(rest + [last], tells, |rest|)
    ensures forall k: nat :: !tells(last) && LastWith(rest, tells, k) ==> LastWith(rest + [last], tells, k)
  {
  }

  /** Wall time adds up over the closes and failures that report one. */
  lemma {:induction false} WallAdds(a: seq<Event>, b: seq<Event>)
    ensures Wall(a + b) == match (Wall(a), Wall(b))
      case (None, w) => w
      case (w, None) => w
      case (Some(x), Some(y)) => Some(x + y)
  {
    if b == [] {
      assert a + b == a;
    } else {
      assert (a + b)[..|a + b| - 1] == a + b[..|b| - 1];
      WallAdds(a, b[..|b| - 1]);
    }
  }

  lemma WallOne(e: Event)
    ensures Wall([e]) == if e.kind == Closeout || e.kind == Infra then e.data.wall else None
  {
    assert [e][..0] == [];
  }

  /** The events a job owns among the kept ones. */
  function Owned(kept: map<string, Event>, job: string): set<Event> {
    set id | id in kept && kept[id].job == job :: kept[id]
  }

  ghost predicate IsRow(kept: map<string, Event>, index: Index, now: int, row: Row) {
    && row.job in index.byJob && index.byJob[row.job] != []
    && exists events: seq<Event> ::
         Sorts(Owned(kept, row.job), events, ByTime())
         && row == RowOf(View(row.job, index.byJob[row.job], events), index, now)
  }

  /** One row for each job of the index, by name, made from the kept events alone. */
  ghost predicate AreRows(kept: map<string, Event>, index: Index, now: int, rows: seq<Row>) {
    && Ascending(rows, ByJob())
    && (forall i :: 0 <= i < |rows| ==> IsRow(kept, index, now, rows[i]))
    && (set i | 0 <= i < |rows| :: rows[i].job) == index.byJob.Keys
  }

  lemma RowIsUnique(kept: map<string, Event>, index: Index, now: int, a: Row, b: Row)
    requires IsRow(kept, index, now, a) && IsRow(kept, index, now, b) && a.job == b.job
    ensures a == b
  {
    var s: seq<Event> :| Sorts(Owned(kept, a.job), s, ByTime())
      && a == RowOf(View(a.job, index.byJob[a.job], s), index, now);
    var t: seq<Event> :| Sorts(Owned(kept, b.job), t, ByTime())
      && b == RowOf(View(b.job, index.byJob[b.job], t), index, now);
    SortingIsUnique(Owned(kept, a.job), s, t, ByTime());
  }

  /** The outcomes are a function of the kept events, the decisions and the time. */
  lemma RowsAreUnique(kept: map<string, Event>, index: Index, now: int, a: seq<Row>, b: seq<Row>)
    requires AreRows(kept, index, now, a) && AreRows(kept, index, now, b)
    ensures a == b
  {
    RowsWithin(kept, index, now, a, b);
    RowsWithin(kept, index, now, b, a);
    hide IsRow;
    SortingIsUnique(Elements(a), a, b, ByJob());
  }

  lemma RowsWithin(kept: map<string, Event>, index: Index, now: int, a: seq<Row>, b: seq<Row>)
    requires AreRows(kept, index, now, a) && AreRows(kept, index, now, b)
    ensures Elements(a) <= Elements(b)
  {
    hide RowOf, Sorts;
    forall row | row in a ensures row in b {
      var i :| 0 <= i < |a| && a[i] == row;
      assert a[i].job in set i | 0 <= i < |a| :: a[i].job;
      assert a[i].job in set i | 0 <= i < |b| :: b[i].job;
      var j :| 0 <= j < |b| && b[j].job == row.job;
      RowIsUnique(kept, index, now, a[i], b[j]);
    }
  }

  /** Any order, repetition or batching of consistent events gives the same outcomes. */
  lemma OutcomesIgnoreOrder(a: seq<Event>, b: seq<Event>, index: Index, now: int, x: seq<Row>, y: seq<Row>)
    requires Consistent(a) && forall e :: e in a <==> e in b
    requires AreRows(First(a), index, now, x) && AreRows(First(b), index, now, y)
    ensures x == y
  {
    OrderIrrelevant(a, b);
    RowsAreUnique(First(a), index, now, x, y);
  }

  /** Two sets of kept events give the same outcomes exactly when every job's sorted events give the same row. */
  lemma SameOutcomes(a: map<string, Event>, b: map<string, Event>, index: Index, now: int, x: seq<Row>, y: seq<Row>)
    requires AreRows(a, index, now, x) && AreRows(b, index, now, y)
    ensures x == y <==> forall i, j :: 0 <= i < |x| && 0 <= j < |y| && x[i].job == y[j].job ==> x[i] == y[j]
    ensures (forall job :: job in index.byJob ==> Owned(a, job) == Owned(b, job)) ==> x == y
  {
    if forall job :: job in index.byJob ==> Owned(a, job) == Owned(b, job) {
      forall i | 0 <= i < |y| ensures IsRow(a, index, now, y[i]) {
        assert IsRow(b, index, now, y[i]);
      }
      RowsAreUnique(a, index, now, x, y);
    }
    if forall i, j :: 0 <= i < |x| && 0 <= j < |y| && x[i].job == y[j].job ==> x[i] == y[j] {
      SameElements(index.byJob.Keys, x, y);
    }
    if x == y {
      OneRowPerJob(x);
    }
  }

  lemma SameElements(jobs: set<string>, x: seq<Row>, y: seq<Row>)
    requires Ascending(x, ByJob()) && Ascending(y, ByJob())
    requires (set i | 0 <= i < |x| :: x[i].job) == jobs == (set i | 0 <= i < |y| :: y[i].job)
    requires forall i, j :: 0 <= i < |x| && 0 <= j < |y| && x[i].job == y[j].job ==> x[i] == y[j]
    ensures x == y
  {
    forall row ensures row in x <==> row in y {
      if i :| 0 <= i < |x| && x[i] == row {
        assert row.job in jobs;
        var j :| 0 <= j < |y| && y[j].job == row.job;
      }
      if j :| 0 <= j < |y| && y[j] == row {
        assert row.job in jobs;
        var i :| 0 <= i < |x| && x[i].job == row.job;
      }
    }
    SortingIsUnique(Elements(x), x, y, ByJob());
  }

  lemma OneRowPerJob(x: seq<Row>)
    requires Ascending(x, ByJob())
    ensures forall i, j :: 0 <= i < |x| && 0 <= j < |x| && x[i].job == x[j].job ==> i == j
  {
    forall i, j | 0 <= i < j < |x| ensures x[i].job != x[j].job {
      assert Before(ByJob()(x[i]), ByJob()(x[j]));
      LessTotal(x[i].job, x[j].job);
    }
  }

  /** Two batches leave every job of the index the same events in either order exactly when each id that they give two
      contents belongs, in both, to a job the index does not know. */
  lemma ConflictsReach(a: seq<Event>, b: seq<Event>, index: Index)
    ensures (forall job :: job in index.byJob ==> Owned(First(a + b), job) == Owned(First(b + a), job)) <==>
            (forall id :: id in First(a) && id in First(b) && First(a)[id] != First(b)[id] ==>
               First(a)[id].job !in index.byJob && First(b)[id].job !in index.byJob)
  {
    FirstConcat(a, b);
    FirstConcat(b, a);
    var x, y := First(a + b), First(b + a);
    assert x.Keys == y.Keys;
    forall id | id in x ensures x[id].id == id && y[id].id == id {
      FirstIs(a + b, id);
      FirstIs(b + a, id);
    }
    if forall job :: job in index.byJob ==> Owned(x, job) == Owned(y, job) {
      forall id | id in First(a) && id in First(b) && First(a)[id] != First(b)[id]
        ensures First(a)[id].job !in index.byJob && First(b)[id].job !in index.byJob
      {
        SameOwner(x, y, index, id);
        SameOwner(y, x, index, id);
      }
    } else {
      var job :| job in index.byJob && Owned(x, job) != Owned(y, job);
      if e :| e in Owned(x, job) && e !in Owned(y, job) {
        assert x[e.id] == e && y[e.id] != e;
      } else {
        var e :| e in Owned(y, job) && e !in Owned(x, job);
        assert y[e.id] == e && x[e.id] != e;
      }
    }
  }

  lemma SameOwner(x: map<string, Event>, y: map<string, Event>, index: Index, id: string)
    requires id in x && id in y && (forall i :: i in x ==> x[i].id == i) && (forall i :: i in y ==> y[i].id == i)
    requires forall job :: job in index.byJob ==> Owned(x, job) == Owned(y, job)
    ensures x[id].job in index.byJob ==> x[id] == y[id]
  {
    if x[id].job in index.byJob {
      assert x[id] in Owned(x, x[id].job);
      assert x[id] in Owned(y, x[id].job);
    }
  }

  const NO_DATA := Data(false, "", "", None, None, None, None, None, None, Unstated, "", None, "", None)

  /** One id with two contents: a job's only closeout says it went well in one batch and badly in the other, and the job
      is accepted or rejected by which batch came first. */
  lemma OrderCanMatter() returns (a: seq<Event>, b: seq<Event>, index: Index, now: int, x: seq<Row>, y: seq<Row>)
    ensures |a| == |b| == 1 && a[0].id == b[0].id && index.Valid()
    ensures AreRows(First(a + b), index, now, x) && AreRows(First(b + a), index, now, y)
    ensures |x| == |y| == 1 && x[0].status == Accepted && y[0].status == Rejected
  {
    var decision := Decision("d", "job", "", 1, None, "explore", "");
    index := Index(map["d" := decision], map["job" := [decision]]);
    var good := Event("evt", "job", "d", 1, 0, Closeout, NO_DATA.(ok := true));
    var bad := good.(data := NO_DATA);
    a, b, now := [good], [bad], REDISPATCH_WINDOW;
    x, y := [RowOf(View("job", [decision], a), index, now)], [RowOf(View("job", [decision], b), index, now)];
    OneKept(good, bad);
    OneKept(bad, good);
    OneRow(good, index, now);
    OneRow(bad, index, now);
    OneClose(good, decision, index, now);
    OneClose(bad, decision, index, now);
    hide AreRows, JobStatus, First;
  }

  lemma OneClose(e: Event, decision: Decision, index: Index, now: int)
    requires e.kind == Closeout && e.attempt == decision.attempt && now == e.ts + REDISPATCH_WINDOW
    requires RuleFor(decision.class_) == CloseoutOk && decision.caller == ""
    ensures JobStatus(View(decision.job, [decision], [e]), index, now) == if e.data.ok then Accepted else Rejected
  {
    OneOf(e, {Closeout});
    OneOf(e, {Merge});
    OneOf(e, {Repair, Escalation});
  }

  lemma OneOf(e: Event, kinds: set<Kind>)
    ensures Of([e], kinds) == if e.kind in kinds then [e] else []
  {
    assert [e][..0] == [];
  }

  lemma OneKept(e: Event, other: Event)
    requires e.id == other.id
    ensures First([e] + [other]) == map[e.id := e]
  {
    FirstConcat([e], [other]);
    assert [e][..0] == [] && [other][..0] == [];
  }

  lemma OneRow(e: Event, index: Index, now: int)
    requires e.job in index.byJob && index.byJob[e.job] != [] && index.byJob.Keys == {e.job}
    ensures AreRows(map[e.id := e], index, now, [RowOf(View(e.job, index.byJob[e.job], [e]), index, now)])
  {
    var row := RowOf(View(e.job, index.byJob[e.job], [e]), index, now);
    OneOwned(e);
    OneElement(e);
    assert IsRow(map[e.id := e], index, now, row);
    hide RowOf, IsRow;
    assert [row][0].job == row.job == e.job;
  }

  lemma OneOwned(e: Event)
    ensures Owned(map[e.id := e], e.job) == {e}
  {
    var kept := map[e.id := e];
    assert kept[e.id] in Owned(kept, e.job);
  }

  lemma OneElement(e: Event)
    ensures Sorts({e}, [e], ByTime())
  {
    assert [e][0] in Elements([e]);
  }

  // ---- the loops ----

  /** First event of each id, by job. */
  method Group(events: seq<Event>) returns (kept: map<string, Event>, byJob: map<string, seq<Event>>)
    ensures kept == First(events)
    ensures Grouped(kept, byJob)
  {
    kept, byJob := map[], map[];
    for i := 0 to |events|
      invariant kept == First(events[..i])
      invariant Grouped(kept, byJob)
    {
      var e := events[i];
      assert events[..i + 1][..i] == events[..i];
      if e.id !in kept {
        GroupedMore(kept, byJob, e);
        var mine := if e.job in byJob then byJob[e.job] else [];
        kept, byJob := kept[e.id := e], byJob[e.job := mine + [e]];
      }
    }
    assert events[..|events|] == events;
  }

  /** The list holds kept events of the job, each once. */
  ghost predicate Lists(kept: map<string, Event>, job: string, mine: seq<Event>) {
    && (forall i :: 0 <= i < |mine| ==> mine[i].job == job && mine[i].id in kept && kept[mine[i].id] == mine[i])
    && (forall i, j :: 0 <= i < j < |mine| ==> mine[i].id != mine[j].id)
  }

  /** Every kept event is in its job's list. */
  ghost predicate Grouped(kept: map<string, Event>, byJob: map<string, seq<Event>>) {
    && (forall id :: id in kept ==> kept[id].id == id && kept[id].job in byJob && kept[id] in byJob[kept[id].job])
    && (forall job :: job in byJob ==> Lists(kept, job, byJob[job]))
  }

  lemma ListsOther(kept: map<string, Event>, job: string, mine: seq<Event>, e: Event)
    requires Lists(kept, job, mine) && e.id !in kept
    ensures Lists(kept[e.id := e], job, mine)
  {
  }

  lemma ListsMore(kept: map<string, Event>, mine: seq<Event>, e: Event)
    requires Lists(kept, e.job, mine) && e.id !in kept
    ensures Lists(kept[e.id := e], e.job, mine + [e])
  {
  }

  lemma GroupedMore(kept: map<string, Event>, byJob: map<string, seq<Event>>, e: Event)
    requires Grouped(kept, byJob) && e.id !in kept
    ensures var mine := if e.job in byJob then byJob[e.job] else [];
      Grouped(kept[e.id := e], byJob[e.job := mine + [e]])
  {
    var mine := if e.job in byJob then byJob[e.job] else [];
    var more, next := byJob[e.job := mine + [e]], kept[e.id := e];
    assert Lists(kept, e.job, mine);
    forall job | job in more ensures Lists(next, job, more[job]) {
      if job == e.job {
        ListsMore(kept, mine, e);
      } else {
        ListsOther(kept, job, byJob[job], e);
      }
    }
    hide Lists;
    assert (mine + [e])[|mine|] == e;
    forall id | id in next ensures next[id].job in more && next[id] in more[next[id].job] {
      assert id != e.id && next[id].job == e.job ==> next[id] in mine;
    }
  }

  lemma OwnedElements(kept: map<string, Event>, byJob: map<string, seq<Event>>, job: string)
    requires Grouped(kept, byJob)
    ensures Elements(if job in byJob then byJob[job] else []) == Owned(kept, job)
  {
    var mine := if job in byJob then byJob[job] else [];
    assert Lists(kept, job, mine);
    forall e ensures e in mine <==> e in Owned(kept, job) {
      if e in mine {
        var i :| 0 <= i < |mine| && mine[i] == e;
        assert kept[e.id] == e;
      }
    }
  }

  method BuildOutcomes(events: seq<Event>, index: Index, now: int) returns (rows: seq<Row>)
    requires index.Valid()
    ensures AreRows(First(events), index, now, rows)
  {
    hide IsRow, Grouped, First, RowOf, Less;
    var kept, byJob := Group(events);
    var jobs := Names(index.byJob.Keys);
    rows := [];
    for i := 0 to |jobs|
      invariant |rows| == i && forall j :: 0 <= j < i ==> rows[j].job == jobs[j] && IsRow(kept, index, now, rows[j])
    {
      var job := jobs[i];
      assert job in Elements(jobs);
      var row := BuildRow(kept, byJob, index, now, job);
      rows := rows + [row];
    }
    JobsOf(rows, jobs, index.byJob.Keys);
  }

  lemma JobsOf(rows: seq<Row>, jobs: seq<string>, names: set<string>)
    requires |rows| == |jobs| && forall j :: 0 <= j < |jobs| ==> rows[j].job == jobs[j]
    requires Sorts(names, jobs, ByName())
    ensures Ascending(rows, ByJob()) && (set i | 0 <= i < |rows| :: rows[i].job) == names
  {
    forall i, j | 0 <= i < j < |rows| ensures Before(ByJob()(rows[i]), ByJob()(rows[j])) {
      assert Before(ByName()(jobs[i]), ByName()(jobs[j]));
    }
    forall name ensures name in (set i | 0 <= i < |rows| :: rows[i].job) <==> name in names {
      if name in names {
        assert name in Elements(jobs);
        var i :| 0 <= i < |jobs| && jobs[i] == name;
        assert rows[i].job == name;
      }
      if i :| 0 <= i < |rows| && rows[i].job == name {
        assert jobs[i] in Elements(jobs);
      }
    }
  }

  method BuildRow(kept: map<string, Event>, byJob: map<string, seq<Event>>, index: Index, now: int, job: string)
    returns (row: Row)
    requires Grouped(kept, byJob) && index.Valid() && job in index.byJob
    ensures row.job == job && IsRow(kept, index, now, row)
  {
    var mine := if job in byJob then byJob[job] else [];
    assert Lists(kept, job, mine);
    forall i, j | 0 <= i < j < |mine| ensures ByTime()(mine[i]) != ByTime()(mine[j]) {
      assert mine[i].id != mine[j].id;
    }
    var events := Sort(mine, ByTime());
    OwnedElements(kept, byJob, job);
    row := RowOf(View(job, index.byJob[job], events), index, now);
  }

  /** The names in order. */
  method Names(names: set<string>) returns (sorted: seq<string>)
    ensures Sorts(names, sorted, ByName())
  {
    sorted := [];
    var left := names;
    while left != {}
      invariant left <= names && Ascending(sorted, ByName()) && Elements(sorted) == names - left
      decreases |left|
    {
      var name :| name in left;
      assert forall x :: x in sorted ==> x in Elements(sorted);
      sorted := Insert(sorted, name, ByName());
      left := left - {name};
    }
  }

  /** The event file. */
  class Log {
    var stored: seq<Event>

    /** The events of the file as it is found. */
    constructor (stored: seq<Event>)
      ensures this.stored == stored
    {
      this.stored := stored;
    }

    /** Appends what is new and rebuilds every outcome. */
    method Ingest(collected: seq<Event>, index: Index, now: int, write: bool)
      returns (added: seq<Event>, rows: seq<Row>)
      requires index.Valid()
      modifies this
      ensures added == Fresh(old(stored), collected)
      ensures stored == if write then old(stored) + added else old(stored)
      ensures AreRows(First(old(stored) + collected), index, now, rows)
    {
      var seen := set i | 0 <= i < |stored| :: stored[i].id;
      added := [];
      assert stored + [] == stored;
      assert forall i :: 0 <= i < |stored| ==> stored[i].id in seen;
      for i := 0 to |collected|
        invariant added == Fresh(stored, collected[..i]) && stored == old(stored)
        invariant forall id :: id in seen <==> Stored(stored + added, id)
      {
        assert collected[..i + 1][..i] == collected[..i];
        if collected[i].id !in seen {
          StoredOneMore(stored + added, collected[i]);
          assert stored + (added + [collected[i]]) == (stored + added) + [collected[i]];
          seen := seen + {collected[i].id};
          added := added + [collected[i]];
        }
      }
      assert collected[..|collected|] == collected;
      rows := BuildOutcomes(stored + added, index, now);
      FreshKeeps(stored, collected);
      if write {
        stored := stored + added;
      }
    }
  }

  lemma StoredOneMore(log: seq<Event>, e: Event)
    ensures forall id :: Stored(log + [e], id) <==> Stored(log, id) || id == e.id
  {
    forall id ensures Stored(log + [e], id) <==> Stored(log, id) || id == e.id {
      StoredMore(log, [e], id);
      assert (log + [e])[|log|] == e;
    }
  }

  /** A part whose events are already stored in part keeps what the whole would keep. */
  lemma PartsKeep(start: seq<Event>, a: seq<Event>, b: seq<Event>)
    ensures First(start + Fresh(start, a) + b) == First(start + (a + b))
  {
    hide *;
    var x := Fresh(start, a);
    var y := Fresh(start + x, b);
    FreshKeeps(start + x, b);
    IngestInParts(start, a, b);
    assert start + x + y == start + (x + y);
    FreshKeeps(start, a + b);
  }

  /** Collecting what is already stored keeps the same events and appends none. */
  lemma RepeatKeeps(start: seq<Event>, a: seq<Event>)
    ensures Fresh(start + Fresh(start, a), a) == []
    ensures First(start + Fresh(start, a) + a) == First(start + a)
  {
    hide *;
    var log := start + Fresh(start, a);
    IngestTwice(start, a);
    FreshKeeps(log, a);
    assert log + [] == log;
    FreshKeeps(start, a);
  }

  /**
   * Two ingests of parts leave the same file and the same outcomes as one ingest of the whole, and a repeated one
   * changes nothing.
   */
  method IngestParts(log: Log, whole: Log, a: seq<Event>, b: seq<Event>, index: Index, now: int)
    returns (split: seq<Row>, once: seq<Row>, again: seq<Row>)
    requires index.Valid() && log != whole && log.stored == whole.stored
    modifies log, whole
    ensures log.stored == whole.stored == old(log.stored) + Fresh(old(log.stored), a + b)
    ensures split == once == again
  {
    hide *;
    ghost var start := log.stored;
    var _, _ := log.Ingest(a, index, now, true);
    var added, parts := log.Ingest(b, index, now, true);
    IngestInParts(start, a, b);
    assert log.stored == start + (Fresh(start, a) + added);
    var all, one := whole.Ingest(a + b, index, now, true);
    PartsKeep(start, a, b);
    RowsAreUnique(First(start + (a + b)), index, now, parts, one);
    var none, repeated := whole.Ingest(a + b, index, now, true);
    RepeatKeeps(start, a + b);
    assert start + all + [] == start + all;
    RowsAreUnique(First(start + (a + b)), index, now, one, repeated);
    return parts, one, repeated;
  }
}
