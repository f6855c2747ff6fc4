/** Choosing a rung of a ladder (clients/route_ladder_walk.py:35-219).

  `World` holds what the walk asks of the rest of the program: the ladder, pools, leases, models and seats.
  Each answer is a function, so any answers at all are covered.
*/
module LadderWalk {
  import opened Options

  datatype Gate = Ungated | Gated(open: bool)

  datatype Entry = Entry(id: string, seat: string, maker: string, alias: string, pool: Option<string>, gate: Gate,
      reserveHard: bool, standInOnly: bool, sameVendorFallback: bool)

  datatype Pool = Pool(eligible: Option<int>, exhaustedStatus: bool) {
    predicate Exhausted() { if eligible.Some? then eligible.value <= 0 else exhaustedStatus }

    predicate Critical() { Exhausted() || (eligible.Some? && eligible.value <= 1) }
  }

  datatype Reserve = Reserve(pool: string, active: bool, admitted: bool)

  datatype Resolution = Unresolvable | Pending | Model(name: string)

  datatype World = World(
    ladder: (string, Option<string>) -> seq<Entry>,
    pools: map<string, Pool>,
    poolFor: string -> Option<string>,
    reserve: string -> Option<Reserve>,
    blocked: (string, Entry) -> bool,
    leased: (string, Option<string>) -> bool,
    resolve: Entry -> Resolution,
    seatUp: string -> bool,
    sameModel: (string, string, string) -> bool,
    legacyAuditor: (string, Entry) -> Option<string>)
  {
    /** The pool an entry names when it is listed, and otherwise the pool of its model. */
    function PoolOf(e: Entry): Option<string> {
      if e.pool.Some? && e.pool.value in pools then e.pool else poolFor(e.alias)
    }

    predicate ExhaustedPool(pool: Option<string>) { pool.Some? && pool.value in pools && pools[pool.value].Exhausted() }

    predicate ClaudeCritical() { "anthropic-general" in pools && pools["anthropic-general"].Critical() }

    /** The pool is kept for orchestrators and this class is not one of them. */
    predicate HeldBack(class_: string, e: Entry) {
      var reserve := reserve(class_);
      reserve.Some? && reserve.value.active && !reserve.value.admitted && PoolOf(e) == Some(reserve.value.pool)
    }
  }

  datatype Query = Query(class_: string, author: Option<string>, skip: seq<string>, prefer: Option<string>,
      wanted: Option<string>) {
    predicate Prefers(id: string, seat: string) { prefer.Some? && (prefer.value == id || prefer.value == seat) }
  }

  datatype Status = Open | Soft | Skipped

  datatype Audit = NoReviewer | Reviewer(row: Row) | LegacyReviewer(seat: string)

  datatype Row = Row(rung: string, seat: string, model: Option<string>, alias: string, maker: string, standInOnly: bool,
      pool: Option<string>, sameVendor: bool, audit: Audit, pending: bool, waived: bool, status: Status)

  datatype Walk = Walk(chosen: Option<Row>, preset: Option<Row>, refused: bool, rungs: seq<Row>, routable: seq<Row>,
      fallbacks: seq<Row>, intended: Option<string>)

  function Author(author: Option<string>): Option<string> {
    if author == Some("devin") then Some("cognition") else author
  }

  function Entries(w: World, q: Query): seq<Entry> { w.ladder(q.class_, Author(q.author)) }

  // ---- what each rung's status means ----

  /** Bars that a caller's preference waives. */
  predicate Waivable(w: World, q: Query, e: Entry) {
    var reserve := w.reserve(q.class_);
    || (e.gate.Gated? && !e.gate.open)
    || (e.id == "sonnet-cursor-high" && !(reserve.Some? && reserve.value.active))
    || (e.reserveHard && w.HeldBack(q.class_, e))
  }

  predicate SameMaker(q: Query, e: Entry) { q.class_ == "verify" && Author(q.author) == Some(e.maker) }

  predicate Unlisted(w: World, e: Entry) {
    e.pool.Some? && e.pool.value != "" && e.pool.value !in w.pools && w.PoolOf(e).None?
  }

  /** Bars that stand whatever the caller prefers. */
  predicate Fixed(w: World, q: Query, e: Entry) {
    || w.blocked(q.class_, e)
    || e.id in q.skip
    || Unlisted(w, e)
    || w.ExhaustedPool(w.PoolOf(e))
    || w.leased(e.seat, w.PoolOf(e))
    || w.resolve(e).Unresolvable?
    || !w.seatUp(e.seat)
    || (SameMaker(q, e) && !e.sameVendorFallback)
  }

  /** `early` says that some default rung above is still there, which bars a stand-in. */
  predicate Barred(w: World, q: Query, e: Entry, early: bool) {
    Fixed(w, q, e) || (!q.Prefers(e.id, e.seat) && (Waivable(w, q, e) || (e.standInOnly && early)))
  }

  predicate DefaultAbove(w: World, q: Query, entries: seq<Entry>, i: nat)
    requires i <= |entries|
  {
    exists j :: 0 <= j < i && !entries[j].standInOnly && !Barred(w, q, entries[j], false)
  }

  function StatusAt(w: World, q: Query, entries: seq<Entry>, i: nat): Status
    requires i < |entries|
  {
    if Barred(w, q, entries[i], DefaultAbove(w, q, entries, i)) then Skipped
    else if w.HeldBack(q.class_, entries[i]) || entries[i].sameVendorFallback then Soft
    else Open
  }

  /** Rung `i` is the first open one, or the first soft one when none is open. */
  ghost predicate Best(w: World, q: Query, entries: seq<Entry>, i: nat) {
    && i < |entries|
    && (forall j :: 0 <= j < i ==> StatusAt(w, q, entries, j) != StatusAt(w, q, entries, i))
    && (StatusAt(w, q, entries, i) == Open ||
        (StatusAt(w, q, entries, i) == Soft && forall j :: 0 <= j < |entries| ==> StatusAt(w, q, entries, j) != Open))
  }

  ghost predicate NoneRoutable(w: World, q: Query, entries: seq<Entry>) {
    forall j :: 0 <= j < |entries| ==> StatusAt(w, q, entries, j) == Skipped
  }

  // ---- properties of the choice ----

  /** Reviewer independence: a same-maker rung is the choice of the verify ladder only when no rung at all is open. */
  lemma SameMakerIsLastResort(w: World, q: Query, entries: seq<Entry>, i: nat)
    requires Best(w, q, entries, i) && SameMaker(q, entries[i])
    ensures forall j :: 0 <= j < |entries| ==> StatusAt(w, q, entries, j) != Open
    ensures entries[i].sameVendorFallback && StatusAt(w, q, entries, i) == Soft
  {
    assert StatusAt(w, q, entries, i) != Open;
  }

  /** A stand-in is used unasked only when every default rung above it is out. */
  lemma StandInIsLastResort(w: World, q: Query, entries: seq<Entry>, i: nat, j: nat)
    requires j < i < |entries| && entries[i].standInOnly && !entries[j].standInOnly
    requires StatusAt(w, q, entries, i) != Skipped && !q.Prefers(entries[i].id, entries[i].seat)
    ensures StatusAt(w, q, entries, j) == Skipped
  {
    assert Barred(w, q, entries[j], false);
  }

  /** Skipping one more rung takes that rung out, and of the others it can only bring stand-ins in. */
  lemma SkipOneMore(w: World, q: Query, entries: seq<Entry>, id: string, i: nat)
    requires i < |entries|
    ensures var more := q.(skip := q.skip + [id]);
      && (entries[i].id == id ==> StatusAt(w, more, entries, i) == Skipped)
      && (entries[i].id != id && StatusAt(w, more, entries, i) != StatusAt(w, q, entries, i) ==>
            (entries[i].standInOnly && StatusAt(w, q, entries, i) == Skipped))
  {
    var more := q.(skip := q.skip + [id]);
    assert forall x :: x in q.skip ==> x in more.skip;
    forall j | 0 <= j < i && !Barred(w, more, entries[j], false) ensures !Barred(w, q, entries[j], false) {
    }
    assert DefaultAbove(w, more, entries, i) ==> DefaultAbove(w, q, entries, i);
  }

  /** A preference opens at most the preferred rungs: with it, an unpreferred rung is open only as it is without. */
  lemma PreferenceIsLocal(w: World, q: Query, entries: seq<Entry>, i: nat)
    requires i < |entries| && !q.Prefers(entries[i].id, entries[i].seat)
    ensures var plain := q.(prefer := None, wanted := None);
      StatusAt(w, q, entries, i) != Skipped ==> StatusAt(w, q, entries, i) == StatusAt(w, plain, entries, i)
  {
    var plain := q.(prefer := None, wanted := None);
    forall j | 0 <= j < i && !Barred(w, plain, entries[j], false) ensures !Barred(w, q, entries[j], false) {
    }
    assert DefaultAbove(w, plain, entries, i) ==> DefaultAbove(w, q, entries, i);
  }

  // ---- rows ----

  /** The reviewer of a rung is the verify ladder's best rung for the rung's maker; the old table helps only when
      that ladder has none, the work is not Claude's and Claude is short. */
  ghost predicate Reviewed(w: World, q: Query, e: Entry, routable: bool, audit: Audit) {
    var verify := Query("verify", Some(e.maker), [], None, None);
    var reviewers := Entries(w, verify);
    if !routable || (q.class_ != "implement" && q.class_ != "mechanical") then audit.NoReviewer?
    else
      && (audit.Reviewer? ==>
           exists i: nat :: Best(w, verify, reviewers, i) && Plain(w, verify, reviewers, i, audit.row))
      && (!audit.Reviewer? ==> NoneRoutable(w, verify, reviewers))
      && (audit.LegacyReviewer? <==>
           NoneRoutable(w, verify, reviewers) && e.maker != "anthropic" && w.ClaudeCritical()
           && w.legacyAuditor(q.class_, e).Some?)
      && (audit.LegacyReviewer? ==> Some(audit.seat) == w.legacyAuditor(q.class_, e))
  }

  /** What a row says about its entry, apart from the reviewer. */
  ghost predicate Plain(w: World, q: Query, entries: seq<Entry>, i: nat, r: Row) {
    && i < |entries|
    && var e := entries[i];
    && r.rung == e.id && r.seat == e.seat && r.alias == e.alias && r.maker == e.maker && r.standInOnly == e.standInOnly
    && r.pool == w.PoolOf(e)
    && r.sameVendor == SameMaker(q, e)
    && r.status == StatusAt(w, q, entries, i)
    && (r.waived ==> q.Prefers(e.id, e.seat))
    && (r.pending ==> e.id !in q.skip && w.resolve(e).Pending?)
    && (r.status != Skipped ==>
          && (r.pending <==> w.resolve(e).Pending?)
          && r.model == Some(if w.resolve(e).Model? then w.resolve(e).name else e.alias))
  }

  ghost predicate RowAt(w: World, q: Query, entries: seq<Entry>, i: nat, r: Row) {
    Plain(w, q, entries, i, r) && Reviewed(w, q, entries[i], r.status != Skipped, r.audit)
  }

  // ---- list comprehensions ----

  function Filter(rows: seq<Row>, p: Row -> bool): seq<Row> {
    if rows == [] then []
    else Filter(rows[..|rows| - 1], p) + (if p(rows[|rows| - 1]) then [rows[|rows| - 1]] else [])
  }

  function Is(status: Status): Row -> bool { (r: Row) => r.status == status }

  function Preferred(q: Query): Row -> bool { (r: Row) => q.Prefers(r.rung, r.seat) }

  predicate Runs(w: World, wanted: string, r: Row) { r.model.Some? && w.sameModel(wanted, r.model.value, r.alias) }

  function Running(w: World, wanted: string): Row -> bool { (r: Row) => Runs(w, wanted, r) }

  function Unsettled(): Row -> bool { (r: Row) => r.pending }

  function Both(p: Row -> bool, other: Row -> bool): Row -> bool { (r: Row) => p(r) && other(r) }

  lemma {:induction false} FilterIn(rows: seq<Row>, p: Row -> bool, r: Row)
    ensures r in Filter(rows, p) <==> r in rows && p(r)
  {
    if rows != [] {
      assert rows == rows[..|rows| - 1] + [rows[|rows| - 1]];
      FilterIn(rows[..|rows| - 1], p, r);
    }
  }

  lemma {:induction false} FilterTwice(rows: seq<Row>, p: Row -> bool, other: Row -> bool)
    ensures Filter(Filter(rows, p), other) == Filter(rows, Both(p, other))
  {
    if rows != [] {
      var last, rest := rows[|rows| - 1], rows[..|rows| - 1];
      FilterTwice(rest, p, other);
      assert Filter(rows, Both(p, other)) ==
        Filter(rest, Both(p, other)) + (if p(last) && other(last) then [last] else []);
      if p(last) {
        var kept := Filter(rows, p);
        assert kept == Filter(rest, p) + [last] && kept[|kept| - 1] == last;
        assert kept[..|kept| - 1] == Filter(rest, p);
        assert Filter(kept, other) == Filter(Filter(rest, p), other) + (if other(last) then [last] else []);
      } else {
        assert Filter(rows, p) == Filter(rest, p);
        assert Filter(rows, Both(p, other)) == Filter(rest, Both(p, other));
      }
    }
  }

  /** The first kept row comes before every other row that passes. */
  lemma {:induction false} FilterFirst(rows: seq<Row>, p: Row -> bool) returns (i: nat)
    requires Filter(rows, p) != []
    ensures i < |rows| && Filter(rows, p)[0] == rows[i] && p(rows[i])
    ensures forall j :: 0 <= j < i ==> !p(rows[j])
  {
    var last := |rows| - 1;
    if Filter(rows[..last], p) == [] {
      i := last;
      forall j | 0 <= j < last ensures !p(rows[j]) {
        FilterIn(rows[..last], p, rows[j]);
        assert rows[..last][j] == rows[j];
      }
    } else {
      i := FilterFirst(rows[..last], p);
      forall j | 0 <= j < i ensures !p(rows[j]) {
        assert rows[..last][j] == rows[j];
      }
    }
  }

  // ---- the walk ----

  /** Rows the caller's preference may take: on a preferred rung or seat, running the wanted model if one is given,
      or still to be resolved when no preferred row runs it. */
  predicate Matches(w: World, q: Query, routable: seq<Row>, r: Row) {
    && q.Prefers(r.rung, r.seat)
    && (q.wanted.None? || Runs(w, q.wanted.value, r) ||
        (r.pending && forall j :: 0 <= j < |routable| && q.Prefers(routable[j].rung, routable[j].seat) ==>
          !Runs(w, q.wanted.value, routable[j])))
  }

  ghost predicate FirstMatch(w: World, q: Query, routable: seq<Row>, k: nat) {
    k < |routable| && Matches(w, q, routable, routable[k])
      && forall j :: 0 <= j < k ==> !Matches(w, q, routable, routable[j])
  }

  /** The row of the best rung, or none when no rung is routable. */
  ghost predicate BestRow(w: World, q: Query, best: Option<Row>) {
    var entries := Entries(w, q);
    if best.None? then NoneRoutable(w, q, entries)
    else exists i: nat :: Best(w, q, entries, i) && RowAt(w, q, entries, i, best.value)
  }

  /** The query whose choice is the default: the same one without the caller's preference. */
  function Unasked(q: Query): Query { if q.prefer.None? then q else q.(prefer := None, wanted := None) }

  /** Another maker's rung could review although the caller asks for the author's own. */
  ghost predicate OwnMaker(r: Row, preset: Option<Row>) { r.sameVendor && preset.Some? && !preset.value.sameVendor }

  /** The caller gets its first matching row, unless that is the author's own maker while another maker can review. */
  ghost predicate Granted(w: World, q: Query, routable: seq<Row>, preset: Option<Row>, chosen: Option<Row>,
      refused: bool) {
    && (chosen.Some? ==>
         !OwnMaker(chosen.value, preset)
         && exists k: nat :: FirstMatch(w, q, routable, k) && chosen.value == routable[k])
    && (chosen.None? ==> forall k: nat :: FirstMatch(w, q, routable, k) ==> OwnMaker(routable[k], preset))
    && (refused <==> chosen.None? && exists r :: r in routable && q.Prefers(r.rung, r.seat))
  }

  ghost predicate Walked(w: World, q: Query, walk: Walk) {
    var entries := Entries(w, q);
    && |walk.rungs| == |entries|
    && (forall i :: 0 <= i < |entries| ==> RowAt(w, q, entries, i, walk.rungs[i]))
    && walk.routable == Filter(walk.rungs, Is(Open)) + Filter(walk.rungs, Is(Soft))
    && BestRow(w, Unasked(q), walk.preset)
    && (if q.prefer.None? then walk.chosen == walk.preset && !walk.refused
        else Granted(w, q, walk.routable, walk.preset, walk.chosen, walk.refused))
    && walk.fallbacks == Others(walk.routable, walk.chosen)
    && Intended(entries, |entries|, walk.intended)
  }

  /** The first rung whose gate is not shut, or none. */
  ghost predicate Intended(entries: seq<Entry>, n: nat, intended: Option<string>)
    requires n <= |entries|
  {
    if forall i :: 0 <= i < n ==> entries[i].gate == Gated(false) then intended == None
    else exists i :: 0 <= i < n && entries[i].gate != Gated(false) && intended == Some(entries[i].id)
                     && forall j :: 0 <= j < i ==> entries[j].gate == Gated(false)
  }

  function Others(routable: seq<Row>, chosen: Option<Row>): seq<Row> {
    if chosen.None? then routable else Filter(routable, (r: Row) => r.rung != chosen.value.rung)
  }

  /** Worker classes ask the verify ladder, and a preference asks the walk without it. */
  function Rank(q: Query): nat { if q.class_ == "implement" || q.class_ == "mechanical" then 1 else 0 }

  /** The reviewer of a routable worker rung. */
  method Review(w: World, q: Query, e: Entry) returns (audit: Audit)
    requires Rank(q) == 1
    ensures Reviewed(w, q, e, true, audit)
    decreases Rank(q), 0, 0
  {
    var verify := Query("verify", Some(e.maker), [], None, None);
    var review := LadderWalk(w, verify);
    if review.chosen.Some? {
      return Reviewer(review.chosen.value);
    }
    if e.maker != "anthropic" && w.ClaudeCritical() {
      var seat := w.legacyAuditor(q.class_, e);
      if seat.Some? {
        return LegacyReviewer(seat.value);
      }
    }
    return NoReviewer;
  }

  lemma NotReviewed(w: World, q: Query, e: Entry, routable: bool)
    ensures !routable || Rank(q) == 0 ==> Reviewed(w, q, e, routable, NoReviewer)
  {
  }

  /** One turn of the loop: the entry's row, given the rows above it. */
  method Assess(w: World, q: Query, rows: seq<Row>) returns (row: Row)
    requires |rows| < |Entries(w, q)| && forall j :: 0 <= j < |rows| ==> RowAt(w, q, Entries(w, q), j, rows[j])
    ensures RowAt(w, q, Entries(w, q), |rows|, row)
    decreases Rank(q), if q.prefer.Some? then 1 else 0, 1
  {
    hide Barred, DefaultAbove, Reviewed;
    var e := Entries(w, q)[|rows|];
    var pool := w.PoolOf(e);
    var above := DefaultLeft(w, q, rows);
    var barred, waived, found := Screen(w, q, e, above);
    var audit := NoReviewer;
    NotReviewed(w, q, e, !barred);
    if !barred && (q.class_ == "implement" || q.class_ == "mechanical") {
      audit := Review(w, q, e);
    }
    var status := if barred then Skipped else if w.HeldBack(q.class_, e) || e.sameVendorFallback then Soft else Open;
    var model := match found { case Unresolvable => None case Pending => Some(e.alias) case Model(name) => Some(name) };
    row := Row(e.id, e.seat, model, e.alias, e.maker, e.standInOnly, pool,
               q.class_ == "verify" && Some(e.maker) == Author(q.author), audit, found.Pending?, waived, status);
  }

  /** Some default rung above is not skipped. */
  method DefaultLeft(w: World, q: Query, rows: seq<Row>) returns (left: bool)
    requires |rows| < |Entries(w, q)| && forall j :: 0 <= j < |rows| ==> Plain(w, q, Entries(w, q), j, rows[j])
    ensures left <==> DefaultAbove(w, q, Entries(w, q), |rows|)
  {
    left := false;
    for j := 0 to |rows|
      invariant left <==> DefaultAbove(w, q, Entries(w, q), j)
    {
      assert Plain(w, q, Entries(w, q), j, rows[j]);
      if !rows[j].standInOnly && rows[j].status != Skipped {
        left := true;
      }
    }
  }

  /** The checks on one entry, in order; a bar found before the caller's preference is looked at is waived by it. */
  method Screen(w: World, q: Query, e: Entry, above: bool) returns (barred: bool, waived: bool, found: Resolution)
    ensures barred <==> Barred(w, q, e, above)
    ensures waived ==> q.Prefers(e.id, e.seat)
    ensures if barred then found == w.resolve(e) || found == Unresolvable
      else found == w.resolve(e) && !found.Unresolvable?
    ensures e.id in q.skip ==> found == Unresolvable
  {
    var pool := w.PoolOf(e);
    var reserve := w.reserve(q.class_);
    barred := e.gate.Gated? && !e.gate.open;
    if !barred && e.id == "sonnet-cursor-high" && !(reserve.Some? && reserve.value.active) {
      barred := true;
    }
    if !barred && e.reserveHard && reserve.Some? && reserve.value.active && !reserve.value.admitted
        && pool == Some(reserve.value.pool) {
      barred := true;
    }
    if !barred && e.standInOnly && above {
      barred := true;
    }
    waived := barred && q.Prefers(e.id, e.seat);
    if waived {
      barred := false;
    }
    barred := barred || w.blocked(q.class_, e);
    if !barred && e.id in q.skip {
      barred := true;
    }
    if !barred && e.pool.Some? && e.pool.value != "" && e.pool.value !in w.pools && pool.None? {
      barred := true;
    }
    if !barred && w.ExhaustedPool(pool) {
      barred := true;
    }
    if !barred {
      barred := w.leased(e.seat, pool);
    }
    found := if barred then Unresolvable else w.resolve(e);
    barred := barred || found.Unresolvable?;
    if !barred && !w.seatUp(e.seat) {
      barred := true;
    }
    if !barred && q.class_ == "verify" && Some(e.maker) == Author(q.author) && !e.sameVendorFallback {
      barred := true;
    }
  }

  method LadderWalk(w: World, q: Query) returns (walk: Walk)
    ensures Walked(w, q, walk)
    decreases Rank(q), if q.prefer.Some? then 1 else 0, 2
  {
    hide RowAt, BestRow, Granted, Others;
    var entries := Entries(w, q);
    var rows, ready, soft: seq<Row> := [], [], [];
    var intended: Option<string> := None;
    for i := 0 to |entries|
      invariant |rows| == i
      invariant forall j :: 0 <= j < i ==> RowAt(w, q, entries, j, rows[j])
      invariant ready == Filter(rows, Is(Open)) && soft == Filter(rows, Is(Soft))
      invariant Intended(entries, i, intended)
    {
      if intended.None? && !(entries[i].gate.Gated? && !entries[i].gate.open) {
        intended := Some(entries[i].id);
      }
      var row := Assess(w, q, rows);
      ghost var before := rows;
      rows := rows + [row];
      assert rows[..|rows| - 1] == before;
      if row.status == Open {
        ready := ready + [row];
      } else if row.status == Soft {
        soft := soft + [row];
      }
    }
    var best := FirstRow(w, q, rows, ready, soft);
    var chosen, preset, refused := best, best, false;
    if q.prefer.Some? {
      var unasked := LadderWalk(w, Unasked(q));
      preset := unasked.chosen;
      chosen, refused := Grant(w, q, ready + soft, preset);
    }
    walk := Walk(chosen, preset, refused, rows, ready + soft, Others(ready + soft, chosen), intended);
  }

  /** `next(iter(ready or soft), None)`. */
  method FirstRow(w: World, q: Query, rows: seq<Row>, ready: seq<Row>, soft: seq<Row>) returns (best: Option<Row>)
    requires |rows| == |Entries(w, q)| && forall j :: 0 <= j < |rows| ==> RowAt(w, q, Entries(w, q), j, rows[j])
    requires ready == Filter(rows, Is(Open)) && soft == Filter(rows, Is(Soft))
    ensures BestRow(w, q, best)
  {
    var entries := Entries(w, q);
    forall j | 0 <= j < |rows|
        ensures rows[j].status == StatusAt(w, q, entries, j) && (ready == [] ==> rows[j].status != Open)
        && (soft == [] ==> rows[j].status != Soft) {
      assert RowAt(w, q, entries, j, rows[j]) && rows[j] in rows;
      FilterIn(rows, Is(Open), rows[j]);
      FilterIn(rows, Is(Soft), rows[j]);
    }
    if ready != [] {
      ghost var i := FilterFirst(rows, Is(Open));
      assert Best(w, q, entries, i) && RowAt(w, q, entries, i, rows[i]);
      return Some(ready[0]);
    }
    if soft != [] {
      ghost var i := FilterFirst(rows, Is(Soft));
      assert Best(w, q, entries, i) && RowAt(w, q, entries, i, rows[i]);
      return Some(soft[0]);
    }
    return None;
  }

  method Grant(w: World, q: Query, routable: seq<Row>, preset: Option<Row>) returns (chosen: Option<Row>, refused: bool)
    requires q.prefer.Some?
    ensures Granted(w, q, routable, preset, chosen, refused)
  {
    var preferred := Filter(routable, Preferred(q));
    var found := preferred;
    if q.wanted.Some? {
      found := Filter(preferred, Running(w, q.wanted.value));
      if found == [] {
        found := Filter(preferred, Unsettled());
      }
    }
    FoundIsMatch(w, q, routable, preferred, found);
    forall r ensures r in preferred <==> r in routable && q.Prefers(r.rung, r.seat) {
      FilterIn(routable, Preferred(q), r);
    }
    chosen := if found == [] then None else Some(found[0]);
    if chosen.Some? && chosen.value.sameVendor && preset.Some? && !preset.value.sameVendor {
      chosen := None;
    }
    refused := chosen.None? && preferred != [];
    assert preferred != [] ==> preferred[0] in preferred;
  }

  /** The first row found is the first match. */
  lemma FoundIsMatch(w: World, q: Query, routable: seq<Row>, preferred: seq<Row>, found: seq<Row>)
    requires preferred == Filter(routable, Preferred(q))
    requires q.wanted.None? ==> found == preferred
    requires q.wanted.Some? ==>
      var running := Filter(preferred, Running(w, q.wanted.value));
      found == if running != [] then running else Filter(preferred, Unsettled())
    ensures found != [] ==> exists k: nat :: FirstMatch(w, q, routable, k) && routable[k] == found[0]
    ensures forall k: nat :: FirstMatch(w, q, routable, k) ==> found != [] && routable[k] == found[0]
  {
    var p := if q.wanted.None? then Preferred(q)
             else if Filter(preferred, Running(w, q.wanted.value)) != [] then
               Both(Preferred(q), Running(w, q.wanted.value))
             else Both(Preferred(q), Unsettled());
    if q.wanted.Some? {
      FilterTwice(routable, Preferred(q), Running(w, q.wanted.value));
      FilterTwice(routable, Preferred(q), Unsettled());
    }
    assert found == Filter(routable, p);
    MatchesAre(w, q, routable, preferred, p);
    if found != [] {
      var k := FilterFirst(routable, p);
      assert FirstMatch(w, q, routable, k);
    } else {
      forall j | 0 <= j < |routable| ensures !p(routable[j]) {
        FilterIn(routable, p, routable[j]);
      }
    }
  }

  lemma MatchesAre(w: World, q: Query, routable: seq<Row>, preferred: seq<Row>, p: Row -> bool)
    requires preferred == Filter(routable, Preferred(q))
    requires p == if q.wanted.None? then Preferred(q)
                  else if Filter(preferred, Running(w, q.wanted.value)) != [] then
                    Both(Preferred(q), Running(w, q.wanted.value))
                  else Both(Preferred(q), Unsettled())
    ensures forall j :: 0 <= j < |routable| ==> (Matches(w, q, routable, routable[j]) <==> p(routable[j]))
  {
    if q.wanted.Some? {
      var running := Both(Preferred(q), Running(w, q.wanted.value));
      FilterTwice(routable, Preferred(q), Running(w, q.wanted.value));
      if Filter(routable, running) != [] {
        var i := FilterFirst(routable, running);
        assert q.Prefers(routable[i].rung, routable[i].seat) && Runs(w, q.wanted.value, routable[i]);
      } else {
        forall j | 0 <= j < |routable| ensures !running(routable[j]) {
          FilterIn(routable, running, routable[j]);
        }
      }
    }
  }

  lemma ChosenIsRow(w: World, q: Query, walk: Walk) returns (i: nat)
    requires Walked(w, q, walk) && q.prefer.Some? && walk.chosen.Some?
    ensures i < |Entries(w, q)| && walk.chosen.value == walk.rungs[i] && RowAt(w, q, Entries(w, q), i, walk.rungs[i])
    ensures walk.rungs[i].status != Skipped
  {
    var k: nat :| FirstMatch(w, q, walk.routable, k) && walk.chosen.value == walk.routable[k];
    FilterIn(walk.rungs, Is(Open), walk.routable[k]);
    FilterIn(walk.rungs, Is(Soft), walk.routable[k]);
    assert walk.routable[k] in Filter(walk.rungs, Is(Open)) || walk.routable[k] in Filter(walk.rungs, Is(Soft));
    i :| 0 <= i < |walk.rungs| && walk.rungs[i] == walk.routable[k];
  }

  /**
   * With or without a preference, the author's own maker reviews only when the unasked walk has no open rung at all.
   */
  lemma ReviewIsIndependent(w: World, q: Query, walk: Walk)
    requires Walked(w, q, walk) && q.class_ == "verify" && walk.chosen.Some?
      && Author(q.author) == Some(walk.chosen.value.maker)
    ensures var entries := Entries(w, q);
      forall j :: 0 <= j < |entries| ==> StatusAt(w, Unasked(q), entries, j) != Open
  {
    var entries := Entries(w, q);
    if q.prefer.Some? {
      var k := ChosenIsRow(w, q, walk);
    }
    if walk.preset.Some? {
      var i: nat :| Best(w, Unasked(q), entries, i) && RowAt(w, Unasked(q), entries, i, walk.preset.value);
      SameMakerIsLastResort(w, Unasked(q), entries, i);
    }
  }

  /** Nothing of what no preference can waive stands against the rung: it is not blocked or skipped, its pool is listed,
      eligible and not leased out, its models are known or still to be listed, its seat is up, and it is not of the
      author's own maker unless it is declared for that. */
  ghost predicate Usable(w: World, q: Query, e: Entry) {
    var pool := if e.pool != None && e.pool.value in w.pools then e.pool else w.poolFor(e.alias);
    && !w.blocked(q.class_, e) && e.id !in q.skip && !w.leased(e.seat, pool) && w.seatUp(e.seat)
    && w.resolve(e) != Unresolvable
    && (pool == None ==> e.pool == None || e.pool.value == "" || e.pool.value in w.pools)
    && (pool != None && pool.value in w.pools ==>
          match w.pools[pool.value].eligible
          case None => !w.pools[pool.value].exhaustedStatus
          case Some(eligible) => eligible > 0)
    && (q.class_ == "verify" && !e.sameVendorFallback ==>
          e.maker != match q.author case None => e.maker + "?" case Some(a) => if a == "devin" then "cognition" else a)
  }

  /** Claude is short when its pool is listed and at most one account is eligible, or, with no count, exhausted. */
  lemma ClaudeIsShort(w: World)
    ensures w.ClaudeCritical() <==>
      && "anthropic-general" in w.pools
      && match w.pools["anthropic-general"].eligible
         case None => w.pools["anthropic-general"].exhaustedStatus
         case Some(eligible) => eligible <= 1
  {
  }

  lemma UsableIs(w: World, q: Query, e: Entry)
    ensures Usable(w, q, e) <==> !Fixed(w, q, e)
  {
    if q.author == None {
      assert |e.maker + "?"| > |e.maker|;
    }
  }

  /** What is chosen is on the ladder, was not skipped, and passes every bar that no preference can waive. */
  lemma ChosenPassesBars(w: World, q: Query, walk: Walk) returns (i: nat)
    requires Walked(w, q, walk) && walk.chosen.Some?
    ensures i < |Entries(w, q)| && RowAt(w, q, Entries(w, q), i, walk.chosen.value)
    ensures walk.chosen.value.status != Skipped && Usable(w, q, Entries(w, q)[i])
  {
    if q.prefer.Some? {
      i := ChosenIsRow(w, q, walk);
    } else {
      i :| Best(w, q, Entries(w, q), i) && RowAt(w, q, Entries(w, q), i, walk.chosen.value);
    }
    UsableIs(w, q, Entries(w, q)[i]);
  }

  /** Bars that the caller's preference waives: a shut gate, the one rung kept for a reserve that is not running, and a
      pool kept for orchestrators; and a stand-in while a default rung above it is not skipped. */
  lemma WaivedIs(w: World, q: Query, e: Entry, early: bool)
    ensures Barred(w, q, e, early) && Usable(w, q, e) <==>
      && Usable(w, q, e) && (q.prefer == None || (q.prefer.value != e.id && q.prefer.value != e.seat))
      && (e.gate == Gated(false)
          || (e.id == "sonnet-cursor-high" && (w.reserve(q.class_) == None || !w.reserve(q.class_).value.active))
          || (e.reserveHard && KeptBack(w, q, e)) || (e.standInOnly && early))
  {
    UsableIs(w, q, e);
    hide Usable, Fixed;
  }

  /** The rung's pool is kept for orchestrators, and this class is not admitted. */
  ghost predicate KeptBack(w: World, q: Query, e: Entry) {
    var pool := if e.pool != None && e.pool.value in w.pools then e.pool else w.poolFor(e.alias);
    match w.reserve(q.class_)
    case None => false
    case Some(reserve) => reserve.active && !reserve.admitted && pool == Some(reserve.pool)
  }

  /** A rung that is not skipped is soft when its pool is kept back or it is the author's own maker's fallback. */
  lemma SoftIs(w: World, q: Query, entries: seq<Entry>, i: nat)
    requires i < |entries| && StatusAt(w, q, entries, i) != Skipped
    ensures StatusAt(w, q, entries, i) == Soft <==> entries[i].sameVendorFallback || KeptBack(w, q, entries[i])
  {
  }

  /** A worker rung's reviewer is a rung the caller skipped exactly when the best rung of its maker's verify ladder,
      walked without any skip, is one. */
  lemma ReviewerIsSkipped(w: World, q: Query, walk: Walk, k: nat, i: nat)
    requires Walked(w, q, walk) && Rank(q) == 1 && k < |walk.rungs| && walk.rungs[k].status != Skipped
    requires var verify := Query("verify", Some(Entries(w, q)[k].maker), [], None, None);
      Best(w, verify, Entries(w, verify), i)
    ensures var verify := Query("verify", Some(Entries(w, q)[k].maker), [], None, None);
      && walk.rungs[k].audit.Reviewer?
      && (walk.rungs[k].audit.row.rung in q.skip <==> Entries(w, verify)[i].id in q.skip)
  {
    var verify := Query("verify", Some(Entries(w, q)[k].maker), [], None, None);
    var reviewers := Entries(w, verify);
    assert RowAt(w, q, Entries(w, q), k, walk.rungs[k]);
    assert StatusAt(w, verify, reviewers, i) != Skipped;
    var j: nat :| Best(w, verify, reviewers, j) && Plain(w, verify, reviewers, j, walk.rungs[k].audit.row);
    OneBest(w, verify, reviewers, i, j);
  }

  lemma OneBest(w: World, q: Query, entries: seq<Entry>, i: nat, j: nat)
    requires Best(w, q, entries, i) && Best(w, q, entries, j)
    ensures i == j
  {
  }

  // ---- a skipped rung that reviews ----

  const WORKER := Entry("worker", "sol-implementer", "openai", "sol", None, Ungated, false, false, false)

  const REVIEWER := Entry("r", "verifier", "anthropic", "opus", None, Ungated, false, false, false)

  /** One worker rung, one verify rung, everything up. */
  function SmallWorld(): World {
    World((class_, author) => if class_ == "verify" then [REVIEWER] else [WORKER], map[], alias => None, class_ => None,
      (class_, e) => false, (seat, pool) => false, (e: Entry) => Model(e.alias), seat => true, (a, b, c) => a == b,
      (class_, e) => None)
  }

  /** The caller skips rung `r`, and rung `r` reviews. */
  method SkippedRungReviews() returns (q: Query, walk: Walk)
    ensures Walked(SmallWorld(), q, walk) && q.skip == ["r"]
    ensures walk.chosen.Some? && walk.chosen.value.audit.Reviewer? && walk.chosen.value.audit.row.rung == "r"
  {
    var w := SmallWorld();
    q := Query("implement", None, ["r"], None, None);
    walk := LadderWalk(w, q);
    var verify := Query("verify", Some("openai"), [], None, None);
    assert Entries(w, q) == [WORKER] && Entries(w, verify) == [REVIEWER];
    assert StatusAt(w, q, [WORKER], 0) == Open && StatusAt(w, verify, [REVIEWER], 0) == Open;
    assert Best(w, verify, [REVIEWER], 0);
    assert RowAt(w, q, [WORKER], 0, walk.chosen.value);
  }
}
