/** A session asks for a hold on a rung (clients/route_pick.py:84-212, clients/route_heal.py:260-272).

  Any request or its reply may be lost. Between requests time passes and other sessions use the store.
  The pools, leases and models that the walk sees may change at every turn; the ladder is fixed.
*/
module ReserveWalk {
  import opened Options
  import opened LadderWalk
  import opened Reservations

  /** What a request tells its sender; `Silent` covers a lost request and a lost reply. */
  datatype Answer<T> = Answered(reply: T) | Silent

  datatype Acquired = Got(hold: Hold) | Busy | Failed

  datatype Outcome = Holds(hold: Hold, model: string) | Refused | Waits | Unreachable | Unreleased(id: nat)

  // ---- requests over a link that loses messages ----

  /** A request is lost before the store sees it, or served with its reply lost, or answered. */
  datatype Fate = Lost | Unheard | Heard

  class Link {
    const fate: nat -> Fate
    var sent: nat

    constructor (fate: nat -> Fate)
      ensures this.fate == fate && sent == 0
    {
      this.fate, sent := fate, 0;
    }

    /** The fate of the request sent `back` requests ago. */
    function Ago(back: nat): Fate
      reads this
      requires back < sent
    {
      fate(sent - 1 - back)
    }

    method Send() returns (f: Fate)
      modifies this
      ensures sent == old(sent) + 1 && f == Ago(0)
    {
      f := fate(sent);
      sent := sent + 1;
    }
  }

  method AskReserve(store: Store, link: Link, job: string, candidate: Candidate, ttl: int)
    returns (answer: Answer<Grant>, ghost served: bool)
    requires store.Valid() && ttl >= 1
    modifies store, link
    ensures link.sent == old(link.sent) + 1 && (answer.Answered? <==> link.Ago(0) == Heard)
    ensures store.Valid() && Known(old(store.owner), store.owner)
    ensures answer.Answered? && answer.reply.Wait? ==> store.Holding(job) == {}
    ensures answer.Answered? && answer.reply.Reserved? ==> Owns(store, job, answer.reply.hold)
    ensures answer.Answered? && answer.reply.Reserved? && !answer.reply.existing ==>
      Fills(LeaseOf(answer.reply.hold), candidate) && Count(store.live, candidate.key) <= candidate.capacity
    ensures answer.Answered? && answer.reply.Reserved? && answer.reply.existing ==>
      LeaseOf(answer.reply.hold) in old(store.Holding(job))
    ensures answer.Answered? && answer.reply.Wait? ==> Count(store.live, candidate.key) >= candidate.capacity
    ensures forall p :: p in store.Holding(job) ==> p in old(store.Holding(job)) || (served && Fills(p, candidate))
    ensures served <==> link.Ago(0) != Lost
  {
    var fate := link.Send();
    store.Interfere(job);
    if fate == Lost {
      return Silent, false;
    }
    served := true;
    ghost var held := store.Holding(job);
    ghost var alive := Alive(store.live, store.now);
    var grant := store.Reserve(job, [candidate], ttl);
    if grant.Reserved? && !grant.existing {
      assert store.live[..|store.live| - 1] == alive;
    }
    if fate == Unheard {
      return Silent, true;
    }
    answer := Answered(grant);
  }

  /** The lease is what the candidate asked for. */
  predicate Fills(lease: Lease, c: Candidate) {
    lease.rung == c.rung && lease.seat == c.seat && lease.model == c.model && lease.key == c.key
  }

  /** The job holds this hold and nothing else. */
  ghost predicate Owns(store: Store, job: string, h: Hold)
    reads store
  {
    store.Holding(job) == {LeaseOf(h)} && h.id in store.owner && store.owner[h.id] == job
  }

  method AskHeartbeat(store: Store, link: Link, job: string, id: nat, model: string) returns (answer: Answer<Beat>)
    requires store.Valid() && id in store.owner && store.owner[id] == job
    modifies store, link
    ensures link.sent == old(link.sent) + 1 && (answer.Answered? <==> link.Ago(0) == Heard)
    ensures store.Valid() && Known(old(store.owner), store.owner)
    ensures forall l :: l in store.Holding(job) ==>
      l in old(store.Holding(job)) || exists m :: m in old(store.Holding(job)) && l == m.(model := model)
    ensures answer.Answered? && answer.reply.Renewed? ==>
      answer.reply.hold.id == id && answer.reply.hold.model == model && LeaseOf(answer.reply.hold) in store.Holding(job)
    ensures answer.Answered? && !answer.reply.Renewed? ==> forall l :: l in store.Holding(job) ==> l.id != id
  {
    var fate := link.Send();
    store.Interfere(job);
    if fate == Lost {
      return Silent;
    }
    var beat := store.Heartbeat(id, None, Some(model));
    if fate == Unheard {
      return Silent;
    }
    answer := Answered(beat);
  }

  method AskRelease(store: Store, link: Link, job: string, id: nat) returns (answer: Answer<bool>, ghost served: bool)
    requires store.Valid()
    modifies store, link
    ensures link.sent == old(link.sent) + 1 && (answer.Answered? <==> link.Ago(0) == Heard)
    ensures store.Valid() && Known(old(store.owner), store.owner)
    ensures store.Holding(job) <= old(store.Holding(job))
    ensures served ==> forall l :: l in store.Holding(job) ==> l.id != id
    ensures served <==> link.Ago(0) != Lost
  {
    var fate := link.Send();
    store.Interfere(job);
    if fate == Lost {
      return Silent, false;
    }
    var known := store.Release(id, "failed");
    served := true;
    if fate == Unheard {
      return Silent, true;
    }
    answer := Answered(known);
  }

  // ---- one round of acquires ----

  /** The candidates whose capacity key was not refused, in order. */
  function Left(candidates: seq<Candidate>, refused: seq<string>): seq<Candidate> {
    if candidates == [] then []
    else (if candidates[0].key in refused then [] else [candidates[0]]) + Left(candidates[1..], refused)
  }

  lemma {:induction false} LeftFirst(candidates: seq<Candidate>, refused: seq<string>) returns (k: nat)
    requires Left(candidates, refused) != []
    ensures k < |candidates| && Left(candidates, refused)[0] == candidates[k] && candidates[k].key !in refused
    ensures forall j :: 0 <= j < k ==> candidates[j].key in refused
  {
    if candidates[0].key in refused {
      k := LeftFirst(candidates[1..], refused);
      k := k + 1;
    } else {
      k := 0;
    }
  }

  lemma {:induction false} LeftNone(candidates: seq<Candidate>, refused: seq<string>)
    requires Left(candidates, refused) == []
    ensures forall j :: 0 <= j < |candidates| ==> candidates[j].key in refused
  {
    if candidates != [] {
      LeftNone(candidates[1..], refused);
      forall j | 0 <= j < |candidates| ensures candidates[j].key in refused {
        assert j > 0 ==> candidates[1..][j - 1] == candidates[j];
      }
    }
  }

  /** Refusing one more key leaves the candidates of the other keys. */
  lemma {:induction false} LeftMore(candidates: seq<Candidate>, refused: seq<string>, key: string)
    ensures Without(Left(candidates, refused), key) == Left(candidates, refused + [key])
  {
    if candidates != [] {
      LeftMore(candidates[1..], refused, key);
      var rest := Left(candidates[1..], refused);
      if candidates[0].key !in refused {
        assert ([candidates[0]] + rest)[1..] == rest;
      } else {
        assert [] + rest == rest;
      }
    }
  }

  function Without(candidates: seq<Candidate>, key: string): seq<Candidate> {
    if candidates == [] then []
    else (if candidates[0].key == key then [] else [candidates[0]]) + Without(candidates[1..], key)
  }

  lemma {:induction false} WithoutShorter(candidates: seq<Candidate>, key: string)
    ensures |Without(candidates, key)| <= |candidates|
    ensures candidates != [] && candidates[0].key == key ==> |Without(candidates, key)| < |candidates|
  {
    if candidates != [] {
      WithoutShorter(candidates[1..], key);
    }
  }

  ghost predicate Offers(candidates: seq<Candidate>, lease: Lease) {
    exists k :: 0 <= k < |candidates| && Fills(lease, candidates[k])
  }

  /** The lease is what candidate `k` asked for, the first whose key was not refused. */
  ghost predicate FirstOffered(candidates: seq<Candidate>, refused: seq<string>, lease: Lease, k: nat) {
    k < |candidates| && Fills(lease, candidates[k]) && candidates[k].key !in refused
    && forall j :: 0 <= j < k ==> candidates[j].key in refused
  }

  /** The key refused last is full. */
  ghost predicate LastIsFull(candidates: seq<Candidate>, refused: seq<string>, live: seq<Hold>) {
    refused != [] && exists k :: 0 <= k < |candidates| && candidates[k].key == refused[|refused| - 1]
                                 && Count(live, candidates[k].key) >= candidates[k].capacity
  }

  /** Among these requests one was served unheard, after the last that was answered. */
  ghost predicate UnheardLast(fate: nat -> Fate, first: nat, end: nat) {
    exists k :: first <= k < end && fate(k) == Unheard && forall j :: k < j < end ==> fate(j) != Heard
  }

  /** Asks for one candidate of each capacity key in turn until one is held. `unheard` says that the store served
      an acquire whose reply was lost, after the last one that was answered. */
  method ReserveCandidates(store: Store, link: Link, job: string, candidates: seq<Candidate>, ttl: int)
    returns (result: Acquired, ghost refused: seq<string>, ghost unheard: bool)
    requires store.Valid() && ttl >= 1
    modifies store, link
    ensures link.sent == old(link.sent) + |refused| + (if result.Got? then 1 else 0)
    ensures unheard <==> UnheardLast(link.fate, old(link.sent), old(link.sent) + |refused|)
    ensures candidates != [] ==> link.sent > old(link.sent)
    ensures result.Got? || (candidates != [] && result.Busy?) ==> link.sent > 0 && link.Ago(0) == Heard
    ensures result.Failed? ==> link.sent > 0 && link.Ago(0) != Heard && candidates != []
    ensures store.Valid() && Known(old(store.owner), store.owner)
    ensures forall p :: p in store.Holding(job) ==> p in old(store.Holding(job)) || Offers(candidates, p)
    ensures result.Got? ==> Owns(store, job, result.hold)
    ensures result.Busy? && candidates != [] ==> store.Holding(job) == {}
    ensures !result.Got? && !unheard ==> store.Holding(job) <= old(store.Holding(job))
    ensures forall i, j :: 0 <= i < j < |refused| ==> refused[i] != refused[j]
    ensures !result.Got? ==> forall j :: 0 <= j < |candidates| ==> candidates[j].key in refused
    ensures result.Got? && LeaseOf(result.hold) !in old(store.Holding(job)) && !unheard ==>
      exists k: nat :: FirstOffered(candidates, refused, LeaseOf(result.hold), k)
                       && Count(store.live, candidates[k].key) <= candidates[k].capacity
    ensures result.Busy? && candidates != [] ==> LastIsFull(candidates, refused, store.live)
  {
    hide Left, Without, UnheardLast, LastIsFull, FirstOffered, Offers;
    UnheardNone(link.fate, link.sent);
    var left := candidates;
    result, refused, unheard := Busy, [], false;
    assert Left(candidates, []) == candidates by { LeftAll(candidates); }
    while left != []
      invariant store.Valid() && Known(old(store.owner), store.owner)
      invariant left == Left(candidates, refused) && link.sent == old(link.sent) + |refused|
      invariant unheard <==> UnheardLast(link.fate, old(link.sent), link.sent)
      invariant refused == [] ==> result.Busy? && left == candidates
      invariant refused != [] ==> candidates != [] && link.sent > 0 && (result.Busy? <==> link.Ago(0) == Heard)
      invariant forall i, j :: 0 <= i < j < |refused| ==> refused[i] != refused[j]
      invariant forall p :: p in store.Holding(job) ==>
        p in old(store.Holding(job)) || (unheard && Offers(candidates, p))
      invariant result.Busy? && refused != [] ==> LastIsFull(candidates, refused, store.live)
      invariant !result.Got? && (result.Busy? && refused != [] ==> store.Holding(job) == {} && !unheard)
      decreases |left|
    {
      var candidate := left[0];
      ghost var k := LeftFirst(candidates, refused);
      ghost var before := store.Holding(job);
      var answer, served := AskReserve(store, link, job, candidate, ttl);
      if answer.Answered? && answer.reply.Reserved? {
        OfferedAt(candidates, refused, LeaseOf(answer.reply.hold), k);
        return Got(answer.reply.hold), refused, unheard;
      }
      OneOffered(candidates, k);
      if answer.Answered? {
        KeyIsFull(candidates, refused, k, store.live);
      }
      result := if answer.Answered? then Busy else Failed;
      UnheardNext(link.fate, old(link.sent), link.sent - 1);
      unheard := answer.Silent? && (unheard || served);
      LeftMore(candidates, refused, candidate.key);
      WithoutShorter(left, candidate.key);
      left, refused := Without(left, candidate.key), refused + [candidate.key];
    }
    LeftNone(candidates, refused);
  }

  lemma OfferedAt(candidates: seq<Candidate>, refused: seq<string>, lease: Lease, k: nat)
    requires k < |candidates| && candidates[k].key !in refused
    requires forall j :: 0 <= j < k ==> candidates[j].key in refused
    ensures Fills(lease, candidates[k]) ==> FirstOffered(candidates, refused, lease, k) && Offers(candidates, lease)
  {
  }

  lemma OneOffered(candidates: seq<Candidate>, k: nat)
    requires k < |candidates|
    ensures forall lease :: Fills(lease, candidates[k]) ==> Offers(candidates, lease)
  {
  }

  lemma KeyIsFull(candidates: seq<Candidate>, refused: seq<string>, k: nat, live: seq<Hold>)
    requires k < |candidates| && Count(live, candidates[k].key) >= candidates[k].capacity
    ensures LastIsFull(candidates, refused + [candidates[k].key], live)
  {
  }

  lemma UnheardNone(fate: nat -> Fate, n: nat)
    ensures !UnheardLast(fate, n, n)
  {
  }

  lemma UnheardNext(fate: nat -> Fate, first: nat, n: nat)
    requires first <= n
    ensures UnheardLast(fate, first, n + 1) <==> fate(n) == Unheard || (fate(n) == Lost && UnheardLast(fate, first, n))
  {
    if k :| (first <= k < n + 1 && fate(k) == Unheard && forall j :: k < j < n + 1 ==> fate(j) != Heard) {
      assert k < n ==> fate(n) != Heard;
    }
  }

  lemma {:induction false} LeftAll(candidates: seq<Candidate>)
    ensures Left(candidates, []) == candidates
  {
    if candidates != [] {
      LeftAll(candidates[1..]);
    }
  }

  // ---- the loop ----

  function Ids(entries: seq<Entry>): set<string> { set i | 0 <= i < |entries| :: entries[i].id }

  // ---- what a turn asks for ----

  /** The rows a turn asks for: the preferred one, or those that are not skipped, open rungs first. */
  ghost function Asked(q: Query, walk: Walk): seq<Row>
    requires walk.chosen.Some?
  {
    if q.prefer == None then Filter(walk.rungs, Is(Open)) + Filter(walk.rungs, Is(Soft)) else [walk.chosen.value]
  }

  /** The lease is of row `r`, under the model that the row names. */
  ghost predicate OfRow(lease: Lease, r: Row, slot: Row -> (string, nat)) {
    lease.rung == r.rung && lease.seat == r.seat && lease.key == slot(r).0
    && lease.model == (if r.model == None then r.alias else r.model.value)
  }

  /** The lease is of the first row asked for whose key was not refused; if an acquire was served unheard, of some row
      asked for. */
  ghost predicate OfFirst(lease: Lease, rows: seq<Row>, refused: seq<string>, lost: bool, slot: Row -> (string, nat),
      k: nat) {
    k < |rows| && OfRow(lease, rows[k], slot)
    && (!lost ==> slot(rows[k]).0 !in refused && forall j :: 0 <= j < k ==> slot(rows[j]).0 in refused)
  }

  /** The row of a rung on the walk, or the chosen one for a rung that is on no ladder any more. */
  ghost predicate RowFor(walk: Walk, rung: string, row: Row)
    requires walk.chosen.Some?
  {
    if exists i :: 0 <= i < |walk.rungs| && walk.rungs[i].rung == rung then
      exists i :: 0 <= i < |walk.rungs| && walk.rungs[i] == row && row.rung == rung
                  && forall j :: 0 <= j < i ==> walk.rungs[j].rung != rung
    else row == walk.chosen.value
  }

  /** Where a turn's hold comes from: it was held before, or it is of the first row asked for with room. Its model is
      the row's, or the one found when the row's were still to be listed. */
  ghost predicate Sourced(store: Store, q: Query, walk: Walk, refused: seq<string>, lost: bool,
      slot: Row -> (string, nat), settle: Row -> Option<string>, h: Hold, model: string, before: set<Lease>)
    requires walk.chosen.Some?
    reads store
  {
    exists lease: Lease, row: Row :: LeaseOf(h) == lease.(model := model) && RowFor(walk, lease.rung, row)
      && (if ToBeListed(row) then settle(row) == Some(model) else lease.model == model)
      && (lease in before
          || FirstAsked(store, q, walk, refused, lost, slot, lease, !ToBeListed(row)))
  }

  ghost predicate FirstAsked(store: Store, q: Query, walk: Walk, refused: seq<string>, lost: bool,
      slot: Row -> (string, nat), lease: Lease, counted: bool)
    requires walk.chosen.Some?
    reads store
  {
    exists k: nat :: OfFirst(lease, Asked(q, walk), refused, lost, slot, k)
                     && (!lost && counted ==> Count(store.live, lease.key) <= slot(Asked(q, walk)[k]).1)
  }

  /** Without a preference exactly the rows that are not skipped are asked for, the open ones first and both in the
      walk's order; with one, the preferred row, which is not skipped either. */
  lemma AskedAre(w: World, q: Query, walk: Walk)
    requires Walked(w, q, walk) && walk.chosen.Some?
    ensures q.prefer.None? ==> forall row :: row in Asked(q, walk) <==> row in walk.rungs && row.status != Skipped
    ensures q.prefer.None? ==>
      forall i, j :: 0 <= i < j < |Asked(q, walk)| ==>
        Asked(q, walk)[i].status == Open || Asked(q, walk)[j].status == Soft
    ensures q.prefer.Some? ==> Asked(q, walk) == [walk.chosen.value] && walk.chosen.value.status != Skipped
  {
    var k := ChosenPassesBars(w, q, walk);
    assert walk.chosen.value.status != Skipped;
    hide Walked, RowAt, Usable;
    if q.prefer.None? {
      OpenThenSoft(walk.rungs);
    }
  }

  lemma OpenThenSoft(rows: seq<Row>)
    ensures var all := Filter(rows, Is(Open)) + Filter(rows, Is(Soft));
      && (forall row :: row in all <==> row in rows && row.status != Skipped)
      && (forall i, j :: 0 <= i < j < |all| ==> all[i].status == Open || all[j].status == Soft)
  {
    var open, soft := Filter(rows, Is(Open)), Filter(rows, Is(Soft));
    forall row ensures row in open + soft <==> row in rows && row.status != Skipped {
      FilterIn(rows, Is(Open), row);
      FilterIn(rows, Is(Soft), row);
    }
    forall i | 0 <= i < |open| ensures open[i].status == Open {
      FilterIn(rows, Is(Open), open[i]);
    }
    forall i | 0 <= i < |soft| ensures soft[i].status == Soft {
      FilterIn(rows, Is(Soft), soft[i]);
    }
  }

  /** Every row was asked for, each capacity key once. */
  ghost predicate AllAsked(q: Query, walk: Walk, refused: seq<string>, slot: Row -> (string, nat))
    requires walk.chosen.Some?
  {
    && (forall j :: 0 <= j < |Asked(q, walk)| ==> slot(Asked(q, walk)[j]).0 in refused)
    && (forall i, j :: 0 <= i < j < |refused| ==> refused[i] != refused[j])
  }

  lemma AllSlotsAsked(q: Query, walk: Walk, refused: seq<string>, slot: Row -> (string, nat), rows: seq<Row>,
      candidates: seq<Candidate>)
    requires walk.chosen.Some? && rows == Asked(q, walk) && candidates == Slots(rows, slot)
    requires forall j :: 0 <= j < |candidates| ==> candidates[j].key in refused
    requires forall i, j :: 0 <= i < j < |refused| ==> refused[i] != refused[j]
    ensures AllAsked(q, walk, refused, slot)
  {
    SlotsOf(rows, slot);
    hide Asked;
    forall j | 0 <= j < |rows| ensures slot(rows[j]).0 in refused {
      assert candidates[j].key in refused;
    }
  }

  /** A row asked for has no room left. */
  ghost predicate AskedInVain(store: Store, q: Query, walk: Walk, slot: Row -> (string, nat))
    requires walk.chosen.Some?
    reads store
  {
    exists k :: 0 <= k < |Asked(q, walk)|
                && Count(store.live, slot(Asked(q, walk)[k]).0) >= slot(Asked(q, walk)[k]).1
  }

  function Slots(rows: seq<Row>, slot: Row -> (string, nat)): seq<Candidate> {
    seq(|rows|, i requires 0 <= i < |rows| =>
      Candidate(rows[i].rung, rows[i].seat, if rows[i].model.Some? then rows[i].model.value
        else rows[i].alias, slot(rows[i]).0, slot(rows[i]).1))
  }

  /** The row of a held rung, or the chosen one when the hold is on no rung of the ladder. */
  method RowOf(rungs: seq<Row>, rung: string, chosen: Row) returns (row: Row)
    ensures row in rungs || row == chosen
    ensures if exists i :: 0 <= i < |rungs| && rungs[i].rung == rung then
        exists i :: 0 <= i < |rungs| && rungs[i] == row && row.rung == rung
                    && forall j :: 0 <= j < i ==> rungs[j].rung != rung
      else row == chosen
  {
    for i := 0 to |rungs|
      invariant forall j :: 0 <= j < i ==> rungs[j].rung != rung
    {
      if rungs[i].rung == rung {
        return rungs[i];
      }
    }
    return chosen;
  }

  /** The models of the row, or of its reviewer, are still to be listed. */
  ghost predicate ToBeListed(row: Row) {
    row.pending || match row.audit
      case Reviewer(r) => r.pending
      case _ => false
  }

  predicate Unresolved(row: Row) { row.pending || (row.audit.Reviewer? && row.audit.row.pending) }

  /** A row whose models are still unknown is on the ladder and was not skipped. */
  lemma UnresolvedIsFresh(w: World, q: Query, walk: Walk, row: Row)
    requires Walked(w, q, walk) && walk.chosen.Some? && (row in walk.rungs || row == walk.chosen.value)
      && Unresolved(row)
    ensures row.rung in Ids(Entries(w, q)) && row.rung !in q.skip
  {
    var entries := Entries(w, q);
    var i: nat;
    if row == walk.chosen.value {
      i := ChosenPassesBars(w, q, walk);
    } else {
      i :| 0 <= i < |walk.rungs| && walk.rungs[i] == row;
    }
    assert RowAt(w, q, entries, i, row);
    assert row.rung == entries[i].id;
  }

  /** Releases with two tries; any answer settles it. */
  method LetGo(store: Store, link: Link, job: string, h: Hold) returns (gone: bool, ghost served: bool)
    requires store.Valid() && forall l :: l in store.Holding(job) ==> l.id == h.id
    modifies store, link
    ensures store.Valid() && Known(old(store.owner), store.owner)
    ensures store.Holding(job) <= old(store.Holding(job))
    ensures gone ==> served && link.sent > 0 && link.Ago(0) == Heard && old(link.sent) < link.sent <= old(link.sent) + 2
    ensures !gone ==> link.sent == old(link.sent) + 2 && link.Ago(0) != Heard && link.Ago(1) != Heard
    ensures served ==> store.Holding(job) == {}
    ensures !gone ==> (served <==> link.Ago(0) == Unheard || link.Ago(1) == Unheard)
  {
    var answer, first := AskRelease(store, link, job, h.id);
    if answer.Answered? {
      return true, true;
    }
    var again, second := AskRelease(store, link, job, h.id);
    return again.Answered?, first || second;
  }

  /** A held rung whose models are still listed: renew it under the model found, or give it up. */
  method Settle(store: Store, link: Link, job: string, h: Hold, settled: Option<string>)
    returns (stop: Option<Outcome>, ghost served: bool)
    requires store.Valid() && Owns(store, job, h)
    modifies store, link
    ensures store.Valid() && old(link.sent) < link.sent
    ensures stop.None? ==> store.Holding(job) == {} && link.Ago(0) == Heard
    ensures stop.Some? && stop.value.Holds? ==> Owns(store, job, stop.value.hold) && stop.value.hold.id == h.id
    ensures stop.Some? && stop.value.Holds? ==> LeaseOf(stop.value.hold) == LeaseOf(h).(model := stop.value.model)
    ensures stop.Some? && stop.value.Holds? ==>
      settled == Some(stop.value.model) && link.sent == old(link.sent) + 1 && link.Ago(0) == Heard
    ensures stop.Some? ==> stop.value.Holds? || stop.value == Unreleased(h.id)
    ensures stop == Some(Unreleased(h.id)) ==>
      (forall l :: l in store.Holding(job) ==> l.id == h.id) && (served ==> store.Holding(job) == {})
    ensures stop == Some(Unreleased(h.id)) ==>
      link.sent > 1 && (served <==> link.Ago(0) == Unheard || link.Ago(1) == Unheard)
    ensures stop == Some(Unreleased(h.id)) ==>
      link.sent == old(link.sent) + (if settled.Some? then 3 else 2) && link.Ago(0) != Heard && link.Ago(1) != Heard
    ensures settled.Some? && link.fate(old(link.sent)) == Heard ==> link.sent == old(link.sent) + 1
  {
    served := false;
    if settled.Some? {
      var answer := AskHeartbeat(store, link, job, h.id, settled.value);
      if answer.Answered? {
        if answer.reply.Renewed? {
          return Some(Holds(answer.reply.hold, settled.value)), false;
        }
        return None, false;
      }
    }
    var gone, now := LetGo(store, link, job, h);
    if gone {
      return None, now;
    }
    return Some(Unreleased(h.id)), now;
  }

  datatype Step = Stop(outcome: Outcome) | GiveUp(rung: string)

  /** One turn of the loop. `seen` is the state of pools, leases and models that its walk saw; `settle` what listing
      the models of a held row comes to. */
  method Turn(store: Store, link: Link, table: World, q: Query, job: string, ttl: int, slot: Row -> (string, nat),
      settle: Row -> Option<string>)
    returns (step: Step, ghost unheard: bool, ghost seen: World, ghost walk: Walk, ghost refused: seq<string>,
      ghost lost: bool)
    requires store.Valid() && ttl >= 1
    modifies store, link
    ensures store.Valid() && old(link.sent) <= link.sent
    ensures seen.ladder == table.ladder && Walked(seen, q, walk)
    ensures step == Stop(Refused) <==> walk.chosen.None?
    ensures walk.chosen.Some? ==> link.sent > old(link.sent)
    ensures step == Stop(Waits) || step.GiveUp? ==> link.sent > 0 && link.Ago(0) == Heard
    ensures step == Stop(Unreachable) ==> link.sent > 0 && link.Ago(0) != Heard
    ensures step.Stop? && step.outcome.Unreleased? ==> link.sent > 1 && link.Ago(0) != Heard && link.Ago(1) != Heard
    ensures step.GiveUp? ==> store.Holding(job) == {} && step.rung in Ids(Entries(table, q)) && step.rung !in q.skip
    ensures step.Stop? ==> Ends(store, job, step.outcome, unheard, old(store.Holding(job)))
    ensures step.Stop? && step.outcome.Holds? ==> Sourced(store, q, walk, refused, lost, slot, settle,
      step.outcome.hold, step.outcome.model, old(store.Holding(job)))
    ensures lost <==> UnheardLast(link.fate, old(link.sent), old(link.sent) + |refused|)
    ensures step == Stop(Unreachable) ==> (unheard <==> lost)
    ensures step.Stop? && step.outcome.Unreleased? ==> (unheard <==> link.Ago(0) == Unheard || link.Ago(1) == Unheard)
    ensures step == Stop(Waits) ==> AskedInVain(store, q, walk, slot)
    ensures step == Stop(Waits) || step == Stop(Unreachable) ==>
      AllAsked(q, walk, refused, slot) && link.sent == old(link.sent) + |refused|
    ensures step.GiveUp? ==> exists rung, row :: RowFor(walk, rung, row) && step.rung == row.rung && ToBeListed(row)
  {
    hide Walked, Unresolved, Ids, Slots, Owns, Asked, RowFor, OfFirst, Sourced, FirstAsked, AskedInVain, Offers,
      FirstOffered, LastIsFull, AllAsked;
    var answers: World := *;
    var w := answers.(ladder := table.ladder);
    unheard, refused, lost := false, [], false;
    var found := LadderWalk.LadderWalk(w, q);
    seen, walk := w, found;
    if found.chosen.None? {
      return Stop(Refused), false, w, found, refused, lost;
    }
    RoutableWhenChosen(w, q, found);
    var rows := if q.prefer.Some? then [found.chosen.value] else found.routable;
    AskedIs(w, q, found);
    var candidates := Slots(rows, slot);
    SlotsOf(rows, slot);
    ghost var before := store.Holding(job);
    var result;
    result, refused, lost := ReserveCandidates(store, link, job, candidates, ttl);
    if !result.Got? {
      AllSlotsAsked(q, found, refused, slot, rows, candidates);
    }
    if result.Failed? {
      return Stop(Unreachable), lost, w, found, refused, lost;
    }
    if result.Busy? {
      InVain(store, q, found, slot, rows, candidates, refused);
      return Stop(Waits), false, w, found, refused, lost;
    }
    OwnsOne(store, job, result.hold);
    if LeaseOf(result.hold) !in before {
      FromSlot(rows, slot, candidates, refused, lost, LeaseOf(result.hold), store, q, found);
    }
    step, unheard := Confirm(store, link, w, q, found, job, result.hold, slot, settle, refused, lost, before);
    return step, unheard, w, found, refused, lost;
  }

  /** What becomes of a hold: kept, confirmed under the model found, or given up. */
  method Confirm(store: Store, link: Link, w: World, q: Query, found: Walk, job: string, h: Hold,
      slot: Row -> (string, nat), settle: Row -> Option<string>, ghost refused: seq<string>, ghost lost: bool,
      ghost before: set<Lease>)
    returns (step: Step, ghost unheard: bool)
    requires store.Valid() && Walked(w, q, found) && found.chosen.Some? && Owns(store, job, h)
    requires LeaseOf(h) in before || FirstAsked(store, q, found, refused, lost, slot, LeaseOf(h), true)
    modifies store, link
    ensures store.Valid() && old(link.sent) <= link.sent
    ensures step.GiveUp? || (step.Stop? && (step.outcome.Holds? || step.outcome.Unreleased?))
    ensures step.GiveUp? ==> link.sent > 0 && link.Ago(0) == Heard
    ensures step.Stop? && step.outcome.Unreleased? ==> link.sent > 1 && link.Ago(0) != Heard && link.Ago(1) != Heard
    ensures step.GiveUp? ==> store.Holding(job) == {} && step.rung in Ids(Entries(w, q)) && step.rung !in q.skip
    ensures step.Stop? && step.outcome.Unreleased? ==> (unheard <==> link.Ago(0) == Unheard || link.Ago(1) == Unheard)
    ensures step.Stop? ==> Ends(store, job, step.outcome, unheard, before)
    ensures step.Stop? && step.outcome.Holds? ==> Sourced(store, q, found, refused, lost, slot, settle,
      step.outcome.hold, step.outcome.model, before)
    ensures step.GiveUp? ==> exists row :: RowFor(found, h.rung, row) && step.rung == row.rung && ToBeListed(row)
    ensures step.GiveUp? ==> link.sent > old(link.sent)
  {
    hide Walked, Unresolved, ToBeListed, Ids, Owns, Asked, RowFor, OfFirst, Sourced, FirstAsked;
    var row := RowOf(found.rungs, h.rung, found.chosen.value);
    UnresolvedIs(row);
    RowIs(found, h.rung, row);
    ghost var lease := LeaseOf(h);
    if !Unresolved(row) {
      SourcedFrom(store, q, found, refused, lost, slot, settle, h, h.model, before, lease, row);
      return Stop(Holds(h, h.model)), false;
    }
    UnresolvedIsFresh(w, q, found, row);
    ghost var k: nat := if lease in before then 0 else AskedAt(store, q, found, refused, lost, slot, lease);
    var stop, served := Settle(store, link, job, h, settle(row));
    if stop.Some? {
      if stop.value.Holds? {
        if lease !in before {
          AskedStill(store, q, found, refused, lost, slot, lease, k);
        }
        SourcedFrom(store, q, found, refused, lost, slot, settle, stop.value.hold, stop.value.model, before, lease,
          row);
      }
      return Stop(stop.value), served;
    }
    return GiveUp(row.rung), false;
  }

  ghost function AskedAt(store: Store, q: Query, walk: Walk, refused: seq<string>, lost: bool,
      slot: Row -> (string, nat), lease: Lease): (k: nat)
    requires walk.chosen.Some? && FirstAsked(store, q, walk, refused, lost, slot, lease, true)
    reads store
    ensures OfFirst(lease, Asked(q, walk), refused, lost, slot, k)
  {
    var k: nat :| OfFirst(lease, Asked(q, walk), refused, lost, slot, k); k
  }

  lemma AskedStill(store: Store, q: Query, walk: Walk, refused: seq<string>, lost: bool, slot: Row -> (string, nat),
      lease: Lease, k: nat)
    requires walk.chosen.Some? && OfFirst(lease, Asked(q, walk), refused, lost, slot, k)
    ensures FirstAsked(store, q, walk, refused, lost, slot, lease, false)
  {
  }

  lemma AskedIs(w: World, q: Query, walk: Walk)
    requires Walked(w, q, walk) && walk.chosen.Some?
    ensures Asked(q, walk) == if q.prefer.Some? then [walk.chosen.value] else walk.routable
  {
  }

  lemma UnresolvedIs(row: Row)
    ensures Unresolved(row) <==> ToBeListed(row)
  {
  }

  lemma RowIs(walk: Walk, rung: string, row: Row)
    requires walk.chosen.Some?
    requires if exists i :: 0 <= i < |walk.rungs| && walk.rungs[i].rung == rung then
        exists i :: 0 <= i < |walk.rungs| && walk.rungs[i] == row && row.rung == rung
                    && forall j :: 0 <= j < i ==> walk.rungs[j].rung != rung
      else row == walk.chosen.value
    ensures RowFor(walk, rung, row)
  {
  }

  lemma OwnsOne(store: Store, job: string, h: Hold)
    requires Owns(store, job, h)
    ensures LeaseOf(h) in store.Holding(job)
  {
  }

  lemma InVain(store: Store, q: Query, walk: Walk, slot: Row -> (string, nat), rows: seq<Row>,
      candidates: seq<Candidate>, refused: seq<string>)
    requires walk.chosen.Some? && rows == Asked(q, walk) && candidates == Slots(rows, slot)
    requires LastIsFull(candidates, refused, store.live)
    ensures AskedInVain(store, q, walk, slot)
  {
    SlotsOf(rows, slot);
    hide Asked;
  }

  lemma SourcedFrom(store: Store, q: Query, walk: Walk, refused: seq<string>, lost: bool, slot: Row -> (string, nat),
      settle: Row -> Option<string>, h: Hold, model: string, before: set<Lease>, lease: Lease, row: Row)
    requires walk.chosen.Some? && LeaseOf(h) == lease.(model := model) && RowFor(walk, lease.rung, row)
    requires if ToBeListed(row) then settle(row) == Some(model) else lease.model == model
    requires lease in before || FirstAsked(store, q, walk, refused, lost, slot, lease, !ToBeListed(row))
    ensures Sourced(store, q, walk, refused, lost, slot, settle, h, model, before)
  {
    hide FirstAsked, ToBeListed, RowFor;
  }

  lemma FromSlot(rows: seq<Row>, slot: Row -> (string, nat), candidates: seq<Candidate>, refused: seq<string>,
      lost: bool, lease: Lease, store: Store, q: Query, walk: Walk)
    requires walk.chosen.Some? && rows == Asked(q, walk)
    requires candidates == Slots(rows, slot) && Offers(candidates, lease)
    requires !lost ==> exists k: nat :: FirstOffered(candidates, refused, lease, k)
                                       && Count(store.live, candidates[k].key) <= candidates[k].capacity
    ensures FirstAsked(store, q, walk, refused, lost, slot, lease, true)
  {
    hide Count, Asked;
    SlotsOf(rows, slot);
    if lost {
      var k :| 0 <= k < |candidates| && Fills(lease, candidates[k]);
      assert OfFirst(lease, rows, refused, lost, slot, k);
    } else {
      var k: nat :| (FirstOffered(candidates, refused, lease, k)
                     && Count(store.live, candidates[k].key) <= candidates[k].capacity);
      assert OfFirst(lease, rows, refused, lost, slot, k);
    }
  }

  lemma SlotsOf(rows: seq<Row>, slot: Row -> (string, nat))
    ensures |Slots(rows, slot)| == |rows|
    ensures forall k :: 0 <= k < |rows| ==>
      Slots(rows, slot)[k] == Candidate(rows[k].rung, rows[k].seat,
        if rows[k].model == None then rows[k].alias else rows[k].model.value, slot(rows[k]).0, slot(rows[k]).1)
    ensures rows != [] ==> Slots(rows, slot) != []
  {
  }

  /** What the job holds when the walk returns. `unheard` says that a lost reply hid what the store did last. */
  ghost predicate Ends(store: Store, job: string, outcome: Outcome, unheard: bool, before: set<Lease>)
    reads store
  {
    match outcome
    case Holds(h, _) => Owns(store, job, h)
    case Waits => store.Holding(job) == {}
    case Refused => store.Holding(job) <= before
    case Unreachable => unheard || store.Holding(job) <= before
    case Unreleased(id) =>
      (forall p :: p in store.Holding(job) ==> p.id == id) && (unheard ==> store.Holding(job) == {})
  }

  /** `dropped` are the rungs given up, in order: once one was given up the job holds nothing at the loop head. */
  method ReserveWalk(store: Store, link: Link, table: World, q: Query, job: string, ttl: int,
      slot: Row -> (string, nat), settle: Row -> Option<string>)
    returns (outcome: Outcome, ghost dropped: seq<string>, ghost unheard: bool, ghost seen: World, ghost walk: Walk,
      ghost refused: seq<string>, ghost lost: bool, ghost held: set<Lease>)
    requires store.Valid() && ttl >= 1
    modifies store, link
    ensures store.Valid()
    ensures Ends(store, job, outcome, unheard, if dropped == [] then old(store.Holding(job)) else {})
    ensures forall i :: 0 <= i < |dropped| ==> dropped[i] in Ids(Entries(table, q)) && dropped[i] !in q.skip
    ensures forall i, j :: 0 <= i < j < |dropped| ==> dropped[i] != dropped[j]
    ensures seen.ladder == table.ladder && Walked(seen, q.(skip := q.skip + dropped), walk)
    ensures outcome == Refused <==> walk.chosen.None?
    ensures outcome.Holds? ==> Sourced(store, q.(skip := q.skip + dropped), walk, refused, lost, slot, settle,
      outcome.hold, outcome.model, held)
    ensures held <= if dropped == [] then old(store.Holding(job)) else {}
    ensures outcome == Waits ==> AskedInVain(store, q.(skip := q.skip + dropped), walk, slot)
    ensures outcome == Waits ==> link.sent > 0 && link.Ago(0) == Heard
    ensures outcome == Waits || outcome == Unreachable ==>
      AllAsked(q.(skip := q.skip + dropped), walk, refused, slot)
    ensures outcome == Unreachable ==> link.sent > 0 && link.Ago(0) != Heard
    ensures outcome == Unreachable ==>
      |refused| <= link.sent && (unheard <==> UnheardLast(link.fate, link.sent - |refused|, link.sent))
    ensures outcome.Unreleased? ==> link.sent > 1 && link.Ago(0) != Heard && link.Ago(1) != Heard
    ensures outcome.Unreleased? ==>
      (unheard <==> link.Ago(0) == Unheard || link.Ago(1) == Unheard)
  {
    hide UnheardLast, Ids, Ends, Walked, Sourced, AskedInVain, RowFor, AllAsked, Asked, HoldsOf;
    var skip := q.skip;
    dropped := [];
    while true
      invariant store.Valid() && skip == q.skip + dropped
      invariant if dropped == [] then store.Holding(job) <= old(store.Holding(job)) else store.Holding(job) == {}
      invariant forall i :: 0 <= i < |dropped| ==> dropped[i] in Ids(Entries(table, q)) && dropped[i] !in q.skip
      invariant forall i, j :: 0 <= i < j < |dropped| ==> dropped[i] != dropped[j]
      decreases Ids(Entries(table, q)) - set x | x in skip
    {
      held := store.Holding(job);
      var step;
      step, unheard, seen, walk, refused, lost := Turn(store, link, table, q.(skip := skip), job, ttl, slot, settle);
      if step.Stop? {
        EndsFewer(store, job, step.outcome, unheard, held, if dropped == [] then old(store.Holding(job)) else {});
        return step.outcome, dropped, unheard, seen, walk, refused, lost, held;
      }
      FewerLeft(Ids(Entries(table, q)), skip, q.skip, dropped, step.rung);
      skip, dropped := skip + [step.rung], dropped + [step.rung];
    }
  }

  lemma FewerLeft(ids: set<string>, skip: seq<string>, start: seq<string>, dropped: seq<string>, rung: string)
    requires rung in ids && rung !in skip && skip == start + dropped
    ensures skip + [rung] == start + (dropped + [rung])
    ensures ids - (set x | x in skip + [rung]) < ids - (set x | x in skip)
    ensures rung !in start && rung !in dropped
  {
    assert rung in ids - (set x | x in skip);
    assert rung in skip + [rung];
    assert forall x :: x in start ==> x in skip;
    assert forall x :: x in dropped ==> x in skip;
  }

  lemma EndsFewer(store: Store, job: string, outcome: Outcome, unheard: bool, before: set<Lease>,
      start: set<Lease>)
    requires Ends(store, job, outcome, unheard, before) && before <= start
    ensures Ends(store, job, outcome, unheard, start)
  {
  }

  lemma RoutableWhenChosen(w: World, q: Query, walk: Walk)
    requires Walked(w, q, walk) && walk.chosen.Some?
    ensures walk.routable != []
  {
    var i := ChosenPassesBars(w, q, walk);
    FilterIn(walk.rungs, Is(Open), walk.rungs[i]);
    FilterIn(walk.rungs, Is(Soft), walk.rungs[i]);
    assert walk.rungs[i] in walk.rungs && RowAt(w, q, Entries(w, q), i, walk.rungs[i]);
    assert walk.rungs[i] in Filter(walk.rungs, Is(Open)) || walk.rungs[i] in Filter(walk.rungs, Is(Soft));
  }

  ghost predicate AllHeard(fate: nat -> Fate, first: nat, n: nat) {
    forall k :: first <= k < first + n ==> fate(k) == Heard
  }

  /** After a stop signal: list the job's holds and release them until a listing shows none, while there is time for
      another request. Three requests that are heard are enough. */
  method ReleaseJobHold(store: Store, link: Link, job: string, budget: nat) returns (clear: bool)
    requires store.Valid()
    modifies store, link
    ensures store.Valid() && store.Holding(job) <= old(store.Holding(job))
    ensures clear ==> store.Holding(job) == {} && link.sent > old(link.sent) && link.Ago(0) == Heard
    ensures link.sent <= old(link.sent) + budget && (!clear ==> link.sent == old(link.sent) + budget)
    ensures budget >= 3 && AllHeard(link.fate, old(link.sent), 3) ==> clear
  {
    var until := link.sent + budget;
    while link.sent < until
      invariant store.Valid() && store.Holding(job) <= old(store.Holding(job))
      invariant old(link.sent) <= link.sent <= until
      invariant budget >= 3 && AllHeard(link.fate, old(link.sent), 3) ==>
        link.sent == old(link.sent) || (link.sent == old(link.sent) + 2 && store.Holding(job) == {})
      decreases until - link.sent
    {
      var stop := ReleaseRound(store, link, job, until);
      if stop.Some? {
        return stop.value;
      }
    }
    return false;
  }

  /** One listing and the releases of what it shows; the answer is whether the job is clear, or no answer yet. */
  method ReleaseRound(store: Store, link: Link, job: string, until: nat) returns (stop: Option<bool>)
    requires store.Valid() && link.sent < until
    modifies store, link
    ensures store.Valid() && store.Holding(job) <= old(store.Holding(job))
    ensures old(link.sent) < link.sent <= until
    ensures stop == Some(true) ==> store.Holding(job) == {} && link.Ago(0) == Heard
    ensures stop == Some(false) ==> link.sent == until
    ensures link.fate(old(link.sent)) == Heard && old(store.Holding(job)) == {} ==> stop == Some(true)
    ensures link.fate(old(link.sent)) == Heard && until >= old(link.sent) + 2 ==> stop != Some(false)
    ensures stop == None && link.fate(old(link.sent)) == Heard == link.fate(old(link.sent) + 1) ==>
      link.sent == old(link.sent) + 2 && store.Holding(job) == {}
  {
    hide HoldsOf, Count, Alive, Young, Expired, Distinct, Fewer, Known;
    var first := link.sent;
    var fate := link.Send();
    store.Interfere(job);
    if fate == Heard {
      ghost var raw := store.live;
      store.Purge();
      AliveAll(raw, store.now);
      OneEach(store.live, store.next);
      var held := JobRows(store.live, job);
      NoRows(store, job, held);
      if held == [] {
        return Some(true);
      }
      RowHeld(store, job, held);
      var late := ReleaseRows(store, link, job, held, until);
      if late {
        return Some(false);
      }
    }
    stop := None;
  }

  /** Releases what the listing showed, while there is time. */
  method ReleaseRows(store: Store, link: Link, job: string, held: seq<Hold>, until: nat) returns (late: bool)
    requires store.Valid() && link.sent <= until && held != [] && |held| <= 1
    requires forall l :: l in store.Holding(job) ==> l.id == held[0].id
    modifies store, link
    ensures store.Valid() && store.Holding(job) <= old(store.Holding(job))
    ensures late <==> old(link.sent) == until
    ensures link.sent == if late then old(link.sent) else old(link.sent) + 1
    ensures !late && link.fate(old(link.sent)) != Lost ==> store.Holding(job) == {}
  {
    hide HoldsOf, Distinct, Known;
    for i := 0 to |held|
      invariant store.Valid() && store.Holding(job) <= old(store.Holding(job))
      invariant link.sent == old(link.sent) + i && (i > 0 ==> old(link.sent) < until)
      invariant i == 1 && link.fate(old(link.sent)) != Lost ==> store.Holding(job) == {}
    {
      if link.sent == until {
        return true;
      }
      var _, _ := AskRelease(store, link, job, held[i].id);
    }
    return false;
  }

  lemma OneEach(live: seq<Hold>, next: nat)
    requires Distinct(live, next)
    ensures forall i, j :: 0 <= i < j < |live| ==> live[i].job != live[j].job
  {
  }

  lemma RowHeld(store: Store, job: string, held: seq<Hold>)
    requires held != [] && held[0] in store.live && held[0].job == job && held[0].expires > store.now
    ensures store.Holding(job) != {}
  {
    assert LeaseOf(held[0]) in store.Holding(job);
  }

  lemma NoRows(store: Store, job: string, held: seq<Hold>)
    requires store.Valid() && |held| <= 1
    requires forall i :: 0 <= i < |store.live| && store.live[i].job == job ==> store.live[i] in held
    ensures forall l :: l in store.Holding(job) ==> held != [] && l.id == held[0].id
  {
  }

  /** A job has at most one hold. */
  method JobRows(live: seq<Hold>, job: string) returns (held: seq<Hold>)
    requires forall i, j :: 0 <= i < j < |live| ==> live[i].job != live[j].job
    ensures |held| <= 1 && forall i :: 0 <= i < |live| && live[i].job == job ==> live[i] in held
    ensures forall i :: 0 <= i < |held| ==> held[i] in live && held[i].job == job
  {
    held := [];
    for i := 0 to |live|
      invariant |held| <= 1 && forall j :: 0 <= j < i && live[j].job == job ==> live[j] in held
      invariant held != [] ==> exists j :: 0 <= j < i && live[j].job == job
      invariant forall j :: 0 <= j < |held| ==> held[j].job == job && exists k :: 0 <= k < i && live[k] == held[j]
    {
      if live[i].job == job {
        held := held + [live[i]];
      }
    }
  }
}
