/** The store of reservation holds on the server (app/modules/pools/reservations.py:56-155).

  Every request takes the file lock, drops the holds that have run out, does its work and writes back.
*/
module Reservations {
  import opened Options

  const DAY_SECONDS := 86400

  datatype Candidate = Candidate(rung: string, seat: string, model: string, key: string, capacity: nat)

  datatype Hold = Hold(id: nat, job: string, rung: string, seat: string, model: string, key: string, ttl: int,
      expires: int)

  datatype Past = Past(hold: Hold, outcome: string, at: int)

  datatype Grant = Reserved(hold: Hold, existing: bool, overflow: seq<string>) | Wait(seconds: int)

  datatype Beat = Renewed(hold: Hold) | Over | Unknown

  function Alive(live: seq<Hold>, now: int): seq<Hold> {
    if live == [] then []
    else Alive(live[..|live| - 1], now) + (if live[|live| - 1].expires <= now then [] else [live[|live| - 1]])
  }

  function Count(live: seq<Hold>, key: string): nat {
    if live == [] then 0 else Count(live[..|live| - 1], key) + (if live[|live| - 1].key == key then 1 else 0)
  }

  /** One hold a job, one job an id, ids issued before `next`, lifetimes of at least a second. */
  ghost predicate Distinct(live: seq<Hold>, next: nat) {
    && (forall i, j :: 0 <= i < j < |live| ==> live[i].job != live[j].job && live[i].id != live[j].id)
    && (forall i :: 0 <= i < |live| ==> live[i].id < next && live[i].ttl >= 1)
  }

  /** What a hold gives its job, whenever it runs out. */
  datatype Lease = Lease(id: nat, rung: string, seat: string, model: string, key: string)

  function LeaseOf(h: Hold): Lease { Lease(h.id, h.rung, h.seat, h.model, h.key) }

  /** The leases of a job that have not run out. */
  ghost function HoldsOf(live: seq<Hold>, now: int, job: string): set<Lease> {
    set h | h in live && h.job == job && h.expires > now :: LeaseOf(h)
  }

  /** The leases without lease `id`. */
  ghost function Others(leases: set<Lease>, id: nat): set<Lease> { set l | l in leases && l.id != id }

  /** What a renewal leaves of the live holds `before`: the hold renewed, or everything as it was. */
  ghost predicate Beaten(before: seq<Hold>, after: seq<Hold>, recent: seq<Past>, id: nat, ttl: Option<int>,
      model: Option<string>, now: int, beat: Beat) {
    if exists i :: 0 <= i < |before| && before[i].id == id then
      exists i :: 0 <= i < |before| && before[i].id == id && after == before[i := Renewal(before[i], ttl, model, now)]
                  && beat == Renewed(after[i])
    else after == before && beat == (if OnRecord(recent, id) then Over else Unknown)
  }

  /** What a release leaves: the hold moved to the ended ones, or everything as it was. */
  ghost predicate Released(before: seq<Hold>, after: seq<Hold>, past: seq<Past>, recent: seq<Past>, id: nat,
      outcome: string, now: int, known: bool) {
    if exists i :: 0 <= i < |before| && before[i].id == id then
      known && exists i :: 0 <= i < |before| && before[i].id == id && after == before[..i] + before[i + 1..]
                           && recent == past + [Past(before[i], outcome, now)]
    else after == before && recent == past && (known <==> OnRecord(recent, id))
  }

  /** The same leases with lease `id` under another model. */
  ghost function Remodelled(leases: set<Lease>, id: nat, model: Option<string>): set<Lease> {
    set l | l in leases :: if l.id == id && model.Some? then l.(model := model.value) else l
  }

  // ---- ended holds ----

  function Expired(live: seq<Hold>, now: int): seq<Past> {
    if live == [] then []
    else
      var last := live[|live| - 1];
      Expired(live[..|live| - 1], now) + (if last.expires > now then [] else [Past(last, "expired", last.expires)])
  }

  /** Those that ended less than a day ago. */
  function Young(past: seq<Past>, now: int): seq<Past> {
    if past == [] then []
    else Young(past[..|past| - 1], now) + (if past[|past| - 1].at <= now - 86_400 then [] else [past[|past| - 1]])
  }

  /** Exactly the holds that have run out are on record as expired, when they did. */
  lemma {:induction false} ExpiredIn(live: seq<Hold>, now: int, p: Past)
    ensures p in Expired(live, now) <==>
      p.hold in live && p.hold.expires <= now && p.outcome == "expired" && p.at == p.hold.expires
  {
    if live != [] {
      assert live == live[..|live| - 1] + [live[|live| - 1]];
      ExpiredIn(live[..|live| - 1], now, p);
    }
  }

  lemma {:induction false} YoungIn(past: seq<Past>, now: int, p: Past)
    ensures p in Young(past, now) <==> p in past && now - p.at < 24 * 3600
  {
    if past != [] {
      assert past == past[..|past| - 1] + [past[|past| - 1]];
      YoungIn(past[..|past| - 1], now, p);
    }
  }

  ghost predicate OnRecord(recent: seq<Past>, id: nat) { exists i :: 0 <= i < |recent| && recent[i].hold.id == id }

  lemma {:induction false} AliveIn(live: seq<Hold>, now: int, h: Hold)
    ensures h in Alive(live, now) <==> h in live && h.expires > now
  {
    if live != [] {
      assert live == live[..|live| - 1] + [live[|live| - 1]];
      AliveIn(live[..|live| - 1], now, h);
    }
  }

  lemma {:induction false} AliveDistinct(live: seq<Hold>, now: int, next: nat)
    requires Distinct(live, next)
    ensures Distinct(Alive(live, now), next)
  {
    if live != [] {
      var rest, last := live[..|live| - 1], live[|live| - 1];
      AliveDistinct(rest, now, next);
      forall i | 0 <= i < |Alive(rest, now)|
          ensures Alive(rest, now)[i].job != last.job && Alive(rest, now)[i].id != last.id {
        AliveIn(rest, now, Alive(rest, now)[i]);
      }
    }
  }

  lemma AliveAll(live: seq<Hold>, now: int)
    ensures forall i :: 0 <= i < |Alive(live, now)| ==> Alive(live, now)[i].expires > now
  {
    forall i | 0 <= i < |Alive(live, now)| ensures Alive(live, now)[i].expires > now {
      AliveIn(live, now, Alive(live, now)[i]);
    }
  }

  lemma AliveSame(live: seq<Hold>, now: int, job: string)
    ensures HoldsOf(Alive(live, now), now, job) == HoldsOf(live, now, job)
  {
    forall h ensures h in Alive(live, now) <==> h in live && h.expires > now {
      AliveIn(live, now, h);
    }
  }

  /** The first candidate whose capacity key has room. */
  ghost predicate FirstRoom(live: seq<Hold>, candidates: seq<Candidate>, k: nat) {
    && k < |candidates| && Count(live, candidates[k].key) < candidates[k].capacity
    && Full(live, candidates, k)
  }

  ghost predicate Full(live: seq<Hold>, candidates: seq<Candidate>, n: nat) {
    n <= |candidates| && forall j :: 0 <= j < n ==> Count(live, candidates[j].key) >= candidates[j].capacity
  }

  ghost predicate Within(live: seq<Hold>, capacity: map<string, nat>) {
    forall key :: key in capacity ==> Count(live, key) <= capacity[key]
  }

  lemma {:induction false} CountAlive(live: seq<Hold>, now: int, key: string)
    ensures Count(Alive(live, now), key) <= Count(live, key)
  {
    if live != [] {
      CountAlive(live[..|live| - 1], now, key);
      var kept, last := Alive(live[..|live| - 1], now), live[|live| - 1];
      if last.expires > now {
        assert (kept + [last])[..|kept|] == kept;
        assert Count(kept + [last], key) == Count(kept, key) + (if last.key == key then 1 else 0);
      } else {
        assert Alive(live, now) == kept;
      }
    }
  }

  lemma {:induction false} CountConcat(a: seq<Hold>, b: seq<Hold>, key: string)
    ensures Count(a + b, key) == Count(a, key) + Count(b, key)
  {
    if b == [] {
      assert a + b == a;
    } else {
      assert (a + b)[..|a + b| - 1] == a + b[..|b| - 1];
      CountConcat(a, b[..|b| - 1], key);
    }
  }

  lemma CountSplit(live: seq<Hold>, i: nat, key: string)
    requires i < |live|
    ensures Count(live, key) == Count(live[..i], key) + Count([live[i]], key) + Count(live[i + 1..], key)
  {
    assert live == live[..i] + [live[i]] + live[i + 1..];
    CountConcat(live[..i] + [live[i]], live[i + 1..], key);
    CountConcat(live[..i], [live[i]], key);
  }

  lemma CountRenewed(live: seq<Hold>, i: nat, h: Hold, key: string)
    requires i < |live| && h.key == live[i].key
    ensures Count(live[i := h], key) == Count(live, key)
  {
    CountSplit(live, i, key);
    CountSplit(live[i := h], i, key);
    assert live[i := h][..i] == live[..i] && live[i := h][i + 1..] == live[i + 1..];
    assert [h][..0] == [] && [live[i]][..0] == [];
  }

  lemma CountDropped(live: seq<Hold>, i: nat, key: string)
    requires i < |live|
    ensures Count(Drop(live, i), key) <= Count(live, key)
  {
    CountSplit(live, i, key);
    CountConcat(live[..i], live[i + 1..], key);
  }

  /** No key has more holds than before. */
  ghost predicate Fewer(after: seq<Hold>, before: seq<Hold>) { forall key :: Count(after, key) <= Count(before, key) }

  /** While every request for a key names the same capacity, no key is ever over-committed. */
  lemma GrantStaysWithin(live: seq<Hold>, now: int, candidates: seq<Candidate>, k: nat, h: Hold,
      capacity: map<string, nat>)
    requires Within(live, capacity) && FirstRoom(Alive(live, now), candidates, k) && h.key == candidates[k].key
    requires h.key in capacity ==> candidates[k].capacity == capacity[h.key]
    ensures Within(Alive(live, now) + [h], capacity)
  {
    var kept := Alive(live, now);
    assert (kept + [h])[..|kept|] == kept;
    forall key | key in capacity ensures Count(kept + [h], key) <= capacity[key] {
      CountAlive(live, now, key);
    }
  }

  function Rungs(candidates: seq<Candidate>): seq<string> {
    seq(|candidates|, i requires 0 <= i < |candidates| => candidates[i].rung)
  }

  ghost predicate Known(before: map<nat, string>, now: map<nat, string>) {
    forall id :: id in before ==> id in now && now[id] == before[id]
  }

  lemma LaterHolds(live: seq<Hold>, before: int, now: int, job: string)
    requires before <= now
    ensures HoldsOf(live, now, job) <= HoldsOf(live, before, job)
  {
    forall p | p in HoldsOf(live, now, job) ensures p in HoldsOf(live, before, job) {
      var h :| h in live && h.job == job && h.expires > now && p == LeaseOf(h);
      assert h.expires > before;
    }
  }

  /** The time to the first expiry of the key, kept between 5 and 60 seconds, and 5 seconds when it has no hold. */
  ghost predicate WaitsFor(live: seq<Hold>, key: string, now: int, seconds: int) {
    && 5 <= seconds <= 60
    && ((forall i :: 0 <= i < |live| ==> live[i].key != key) ==> seconds == 5)
    && (forall i :: 0 <= i < |live| && live[i].key == key ==>
          if live[i].expires <= now + 5 then seconds == 5 else seconds <= live[i].expires - now)
    && (5 < seconds < 60 ==> exists i :: 0 <= i < |live| && live[i].key == key && live[i].expires == now + seconds)
    && (seconds == 5 ==> forall i :: 0 <= i < |live| && live[i].key == key ==>
          exists j :: 0 <= j < |live| && live[j].key == key && live[j].expires <= now + 5)
  }

  class Store {
    var live: seq<Hold>
    var recent: seq<Past>
    var now: int
    var next: nat
    /** The job each id was issued to. */
    ghost var owner: map<nat, string>

    /** No file yet: no holds, past or present. */
    constructor (now: int)
      ensures Valid() && live == [] && recent == [] && this.now == now && owner == map[]
    {
      live, recent, this.now, next, owner := [], [], now, 0, map[];
    }

    ghost predicate Valid()
      reads this
    {
      && Distinct(live, next)
      && (forall i :: 0 <= i < |live| ==> live[i].id in owner && owner[live[i].id] == live[i].job)
      && (forall id :: id in owner ==> id < next)
    }

    ghost function Holding(job: string): set<Lease>
      reads this
    {
      HoldsOf(live, now, job)
    }

    method Tick()
      requires Valid()
      modifies this`now
      ensures Valid() && old(now) <= now && forall job :: Holding(job) <= old(Holding(job))
    {
      var passed: int := *;
      ghost var before := now;
      if passed > 0 {
        now := now + passed;
      }
      forall job ensures HoldsOf(live, now, job) <= HoldsOf(live, before, job) {
        LaterHolds(live, before, now, job);
      }
    }

    method Purge()
      requires Valid()
      modifies this`live, this`recent
      ensures recent == Young(old(recent) + Expired(old(live), now), now)
      ensures Valid() && live == Alive(old(live), now) && Fewer(live, old(live))
        && forall job :: Holding(job) == old(Holding(job))
    {
      hide HoldsOf, Count, Distinct;
      var kept: seq<Hold> := [];
      var past := recent;
      for i := 0 to |live|
        invariant kept == Alive(live[..i], now) && past == recent + Expired(live[..i], now)
      {
        assert live[..i + 1][..i] == live[..i];
        if live[i].expires <= now {
          past := past + [Past(live[i], "expired", live[i].expires)];
        } else {
          kept := kept + [live[i]];
        }
      }
      assert live[..|live|] == live;
      forall job {
        AliveSame(live, now, job);
      }
      AliveDistinct(live, now, next);
      forall key {
        CountAlive(live, now, key);
      }
      forall i | 0 <= i < |kept| ensures kept[i] in live {
        AliveIn(live, now, kept[i]);
      }
      live := kept;
      var young: seq<Past> := [];
      for j := 0 to |past|
        invariant young == Young(past[..j], now)
      {
        assert past[..j + 1][..j] == past[..j];
        if past[j].at > now - DAY_SECONDS {
          young := young + [past[j]];
        }
      }
      assert past[..|past|] == past;
      recent := young;
    }

    /** A job that holds a rung gets that hold again, and otherwise the first candidate with room. */
    method Reserve(job: string, candidates: seq<Candidate>, ttl: int) returns (grant: Grant)
      requires Valid() && |candidates| > 0 && ttl >= 1
      modifies this`live, this`recent, this`next, this`owner
      ensures Valid() && Known(old(owner), owner)
      ensures grant.Reserved? ==> grant.hold.id in owner && owner[grant.hold.id] == job
      ensures grant.Reserved? ==> Holding(job) == {LeaseOf(grant.hold)}
      ensures grant.Wait? ==> Holding(job) == {}
      ensures forall other :: other != job ==> Holding(other) == old(Holding(other))
      ensures grant.Reserved? && grant.existing <==> old(Holding(job)) != {}
      ensures old(Holding(job)) != {} ==> live == Alive(old(live), now) && Holding(job) == old(Holding(job))
      ensures recent == Young(old(recent) + Expired(old(live), now), now)
      ensures grant.Reserved? && grant.existing ==> grant.hold in live && grant.overflow == []
      ensures grant.Wait? ==> WaitsFor(live, candidates[0].key, now, grant.seconds)
      ensures grant.Reserved? && !grant.existing ==> exists k: nat ::
        && FirstRoom(Alive(old(live), now), candidates, k) && live == Alive(old(live), now) + [grant.hold]
        && grant.hold == NewHold(old(next), job, candidates[k], ttl, now) && grant.overflow == Rungs(candidates[..k])
      ensures grant.Wait? ==>
        live == Alive(old(live), now) && Full(live, candidates, |candidates|) && 5 <= grant.seconds <= 60
    {
      Purge();
      AliveAll(old(live), now);
      hide Alive, HoldsOf, Count, Full, FirstRoom, Rungs;
      var own := HoldOf(job);
      if own.Some? {
        return Reserved(own.value, true, []);
      }
      var k := Room(candidates);
      if k < |candidates| {
        var h := Add(job, candidates[k], ttl);
        return Reserved(h, false, Rungs(candidates[..k]));
      }
      var seconds := Delay(candidates[0].key);
      grant := Wait(seconds);
    }

    method Add(job: string, c: Candidate, ttl: int) returns (h: Hold)
      requires Valid() && ttl >= 1 && Holding(job) == {} && forall i :: 0 <= i < |live| ==> live[i].job != job
      modifies this`live, this`next, this`owner
      ensures Valid() && Known(old(owner), owner) && h.id in owner && owner[h.id] == job
      ensures h == NewHold(old(next), job, c, ttl, now) && live == old(live) + [h]
      ensures Holding(job) == {LeaseOf(h)} && forall other :: other != job ==> Holding(other) == old(Holding(other))
    {
      h := NewHold(next, job, c, ttl, now);
      AddedHold(live, now, h);
      hide HoldsOf;
      live, owner, next := live + [h], owner[next := job], next + 1;
    }

    method HoldOf(job: string) returns (own: Option<Hold>)
      requires Valid() && forall i :: 0 <= i < |live| ==> live[i].expires > now
      ensures own.None? ==> Holding(job) == {} && forall i :: 0 <= i < |live| ==> live[i].job != job
      ensures own.Some? ==>
        own.value in live && own.value.job == job && Holding(job) == {LeaseOf(own.value)}
    {
      for i := 0 to |live|
        invariant forall j :: 0 <= j < i ==> live[j].job != job
      {
        if live[i].job == job {
          OnlyHold(live, now, job, i, next);
          return Some(live[i]);
        }
      }
      return None;
    }

    method Room(candidates: seq<Candidate>) returns (k: nat)
      ensures k < |candidates| ==> FirstRoom(live, candidates, k)
      ensures k >= |candidates| ==> Full(live, candidates, |candidates|)
    {
      for i := 0 to |candidates|
        invariant Full(live, candidates, i)
      {
        if Count(live, candidates[i].key) < candidates[i].capacity {
          return i;
        }
      }
      return |candidates|;
    }

    method Delay(key: string) returns (seconds: int)
      ensures WaitsFor(live, key, now, seconds)
    {
      var first: Option<int> := None;
      for i := 0 to |live|
        invariant first.Some? ==> exists j :: 0 <= j < i && live[j].key == key && live[j].expires == first.value
        invariant forall j :: 0 <= j < i && live[j].key == key ==> first.Some? && first.value <= live[j].expires
      {
        if live[i].key == key && (first.None? || live[i].expires < first.value) {
          first := Some(live[i].expires);
        }
      }
      var wait := if first.Some? then first.value - now else 5;
      seconds := if wait < 5 then 5 else if wait > 60 then 60 else wait;
    }

    method Heartbeat(id: nat, ttl: Option<int>, model: Option<string>) returns (beat: Beat)
      requires Valid() && (ttl.Some? ==> ttl.value >= 1)
      modifies this`live, this`recent
      ensures Valid() && Fewer(live, old(live))
      ensures forall job :: Holding(job) == Remodelled(old(Holding(job)), id, model)
      ensures beat.Renewed? <==> exists job, l :: l in old(Holding(job)) && l.id == id
      ensures beat.Renewed? ==> beat.hold.id == id && id in owner && LeaseOf(beat.hold) in Holding(owner[id])
      ensures recent == Young(old(recent) + Expired(old(live), now), now)
      ensures Beaten(Alive(old(live), now), live, recent, id, ttl, model, now, beat)
    {
      Purge();
      AliveAll(old(live), now);
      hide Alive, HoldsOf, Count, Young, Expired, Remodelled, Beaten;
      beat := Renew(id, ttl, model);
    }

    method Renew(id: nat, ttl: Option<int>, model: Option<string>) returns (beat: Beat)
      requires Valid() && (ttl.Some? ==> ttl.value >= 1) && forall i :: 0 <= i < |live| ==> live[i].expires > now
      modifies this`live
      ensures Valid() && Fewer(live, old(live))
      ensures forall job :: Holding(job) == Remodelled(old(Holding(job)), id, model)
      ensures beat.Renewed? <==> exists job, l :: l in old(Holding(job)) && l.id == id
      ensures beat.Renewed? ==> beat.hold.id == id && id in owner && LeaseOf(beat.hold) in Holding(owner[id])
      ensures Beaten(old(live), live, recent, id, ttl, model, now, beat)
    {
      hide HoldsOf, Count, Remodelled;
      for i := 0 to |live|
        invariant forall j :: 0 <= j < i ==> live[j].id != id
      {
        if live[i].id == id {
          var h := live[i].(expires := now + (if ttl.Some? then ttl.value else live[i].ttl));
          if model.Some? {
            h := h.(model := model.value);
          }
          HeldBy(live, now, i);
          ghost var owning, lease := live[i].job, LeaseOf(live[i]);
          assert lease in old(Holding(owning)) && lease.id == id;
          RenewedHold(live, now, next, i, h, model);
          forall key {
            CountRenewed(live, i, h, key);
          }
          live := live[i := h];
          HeldBy(live, now, i);
          return Renewed(h);
        }
      }
      NobodyHolds(live, now, id);
      NoneRemodelled(live, now, id, model);
      for i := 0 to |recent|
        invariant forall j :: 0 <= j < i ==> recent[j].hold.id != id
      {
        if recent[i].hold.id == id {
          return Over;
        }
      }
      return Unknown;
    }

    /** Ends a hold, if there is one; the answer says whether the id is known at all. */
    method Release(id: nat, outcome: string) returns (known: bool)
      requires Valid()
      modifies this`live, this`recent
      ensures Valid() && Fewer(live, old(live))
      ensures forall job :: Holding(job) == Others(old(Holding(job)), id)
      ensures (exists job, l :: l in old(Holding(job)) && l.id == id) ==> known
      ensures Released(Alive(old(live), now), live, Young(old(recent) + Expired(old(live), now), now), recent, id,
        outcome, now, known)
    {
      Purge();
      AliveAll(old(live), now);
      hide Alive, HoldsOf, Count, Young, Expired, Others, Released;
      known := Remove(id, outcome);
    }

    method Remove(id: nat, outcome: string) returns (known: bool)
      requires Valid() && forall i :: 0 <= i < |live| ==> live[i].expires > now
      modifies this`live, this`recent
      ensures Valid() && Fewer(live, old(live))
      ensures forall job :: Holding(job) == Others(old(Holding(job)), id)
      ensures (exists job, l :: l in old(Holding(job)) && l.id == id) ==> known
      ensures Released(old(live), live, old(recent), recent, id, outcome, now, known)
    {
      hide HoldsOf, Count, Others;
      for i := 0 to |live|
        invariant forall j :: 0 <= j < i ==> live[j].id != id
      {
        if live[i].id == id {
          RemovedHold(live, now, i, next);
          DropAt(live, i);
          forall key {
            CountDropped(live, i, key);
          }
          recent := recent + [Past(live[i], outcome, now)];
          live := Drop(live, i);
          return true;
        }
      }
      NobodyHolds(live, now, id);
      for i := 0 to |recent|
        invariant forall j :: 0 <= j < i ==> recent[j].hold.id != id
      {
        if recent[i].hold.id == id {
          return true;
        }
      }
      return false;
    }

    /** Time passes, and sessions of other jobs use the store; someone may also end or renew any hold. */
    method Interfere(job: string)
      requires Valid()
      modifies this
      ensures Valid() && Known(old(owner), owner)
      ensures Holding(job) <= old(Holding(job))
    {
      var steps: nat := *;
      while steps > 0
        invariant Valid() && Known(old(owner), owner)
        invariant Holding(job) <= old(Holding(job))
      {
        steps := steps - 1;
        var other: string, candidates: seq<Candidate>, id: nat, ttl: int := *, *, *, *;
        if * {
          Tick();
        } else if * {
          if other != job && |candidates| > 0 && ttl >= 1 {
            var _ := Reserve(other, candidates, ttl);
          }
        } else if * {
          var _ := Heartbeat(id, None, None);
        } else {
          var _ := Release(id, "cancelled");
        }
      }
    }
  }

  /** A request to the store, or time that passes before the next. */
  datatype Request =
    | Pass
    | Acquire(job: string, candidates: seq<Candidate>, ttl: int)
    | Beats(id: nat, renewal: Option<int>, model: Option<string>)
    | Ends(id: nat, outcome: string)
  {
    /** Well formed, and of one mind about the capacities in the map. */
    predicate Agrees(capacity: map<string, nat>) {
      match this
      case Pass => true
      case Acquire(_, candidates, ttl) =>
        |candidates| > 0 && ttl >= 1
        && forall k :: 0 <= k < |candidates| && candidates[k].key in capacity ==>
             candidates[k].capacity == capacity[candidates[k].key]
      case Beats(_, renewal, _) => renewal.Some? ==> renewal.value >= 1
      case Ends(_, _) => true
    }
  }

  /**
   * Over any run of requests of any jobs that agree on the capacities, no key ever has more holds than its capacity.
   */
  method Serve(store: Store, requests: seq<Request>, ghost capacity: map<string, nat>)
    requires store.Valid() && Within(store.live, capacity)
    requires forall i :: 0 <= i < |requests| ==> requests[i].Agrees(capacity)
    modifies store
    ensures store.Valid() && Within(store.live, capacity)
  {
    hide Count;
    for i := 0 to |requests|
      invariant store.Valid() && Within(store.live, capacity)
    {
      assert requests[i].Agrees(capacity);
      match requests[i]
      case Pass =>
        store.Tick();
      case Acquire(job, candidates, ttl) =>
        ghost var before, now := store.live, store.now;
        AliveWithin(before, now, capacity);
        var grant := store.Reserve(job, candidates, ttl);
        if grant.Reserved? && !grant.existing {
          ghost var k: nat :| FirstRoom(Alive(before, now), candidates, k) && grant.hold.key == candidates[k].key;
          GrantStaysWithin(before, now, candidates, k, grant.hold, capacity);
        }
      case Beats(id, renewal, model) =>
        var _ := store.Heartbeat(id, renewal, model);
      case Ends(id, outcome) =>
        var _ := store.Release(id, outcome);
    }
  }

  lemma AliveWithin(live: seq<Hold>, now: int, capacity: map<string, nat>)
    requires Within(live, capacity)
    ensures Within(Alive(live, now), capacity)
  {
    forall key {
      CountAlive(live, now, key);
    }
  }

  function NewHold(id: nat, job: string, c: Candidate, ttl: int, now: int): Hold {
    Hold(id, job, c.rung, c.seat, c.model, c.key, ttl, now + ttl)
  }

  lemma OnlyHold(live: seq<Hold>, now: int, job: string, i: nat, next: nat)
    requires Distinct(live, next) && i < |live| && live[i].job == job && live[i].expires > now
    ensures HoldsOf(live, now, job) == {LeaseOf(live[i])}
  {
    assert forall h :: h in live && h.job == job ==> h == live[i];
    assert LeaseOf(live[i]) in HoldsOf(live, now, job);
  }

  lemma AddedHold(live: seq<Hold>, now: int, h: Hold)
    requires h.expires > now
    ensures forall job :: job != h.job ==> HoldsOf(live + [h], now, job) == HoldsOf(live, now, job)
    ensures HoldsOf(live, now, h.job) == {} ==> HoldsOf(live + [h], now, h.job) == {LeaseOf(h)}
  {
    forall job ensures HoldsOf(live + [h], now, job) ==
        HoldsOf(live, now, job) + (if job == h.job then {LeaseOf(h)} else {}) {
      var all, some := HoldsOf(live + [h], now, job), HoldsOf(live, now, job);
      assert job == h.job ==> h in live + [h];
      assert forall g :: g in live ==> g in live + [h];
    }
  }

  function Renewal(h: Hold, ttl: Option<int>, model: Option<string>, now: int): Hold {
    h.(expires := if ttl == None then now + h.ttl else now + ttl.value,
       model := if model == None then h.model else model.value)
  }

  lemma RenewedHold(live: seq<Hold>, now: int, next: nat, i: nat, h: Hold, model: Option<string>)
    requires Distinct(live, next) && i < |live| && live[i].expires > now && h.expires > now
    requires LeaseOf(h) == LeaseOf(live[i]).(model := if model.Some? then model.value else live[i].model)
    requires h.job == live[i].job
    ensures forall job :: HoldsOf(live[i := h], now, job) == Remodelled(HoldsOf(live, now, job), h.id, model)
  {
    forall job ensures HoldsOf(live[i := h], now, job) == Remodelled(HoldsOf(live, now, job), h.id, model) {
      forall p | p in Remodelled(HoldsOf(live, now, job), h.id, model) ensures p in HoldsOf(live[i := h], now, job) {
        var l :| (l in HoldsOf(live, now, job)
                  && p == if l.id == h.id && model.Some? then l.(model := model.value) else l);
        var g :| g in live && g.job == job && g.expires > now && l == LeaseOf(g);
        var j :| 0 <= j < |live| && live[j] == g;
        assert live[i := h][j] in live[i := h];
      }
      forall p | p in HoldsOf(live[i := h], now, job) ensures p in Remodelled(HoldsOf(live, now, job), h.id, model) {
        var g :| g in live[i := h] && g.job == job && g.expires > now && p == LeaseOf(g);
        var j :| 0 <= j < |live| && live[i := h][j] == g;
        assert live[j] in live && LeaseOf(live[j]) in HoldsOf(live, now, job);
      }
    }
  }

  lemma HeldBy(live: seq<Hold>, now: int, i: nat)
    requires i < |live| && live[i].expires > now
    ensures LeaseOf(live[i]) in HoldsOf(live, now, live[i].job)
  {
    assert live[i] in live;
  }

  lemma NoneRemodelled(live: seq<Hold>, now: int, id: nat, model: Option<string>)
    requires forall i :: 0 <= i < |live| ==> live[i].id != id
    ensures forall job :: Remodelled(HoldsOf(live, now, job), id, model) == HoldsOf(live, now, job)
  {
    NobodyHolds(live, now, id);
    hide HoldsOf;
  }

  lemma NobodyHolds(live: seq<Hold>, now: int, id: nat)
    requires forall i :: 0 <= i < |live| ==> live[i].id != id
    ensures forall job, l :: l in HoldsOf(live, now, job) ==> l.id != id
    ensures forall job :: Others(HoldsOf(live, now, job), id) == HoldsOf(live, now, job)
  {
  }

  function Drop(live: seq<Hold>, i: nat): seq<Hold>
    requires i < |live|
  {
    live[..i] + live[i + 1..]
  }

  lemma DropAt(live: seq<Hold>, i: nat)
    requires i < |live|
    ensures |Drop(live, i)| == |live| - 1
    ensures forall j :: 0 <= j < |live| - 1 ==> Drop(live, i)[j] == live[if j < i then j else j + 1]
  {
  }

  lemma DropDistinct(live: seq<Hold>, i: nat, next: nat)
    requires Distinct(live, next) && i < |live|
    ensures Distinct(Drop(live, i), next)
  {
    DropAt(live, i);
    hide Drop;
  }

  lemma DropIn(live: seq<Hold>, i: nat, next: nat, h: Hold)
    requires Distinct(live, next) && i < |live|
    ensures h in Drop(live, i) <==> h in live && h.id != live[i].id
  {
    DropAt(live, i);
    hide Drop;
    if j :| 0 <= j < |live| && live[j] == h {
      if j != i {
        assert Drop(live, i)[if j < i then j else j - 1] == h;
      }
    }
  }

  lemma RemovedHold(live: seq<Hold>, now: int, i: nat, next: nat)
    requires Distinct(live, next) && i < |live|
    ensures var left := Drop(live, i);
      && Distinct(left, next)
      && (forall job :: HoldsOf(left, now, job) == Others(HoldsOf(live, now, job), live[i].id))
  {
    hide Distinct, Drop;
    DropDistinct(live, i, next);
    forall h {
      DropIn(live, i, next, h);
    }
  }
}
