/** Choosing the seat of a dispatch (clients/route_heal.py:9-257, 315-338, clients/route_spread.py:8-77). */
module DispatchSelect {
  import opened Options
  import opened Proportion

  /** An arm or a standard: `off` stands for paused, disabled or not enabled, and `shut` for a closed gate. */
  datatype Arm = Arm(id: string, seat: string, model: string, pool: string, off: bool, shut: bool, author: string,
      share: real, strength: real)

  datatype Headroom = Headroom(percent: Option<real>, status: string, provider: string, eligible: int)

  /** What the routing table says for one class. */
  datatype Table = Table(class_: string, base: Arm, byAuthor: map<string, (string, string)>, chain: seq<string>,
      offSeats: set<string>, knownSeats: set<string>, explore: seq<Arm>, maxShare: real, spread: Option<seq<Arm>>,
      missionCritical: bool, minHeadroom: real, handsModel: string -> bool, poolFor: string -> string,
      seatModel: string -> string)

  datatype Kind = Standard | Explicit | Explore | Spread | Constraint

  datatype Choice = Choice(kind: Kind, armId: string, seat: string, model: string)

  /** A job's first earlier decision. */
  datatype Earlier = Earlier(kind: Kind, armId: string, seat: string, alias: string, model: string)

  datatype Flags = Flags(seat: string, model: string, effort: string) {
    predicate Any() { seat != "" || model != "" || effort != "" }
  }

  /** What may send work to the hands seat: a short Codex pool, a recent limit error, full Codex reservations, or the
      swap mode. `tagged` and `grokShut` are what holds it back. */
  datatype Triggers = Triggers(codexEligible: Option<int>, codexStatus: string, limitError: bool, codexFull: bool,
      swap: bool, grokFaster: bool, tagged: bool, grokShut: bool)
  {
    predicate CodexShort() {
      if codexEligible.Some? && codexEligible.value <= 2 then codexEligible.value >= 0
      else codexStatus in {"exhausted", "critical", "low"}
    }

    predicate Fire(class_: string) {
      CodexShort() || limitError || codexFull || (swap && (class_ == "implement" || grokFaster))
    }
  }

  /** Answers of the rest of the program; `draw` and `spin` are the random numbers. */
  datatype World = World(author: string, pools: map<string, Headroom>, armBlocked: Arm -> bool, capped: Arm -> bool,
      stopped: Arm -> bool, triggers: Triggers, noOpusAccount: bool, draw: real, spin: real)

  const HANDS_CLASSES: set<string> := {"implement", "mechanical"}
  const HANDS_SEATS: set<string> := {"grok-implementer"}
  const OPUS_SEATS: set<string> := {"opus-seat", "opus-seat-local", "opus-seat-full"}

  /** The class standard with the author's override. */
  function StandardFor(t: Table, author: string): Arm {
    if author in t.byAuthor then t.base.(seat := t.byAuthor[author].0, model := t.byAuthor[author].1) else t.base
  }

  /** The author's variant gives the standard its seat and model, and nothing else. */
  lemma StandardIs(t: Table, author: string)
    ensures var s := StandardFor(t, author);
      && (author !in t.byAuthor ==> s == t.base)
      && (author in t.byAuthor ==>
            (s.seat, s.model) == t.byAuthor[author] && s.(seat := t.base.seat, model := t.base.model) == t.base)
  {
  }

  predicate HandsRefused(t: Table, seat: string, model: string) {
    t.class_ !in HANDS_CLASSES && (seat in HANDS_SEATS || t.handsModel(model))
  }

  predicate SeatBlocked(t: Table, w: World, arm: Arm, excluded: set<string>) {
    || arm.seat in excluded
    || arm.off || arm.seat in t.offSeats
    || arm.shut
    || (arm.author != "" && arm.author != w.author)
    || (t.class_ == "verify" && arm.seat != StandardFor(t, w.author).seat)
    || HandsRefused(t, arm.seat, arm.model)
  }

  /** The choice as an arm: it carries no flags of its own. */
  function Bare(seat: string, model: string): Arm { Arm("", seat, model, "", false, false, "", 0.0, 0.0) }

  /** A choice that may be dispatched. */
  predicate Safe(t: Table, w: World, excluded: set<string>, c: Choice) {
    && c.seat !in excluded
    && c.seat !in t.offSeats
    && (t.class_ == "verify" ==> c.seat == StandardFor(t, w.author).seat)
    && (t.class_ !in HANDS_CLASSES ==> c.seat !in HANDS_SEATS && !t.handsModel(c.model))
  }

  predicate Roomy(t: Table, h: Headroom) {
    h.percent.Some? && h.percent.value >= t.minHeadroom && h.status != "exhausted" && h.status != "empty"
  }

  // ---- the chain of a standard ----

  ghost predicate ChainOpen(t: Table, w: World, standard: Arm, alias: string, excluded: set<string>) {
    && t.poolFor(alias) in w.pools
    && Roomy(t, w.pools[t.poolFor(alias)]) && w.pools[t.poolFor(alias)].percent.value > 0.0
         && w.pools[t.poolFor(alias)].eligible > 0
    && !SeatBlocked(t, w, standard.(model := alias), excluded)
  }

  ghost predicate FirstInChain(t: Table, w: World, standard: Arm, excluded: set<string>, k: nat) {
    k < |t.chain| && ChainOpen(t, w, standard, t.chain[k], excluded)
      && forall j :: 0 <= j < k ==> !ChainOpen(t, w, standard, t.chain[j], excluded)
  }

  /** The first model of the chain whose pool has room. */
  method ChainChoice(t: Table, w: World, standard: Arm, excluded: set<string>) returns (choice: Option<Choice>)
    ensures choice.Some? ==> Safe(t, w, excluded, choice.value) && Screened(t, w, standard, choice.value)
    ensures choice.Some? ==>
      choice.value.seat == standard.seat
      && exists k: nat :: FirstInChain(t, w, standard, excluded, k) && choice.value.model == t.chain[k]
    ensures choice.None? ==> forall k :: 0 <= k < |t.chain| ==> !ChainOpen(t, w, standard, t.chain[k], excluded)
    ensures Chained(t, w, standard, excluded, choice)
  {
    if standard.seat in excluded {
      return None;
    }
    for k := 0 to |t.chain|
      invariant forall j :: 0 <= j < k ==> !ChainOpen(t, w, standard, t.chain[j], excluded)
    {
      var alias := t.chain[k];
      var pool := if t.poolFor(alias) in w.pools then w.pools[t.poolFor(alias)] else Headroom(None, "", "", 0);
      if pool.percent.None? || pool.percent.value <= 0.0 || pool.percent.value < t.minHeadroom || pool.eligible <= 0
         || pool.status == "exhausted" || pool.status == "empty" {
        continue;
      }
      if SeatBlocked(t, w, standard.(model := alias), excluded) {
        continue;
      }
      assert FirstInChain(t, w, standard, excluded, k);
      choice := Some(Choice(Standard, "standard", standard.seat, alias));
      assert OwnArm(t, w, standard, choice.value, standard);
      return;
    }
    return None;
  }

  // ---- the fallback ----

  predicate SpreadOpen(t: Table, w: World, arm: Arm, excluded: set<string>) {
    !SeatBlocked(t, w, arm, excluded) && arm.pool in w.pools && Roomy(t, w.pools[arm.pool])
  }

  predicate ExploreOpen(t: Table, w: World, arm: Arm, excluded: set<string>) {
    !SeatBlocked(t, w, arm, excluded) && !w.armBlocked(arm) && !w.capped(arm) && !w.stopped(arm)
  }

  function SpreadArms(t: Table): seq<Arm> { if t.spread.Some? then t.spread.value else [] }

  /** Nothing at all can take the work. */
  ghost predicate NothingOpen(t: Table, w: World, standard: Arm, excluded: set<string>) {
    && (forall arm :: arm in SpreadArms(t) ==> !SpreadOpen(t, w, arm, excluded))
    && (forall arm :: arm in t.explore ==> !ExploreOpen(t, w, arm, excluded))
    && SeatBlocked(t, w, standard, excluded) && SeatBlocked(t, w, StandardFor(t, w.author), excluded)
    && (forall author :: author in t.byAuthor ==>
         SeatBlocked(t, w, Bare(t.byAuthor[author].0, t.byAuthor[author].1), excluded))
  }

  ghost predicate FirstSpread(t: Table, w: World, excluded: set<string>, k: nat) {
    k < |SpreadArms(t)| && SpreadOpen(t, w, SpreadArms(t)[k], excluded)
      && forall j :: 0 <= j < k ==> !SpreadOpen(t, w, SpreadArms(t)[j], excluded)
  }

  ghost predicate FirstExplore(t: Table, w: World, excluded: set<string>, k: nat) {
    k < |t.explore| && ExploreOpen(t, w, t.explore[k], excluded)
      && forall j :: 0 <= j < k ==> !ExploreOpen(t, w, t.explore[j], excluded)
  }

  ghost predicate OpenVariant(t: Table, w: World, excluded: set<string>, author: string) {
    author in t.byAuthor && !SeatBlocked(t, w, Bare(t.byAuthor[author].0, t.byAuthor[author].1), excluded)
  }

  /** The first open spread arm, else the first open explore arm, else the standard, the author's standard or any open
      variant, else nothing. */
  ghost predicate FellTo(t: Table, w: World, standard: Arm, excluded: set<string>, choice: Option<Choice>) {
    if exists k: nat :: FirstSpread(t, w, excluded, k) then
      exists k: nat :: FirstSpread(t, w, excluded, k) && choice == Some(FallbackSpread(SpreadArms(t)[k]))
    else if exists k: nat :: FirstExplore(t, w, excluded, k) then
      exists k: nat :: FirstExplore(t, w, excluded, k)
        && choice == Some(Choice(Explore, t.explore[k].id, t.explore[k].seat, t.explore[k].model))
    else if !SeatBlocked(t, w, standard, excluded) then choice == Some(StandardChoice(standard))
    else if !SeatBlocked(t, w, StandardFor(t, w.author), excluded) then
      choice == Some(StandardChoice(StandardFor(t, w.author)))
    else if exists author :: OpenVariant(t, w, excluded, author) then
      exists author :: OpenVariant(t, w, excluded, author)
        && choice == Some(Choice(Standard, "standard", t.byAuthor[author].0, t.byAuthor[author].1))
    else choice == None
  }

  ghost function FallbackSpread(arm: Arm): Choice {
    Choice(Spread, if arm.id == "" then "spread:" + arm.seat else arm.id, arm.seat, arm.model)
  }

  /** Waits only when nothing is open; what it returns is open as an arm, not just as a seat. */
  lemma FallbackIsOpen(t: Table, w: World, standard: Arm, excluded: set<string>, choice: Option<Choice>)
    requires FellTo(t, w, standard, excluded, choice)
    ensures choice.Some? ==> Safe(t, w, excluded, choice.value) && Screened(t, w, standard, choice.value)
    ensures choice.Some? ==> choice.value.kind != Constraint
    ensures choice.None? <==> NothingOpen(t, w, standard, excluded)
  {
    hide SeatBlocked, SpreadOpen, ExploreOpen, Safe, Screened;
    SomeFirst(t, w, excluded);
    if k: nat :| FirstSpread(t, w, excluded, k) {
      var j: nat :| FirstSpread(t, w, excluded, j) && choice == Some(FallbackSpread(SpreadArms(t)[j]));
      SpreadIsOpen(t, w, standard, excluded, j);
    } else if k: nat :| FirstExplore(t, w, excluded, k) {
      var j: nat :| (FirstExplore(t, w, excluded, j)
                     && choice == Some(Choice(Explore, t.explore[j].id, t.explore[j].seat, t.explore[j].model)));
      ExploreIsOpen(t, w, standard, excluded, j);
    } else if !SeatBlocked(t, w, standard, excluded) {
      BareIsOpen(t, w, standard, excluded, standard);
    } else if !SeatBlocked(t, w, StandardFor(t, w.author), excluded) {
      BareIsOpen(t, w, standard, excluded, StandardFor(t, w.author));
    } else if author :| OpenVariant(t, w, excluded, author) {
      var other :| (OpenVariant(t, w, excluded, other)
                    && choice == Some(Choice(Standard, "standard", t.byAuthor[other].0, t.byAuthor[other].1)));
      BareIsOpen(t, w, standard, excluded, Bare(t.byAuthor[other].0, t.byAuthor[other].1));
    } else {
      forall author | author in t.byAuthor
          ensures SeatBlocked(t, w, Bare(t.byAuthor[author].0, t.byAuthor[author].1), excluded) {
        assert !OpenVariant(t, w, excluded, author);
      }
    }
  }

  lemma SpreadIsOpen(t: Table, w: World, standard: Arm, excluded: set<string>, k: nat)
    requires FirstSpread(t, w, excluded, k)
    ensures Safe(t, w, excluded, FallbackSpread(SpreadArms(t)[k]))
    ensures Screened(t, w, standard, FallbackSpread(SpreadArms(t)[k]))
    ensures SpreadArms(t)[k] in SpreadArms(t) && SpreadOpen(t, w, SpreadArms(t)[k], excluded)
  {
    assert SpreadArms(t)[k] in SpreadArms(t);
    assert OwnArm(t, w, standard, FallbackSpread(SpreadArms(t)[k]), SpreadArms(t)[k]);
  }

  lemma ExploreIsOpen(t: Table, w: World, standard: Arm, excluded: set<string>, k: nat)
    requires FirstExplore(t, w, excluded, k)
    ensures var c := Choice(Explore, t.explore[k].id, t.explore[k].seat, t.explore[k].model);
      Safe(t, w, excluded, c) && Screened(t, w, standard, c)
    ensures t.explore[k] in t.explore && ExploreOpen(t, w, t.explore[k], excluded)
  {
    assert t.explore[k] in t.explore;
    assert OwnArm(t, w, standard, Choice(Explore, t.explore[k].id, t.explore[k].seat, t.explore[k].model),
        t.explore[k]);
  }

  lemma BareIsOpen(t: Table, w: World, standard: Arm, excluded: set<string>, arm: Arm)
    requires !SeatBlocked(t, w, arm, excluded)
    requires arm == standard || arm == StandardFor(t, w.author)
      || exists author :: author in t.byAuthor && arm == Bare(t.byAuthor[author].0, t.byAuthor[author].1)
    ensures Safe(t, w, excluded, StandardChoice(arm)) && Screened(t, w, standard, StandardChoice(arm))
  {
    if arm != standard && arm != StandardFor(t, w.author) {
      assert VariantArm(t, arm);
    }
    assert OwnArm(t, w, standard, StandardChoice(arm), arm);
  }

  /** An arm is open exactly when some arm is the first open one. */
  lemma SomeFirst(t: Table, w: World, excluded: set<string>)
    ensures (exists k: nat :: FirstSpread(t, w, excluded, k)) <==>
      exists arm :: arm in SpreadArms(t) && SpreadOpen(t, w, arm, excluded)
    ensures (exists k: nat :: FirstExplore(t, w, excluded, k)) <==>
      exists arm :: arm in t.explore && ExploreOpen(t, w, arm, excluded)
  {
    hide SpreadOpen, ExploreOpen;
    if arm :| arm in SpreadArms(t) && SpreadOpen(t, w, arm, excluded) {
      var i: nat :| i < |SpreadArms(t)| && SpreadArms(t)[i] == arm;
      FirstOfSpread(t, w, excluded, i);
    }
    if arm :| arm in t.explore && ExploreOpen(t, w, arm, excluded) {
      var i: nat :| i < |t.explore| && t.explore[i] == arm;
      FirstOfExplore(t, w, excluded, i);
    }
  }

  lemma {:induction false} FirstOfSpread(t: Table, w: World, excluded: set<string>, i: nat)
    requires i < |SpreadArms(t)| && SpreadOpen(t, w, SpreadArms(t)[i], excluded)
    ensures exists k: nat :: FirstSpread(t, w, excluded, k)
  {
    if j: nat :| j < i && SpreadOpen(t, w, SpreadArms(t)[j], excluded) {
      FirstOfSpread(t, w, excluded, j);
    } else {
      assert FirstSpread(t, w, excluded, i);
    }
  }

  lemma {:induction false} FirstOfExplore(t: Table, w: World, excluded: set<string>, i: nat)
    requires i < |t.explore| && ExploreOpen(t, w, t.explore[i], excluded)
    ensures exists k: nat :: FirstExplore(t, w, excluded, k)
  {
    if j: nat :| j < i && ExploreOpen(t, w, t.explore[j], excluded) {
      FirstOfExplore(t, w, excluded, j);
    } else {
      assert FirstExplore(t, w, excluded, i);
    }
  }

  method Fallback(t: Table, w: World, standard: Arm, excluded: set<string>) returns (choice: Option<Choice>)
    ensures FellTo(t, w, standard, excluded, choice)
  {
    hide SeatBlocked;
    var spread := SpreadArms(t);
    for i := 0 to |spread|
      invariant forall j :: 0 <= j < i ==> !SpreadOpen(t, w, spread[j], excluded)
    {
      var arm := spread[i];
      if SeatBlocked(t, w, arm, excluded) {
        continue;
      }
      if arm.pool !in w.pools || !Roomy(t, w.pools[arm.pool]) {
        continue;
      }
      assert FirstSpread(t, w, excluded, i);
      return Some(Choice(Spread, if arm.id != "" then arm.id else "spread:" + arm.seat, arm.seat, arm.model));
    }
    for i := 0 to |t.explore|
      invariant forall j :: 0 <= j < i ==> !ExploreOpen(t, w, t.explore[j], excluded)
    {
      var arm := t.explore[i];
      if SeatBlocked(t, w, arm, excluded) || w.armBlocked(arm) || w.capped(arm) || w.stopped(arm) {
        continue;
      }
      assert FirstExplore(t, w, excluded, i);
      return Some(Choice(Explore, arm.id, arm.seat, arm.model));
    }
    if !SeatBlocked(t, w, standard, excluded) {
      return Some(StandardChoice(standard));
    }
    var own := StandardFor(t, w.author);
    if !SeatBlocked(t, w, own, excluded) {
      return Some(StandardChoice(own));
    }
    var authors := t.byAuthor.Keys;
    while authors != {}
      invariant authors <= t.byAuthor.Keys
      invariant forall a :: a in t.byAuthor && a !in authors ==> !OpenVariant(t, w, excluded, a)
      decreases |authors|
    {
      var author :| author in authors;
      authors := authors - {author};
      var variant := Bare(t.byAuthor[author].0, t.byAuthor[author].1);
      if !SeatBlocked(t, w, variant, excluded) {
        assert OpenVariant(t, w, excluded, author);
        return Some(StandardChoice(variant));
      }
    }
    return None;
  }

  // ---- explore and spread draws ----

  function Shares(arms: seq<Arm>): real {
    if arms == [] then 0.0 else Shares(arms[..|arms| - 1]) + arms[|arms| - 1].share
  }

  function OpenArms(arms: seq<Arm>, t: Table, w: World, excluded: set<string>): seq<Arm> {
    if arms == [] then []
    else
      var last := arms[|arms| - 1];
      OpenArms(arms[..|arms| - 1], t, w, excluded) + (if ExploreOpen(t, w, last, excluded) then [last] else [])
  }

  lemma {:induction false} OpenArmsIn(arms: seq<Arm>, t: Table, w: World, excluded: set<string>)
    ensures forall arm :: arm in OpenArms(arms, t, w, excluded) <==> arm in arms && ExploreOpen(t, w, arm, excluded)
  {
    hide ExploreOpen;
    if arms != [] {
      OpenArmsIn(arms[..|arms| - 1], t, w, excluded);
      assert arms == arms[..|arms| - 1] + [arms[|arms| - 1]];
    }
  }

  /** The arms that may be drawn. */
  method Candidates(t: Table, w: World, excluded: set<string>) returns (arms: seq<Arm>)
    ensures arms == OpenArms(t.explore, t, w, excluded)
  {
    hide SeatBlocked;
    arms := [];
    for i := 0 to |t.explore|
      invariant arms == OpenArms(t.explore[..i], t, w, excluded)
    {
      var arm := t.explore[i];
      assert t.explore[..i + 1][..i] == t.explore[..i] && t.explore[..i + 1][i] == arm;
      if SeatBlocked(t, w, arm, excluded) || w.armBlocked(arm) || w.capped(arm) || w.stopped(arm) {
        continue;
      }
      arms := arms + [arm];
    }
    assert t.explore[..|t.explore|] == t.explore;
  }

  /** Where the range of the first `n` arms ends: their shares, scaled down when all shares exceed the class cap. */
  function Reach(arms: seq<Arm>, n: nat, cap: real): real
    requires n <= |arms|
  {
    if Shares(arms) > cap && Shares(arms) > 0.0 then Portion(cap, Shares(arms[..n]), Shares(arms))
    else Shares(arms[..n])
  }

  ghost predicate Passed(arms: seq<Arm>, cap: real, draw: real, k: nat) {
    k < |arms| && draw >= Reach(arms, k + 1, cap)
  }

  /** The draw lands on arm `k`. */
  ghost predicate Picks(arms: seq<Arm>, cap: real, draw: real, k: nat) {
    k < |arms| && draw < Reach(arms, k + 1, cap) && forall j: nat :: j < k ==> Passed(arms, cap, draw, j)
  }

  method ExploreDraw(arms: seq<Arm>, cap: real, draw: real) returns (k: Option<nat>)
    ensures k.Some? ==> Picks(arms, cap, draw, k.value)
    ensures k.None? ==> forall j: nat :: j < |arms| ==> Passed(arms, cap, draw, j)
    ensures k.None? ==> forall j: nat :: !Picks(arms, cap, draw, j)
  {
    hide Portion;
    var total := Shares(arms);
    var scaled := total > cap && total > 0.0;
    var cumulative := 0.0;
    if scaled {
      ScaledNone(cap, total);
    }
    for i := 0 to |arms|
      invariant cumulative == Reach(arms, i, cap)
      invariant forall j: nat :: j < i ==> Passed(arms, cap, draw, j)
    {
      assert arms[..i + 1][..i] == arms[..i];
      if scaled {
        ScaledOne(cap, Shares(arms[..i]), arms[i].share, total);
      }
      cumulative := cumulative + if scaled then Portion(cap, arms[i].share, total) else arms[i].share;
      if draw < cumulative {
        return Some(i);
      }
    }
    forall j: nat ensures !Picks(arms, cap, draw, j) {
      assert j < |arms| ==> Passed(arms, cap, draw, j);
    }
    return None;
  }

  /** A draw at or above the class cap explores nothing. */
  lemma CapHolds(arms: seq<Arm>, cap: real, draw: real, k: nat)
    requires cap >= 0.0 && k < |arms| && draw >= cap && forall i :: 0 <= i < |arms| ==> arms[i].share >= 0.0
    ensures Passed(arms, cap, draw, k)
  {
    SharesWithin(arms, k + 1);
    if Shares(arms) > cap && Shares(arms) > 0.0 {
      ScaledWithin(cap, Shares(arms[..k + 1]), Shares(arms));
    }
  }

  /** A draw below the cap and below all shares explores. */
  lemma DrawExplores(arms: seq<Arm>, cap: real, draw: real) returns (k: nat)
    requires 0.0 <= draw < cap && draw < Shares(arms)
    ensures Picks(arms, cap, draw, k)
  {
    hide Portion;
    assert arms[..|arms|] == arms;
    if Shares(arms) > cap {
      ScaledAll(cap, Shares(arms));
    }
    var last := |arms| - 1;
    assert !Passed(arms, cap, draw, last);
    k := LeastOpen(arms, cap, draw, 0, last);
  }

  lemma {:induction false} LeastOpen(arms: seq<Arm>, cap: real, draw: real, from: nat, last: nat) returns (k: nat)
    requires from <= last < |arms| && !Passed(arms, cap, draw, last)
      && forall j: nat :: j < from ==> Passed(arms, cap, draw, j)
    ensures Picks(arms, cap, draw, k)
    decreases last - from
  {
    if Passed(arms, cap, draw, from) {
      k := LeastOpen(arms, cap, draw, from + 1, last);
    } else {
      k := from;
    }
  }

  lemma ScaledNone(cap: real, total: real)
    requires total > 0.0
    ensures Portion(cap, 0.0, total) == 0.0
  {
  }

  lemma ScaledOne(cap: real, a: real, b: real, total: real)
    requires total > 0.0
    ensures Portion(cap, a, total) + Portion(cap, b, total) == Portion(cap, a + b, total)
  {
    assert (a + b) / total == a / total + b / total;
    assert cap * (a / total + b / total) == cap * (a / total) + cap * (b / total);
  }

  lemma ScaledAll(cap: real, total: real)
    requires total > 0.0
    ensures Portion(cap, total, total) == cap
  {
    assert total / total == 1.0;
  }

  lemma ScaledWithin(cap: real, part: real, total: real)
    requires total > 0.0 && cap >= 0.0
    ensures part <= total ==> Portion(cap, part, total) <= cap
  {
    if part <= total {
      assert total / total == 1.0;
      assert (total - part) / total >= 0.0;
      assert part / total <= 1.0;
    }
  }

  lemma {:induction false} SharesWithin(arms: seq<Arm>, n: nat)
    requires n <= |arms|
    ensures (forall i :: 0 <= i < |arms| ==> arms[i].share >= 0.0) ==> Shares(arms[..n]) <= Shares(arms)
    decreases |arms| - n
  {
    if n < |arms| {
      assert arms[..n + 1][..n] == arms[..n];
      SharesWithin(arms, n + 1);
    } else {
      assert arms[..n] == arms;
    }
  }

  function SpreadWeight(t: Table, w: World, arm: Arm): real {
    if arm.pool in w.pools && w.pools[arm.pool].percent.Some? then
      arm.strength * w.pools[arm.pool].percent.value / 100.0
    else 0.0
  }

  /** An arm weighs its strength times the percentage left of its pool. */
  lemma SpreadWeightIs(t: Table, w: World, arm: Arm)
    ensures SpreadWeight(t, w, arm) == if arm.pool !in w.pools then 0.0
      else match w.pools[arm.pool].percent
        case None => 0.0
        case Some(percent) => arm.strength * percent / 100.0
  {
  }

  function Weights(arms: seq<Arm>, t: Table, w: World): real {
    if arms == [] then 0.0 else Weights(arms[..|arms| - 1], t, w) + SpreadWeight(t, w, arms[|arms| - 1])
  }

  /** A weighted draw among the spread arms with room, and otherwise the standard. */
  method SpreadDraw(t: Table, w: World, standard: Arm, excluded: set<string>) returns (choice: Choice)
    requires 0.0 <= w.spin < 1.0
    ensures choice.kind.Standard? || choice.kind.Spread?
    ensures choice.kind.Standard? ==> choice == Choice(Standard, "standard", standard.seat, standard.model)
    ensures choice.kind.Spread? ==>
      exists k: nat :: Lands(t, w, DrawableArms(SpreadArms(t), t, w, excluded), k)
                       && choice == SpreadChoice(DrawableArms(SpreadArms(t), t, w, excluded)[k])
    ensures choice.kind.Spread? <==>
      !t.missionCritical && exists arm :: arm in SpreadArms(t) && Drawable(t, w, arm, excluded)
  {
    choice := Choice(Standard, "standard", standard.seat, standard.model);
    if !t.missionCritical && t.spread.Some? {
      var arms := Drawn(t, w, excluded);
      DrawableIn(SpreadArms(t), t, w, excluded);
      if arms != [] {
        assert arms[0] in arms;
        assert forall i :: 0 <= i < |arms| ==> arms[i] in arms;
        var k := Spin(t, w, arms);
        choice := Choice(Spread, "spread:" + arms[k].seat, arms[k].seat, arms[k].model);
      }
    }
  }

  predicate Drawable(t: Table, w: World, arm: Arm, excluded: set<string>) {
    && SpreadOpen(t, w, arm, excluded)
    && w.pools[arm.pool].provider != "anthropic" && !(|arm.pool| >= 9 && arm.pool[..9] == "anthropic")
    && arm.seat in t.knownSeats
    && SpreadWeight(t, w, arm) > 0.0
  }

  /** The arms that may be drawn, in order. */
  function DrawableArms(arms: seq<Arm>, t: Table, w: World, excluded: set<string>): seq<Arm> {
    if arms == [] then []
    else
      var last := arms[|arms| - 1];
      DrawableArms(arms[..|arms| - 1], t, w, excluded) + (if Drawable(t, w, last, excluded) then [last] else [])
  }

  lemma {:induction false} DrawableIn(arms: seq<Arm>, t: Table, w: World, excluded: set<string>)
    ensures forall arm :: arm in DrawableArms(arms, t, w, excluded) <==> arm in arms && Drawable(t, w, arm, excluded)
  {
    hide Drawable;
    if arms != [] {
      DrawableIn(arms[..|arms| - 1], t, w, excluded);
      assert arms == arms[..|arms| - 1] + [arms[|arms| - 1]];
    }
  }

  /** The spin, scaled to all weights, falls into the range of arm `k`. */
  ghost predicate Lands(t: Table, w: World, arms: seq<Arm>, k: nat) {
    k < |arms| && Weights(arms[..k], t, w) <= w.spin * Weights(arms, t, w) < Weights(arms[..k + 1], t, w)
  }

  ghost function SpreadChoice(arm: Arm): Choice { Choice(Spread, "spread:" + arm.seat, arm.seat, arm.model) }

  method Drawn(t: Table, w: World, excluded: set<string>) returns (arms: seq<Arm>)
    ensures arms == DrawableArms(SpreadArms(t), t, w, excluded)
  {
    hide SeatBlocked;
    var spread := SpreadArms(t);
    arms := [];
    for i := 0 to |spread|
      invariant arms == DrawableArms(spread[..i], t, w, excluded)
    {
      var arm := spread[i];
      assert spread[..i + 1][..i] == spread[..i] && spread[..i + 1][i] == arm;
      if SeatBlocked(t, w, arm, excluded) || arm.pool !in w.pools {
        continue;
      }
      var pool := w.pools[arm.pool];
      if pool.provider == "anthropic" || (|arm.pool| >= 9 && arm.pool[..9] == "anthropic") {
        continue;
      }
      if arm.seat !in t.knownSeats {
        continue;
      }
      if !Roomy(t, pool) {
        continue;
      }
      if SpreadWeight(t, w, arm) > 0.0 {
        arms := arms + [arm];
      }
    }
    assert spread[..|spread|] == spread;
  }

  function Target(spin: real, total: real): real { spin * total }

  /** A spin below the total weight always lands on an arm. */
  method Spin(t: Table, w: World, arms: seq<Arm>) returns (k: nat)
    requires arms != [] && 0.0 <= w.spin < 1.0 && forall i :: 0 <= i < |arms| ==> SpreadWeight(t, w, arms[i]) > 0.0
    ensures Lands(t, w, arms, k)
  {
    hide SpreadWeight;
    var total := Weights(arms, t, w);
    WeightsPositive(arms, t, w);
    var target := Target(w.spin, total);
    SpinBelow(w.spin, total);
    assert arms[..|arms|] == arms;
    var cumulative := 0.0;
    k := 0;
    while k < |arms|
      invariant k <= |arms| && cumulative == Weights(arms[..k], t, w) && cumulative <= target
    {
      assert arms[..k + 1][..k] == arms[..k];
      cumulative := cumulative + SpreadWeight(t, w, arms[k]);
      if target < cumulative {
        return;
      }
      k := k + 1;
    }
    assert false;
  }

  lemma SpinBelow(spin: real, total: real)
    requires 0.0 <= spin < 1.0 && total > 0.0
    ensures 0.0 <= Target(spin, total) < total
  {
    assert (1.0 - spin) * total > 0.0;
  }

  lemma {:induction false} WeightsPositive(arms: seq<Arm>, t: Table, w: World)
    requires forall i :: 0 <= i < |arms| ==> SpreadWeight(t, w, arms[i]) > 0.0
    ensures Weights(arms, t, w) >= 0.0 && (arms != [] ==> Weights(arms, t, w) > 0.0)
  {
    hide SpreadWeight;
    if arms != [] {
      WeightsPositive(arms[..|arms| - 1], t, w);
    }
  }

  // ---- sticky jobs and the constraint ----

  /** The last explore arm with an id, as a dictionary by id keeps it. */
  function ById(arms: seq<Arm>, id: string): Option<Arm> {
    if arms == [] then None
    else if arms[|arms| - 1].id == id then Some(arms[|arms| - 1]) else ById(arms[..|arms| - 1], id)
  }

  lemma {:induction false} ByIdIn(arms: seq<Arm>, id: string)
    ensures ById(arms, id).Some? ==> ById(arms, id).value in arms && ById(arms, id).value.id == id
  {
    if arms != [] {
      ByIdIn(arms[..|arms| - 1], id);
    }
  }

  /** The first arm that passes. */
  function FirstArm(arms: seq<Arm>, p: Arm -> bool): Option<Arm> {
    if arms == [] then None else if p(arms[0]) then Some(arms[0]) else FirstArm(arms[1..], p)
  }

  lemma {:induction false} FirstArmIn(arms: seq<Arm>, p: Arm -> bool)
    ensures FirstArm(arms, p).Some? ==> FirstArm(arms, p).value in arms && p(FirstArm(arms, p).value)
  {
    if arms != [] && !p(arms[0]) {
      FirstArmIn(arms[1..], p);
    }
  }

  function OnSeat(seat: string): Arm -> bool { (arm: Arm) => arm.seat == seat }

  function OnHands(): Arm -> bool { (arm: Arm) => arm.seat in HANDS_SEATS }

  /** The arm of the table that stands for a job's first decision. */
  function StickyArm(t: Table, first: Earlier): Option<Arm> {
    match first.kind
    case Explore => ById(t.explore, first.armId)
    case Spread => FirstArm(SpreadArms(t), OnSeat(first.seat))
    case _ => Some(Bare(first.seat, first.model))
  }

  /** A sticky job keeps its first decision while that arm is still in the table and not blocked. */
  predicate Kept(t: Table, w: World, first: Earlier, excluded: set<string>) {
    var arm := StickyArm(t, first);
    arm.Some? && !(first.kind == Explore && w.armBlocked(arm.value)) && !SeatBlocked(t, w, arm.value, excluded)
  }

  function FirstChoice(first: Earlier): Choice { Choice(first.kind, first.armId, first.seat, first.alias) }

  method Sticky(t: Table, w: World, first: Earlier, excluded: set<string>) returns (choice: Option<Choice>)
    ensures choice == if Kept(t, w, first, excluded) then Some(FirstChoice(first)) else None
  {
    var arm := Bare(first.seat, first.model);
    if first.kind == Explore {
      var found: Option<Arm> := None;
      for i := 0 to |t.explore|
        invariant found == ById(t.explore[..i], first.armId)
      {
        assert t.explore[..i + 1][..i] == t.explore[..i];
        if t.explore[i].id == first.armId {
          found := Some(t.explore[i]);
        }
      }
      assert t.explore[..|t.explore|] == t.explore;
      if found.None? || w.armBlocked(found.value) {
        return None;
      }
      arm := found.value;
    } else if first.kind == Spread {
      var found := FindArm(SpreadArms(t), OnSeat(first.seat));
      if found.None? {
        return None;
      }
      arm := found.value;
    }
    if SeatBlocked(t, w, arm, excluded) {
      return None;
    }
    return Some(FirstChoice(first));
  }

  /** `next(..., None)`. */
  method FindArm(arms: seq<Arm>, p: Arm -> bool) returns (found: Option<Arm>)
    ensures found == FirstArm(arms, p)
  {
    for i := 0 to |arms|
      invariant FirstArm(arms, p) == FirstArm(arms[i..], p)
    {
      if p(arms[i]) {
        return Some(arms[i]);
      }
      assert arms[i..][1..] == arms[i + 1..];
    }
    return None;
  }

  /** Work for the hands seat when Codex is short: the first arm on that seat, its own flags not looked at. */
  function Constrained(t: Table, w: World): Option<Choice> {
    var arm := FirstArm(t.explore, OnHands());
    if t.class_ in HANDS_CLASSES && arm.Some? && !w.triggers.tagged && w.triggers.Fire(t.class_) && !w.triggers.grokShut
    then Some(Choice(Constraint, arm.value.id, arm.value.seat, arm.value.model))
    else None
  }

  /** What sends work to the hands seat: at most two eligible Codex accounts, or a Codex pool that is short when more or
      an unknown number are eligible; a limit error; full reservations; or, for implementation or where Grok is faster,
      the swap mode. */
  lemma TriggersFire(x: Triggers, class_: string)
    ensures x.Fire(class_) <==>
      || x.codexEligible in {Some(0), Some(1), Some(2)}
      || ((x.codexEligible == None || x.codexEligible.value > 2)
          && (x.codexStatus == "exhausted" || x.codexStatus == "critical" || x.codexStatus == "low"))
      || x.limitError || x.codexFull || (x.swap && class_ == "implement") || (x.swap && x.grokFaster)
  {
  }

  method ConstraintChoice(t: Table, w: World) returns (choice: Option<Choice>)
    ensures choice == Constrained(t, w)
  {
    if t.class_ !in HANDS_CLASSES {
      return None;
    }
    var arm := FindArm(t.explore, OnHands());
    if arm.None? || w.triggers.tagged {
      return None;
    }
    if !w.triggers.Fire(t.class_) || w.triggers.grokShut {
      return None;
    }
    return Some(Choice(Constraint, arm.value.id, arm.value.seat, arm.value.model));
  }

  function ExplicitChoice(t: Table, standard: Arm, flags: Flags): Choice {
    var seat := if flags.seat != "" then flags.seat else standard.seat;
    Choice(Explicit, "explicit", seat,
           if flags.model != "" then flags.model else if seat == standard.seat then standard.model
           else if seat in OPUS_SEATS && t.seatModel(seat) == "" then "opus-latest" else t.seatModel(seat))
  }

  /** What flags ask for: the seat they name or the standard's; the model they name, or the standard's on its seat, or
      the seat's own, which for an Opus seat without one is the latest. */
  lemma ExplicitIs(t: Table, standard: Arm, flags: Flags)
    ensures var c := ExplicitChoice(t, standard, flags);
      && c.kind == Explicit && c.armId == "explicit"
      && (flags.seat != "" ==> c.seat == flags.seat) && (flags.seat == "" ==> c.seat == standard.seat)
      && (flags.model != "" ==> c.model == flags.model)
      && (flags.model == "" && c.seat == standard.seat ==> c.model == standard.model)
      && (flags.model == "" && c.seat != standard.seat && t.seatModel(c.seat) != "" ==> c.model == t.seatModel(c.seat))
      && (flags.model == "" && c.seat != standard.seat && t.seatModel(c.seat) == "" ==>
            c.model == if c.seat in {"opus-seat", "opus-seat-local", "opus-seat-full"} then "opus-latest" else "")
  {
  }

  function ExploreChoice(arm: Arm): Choice { Choice(Explore, arm.id, arm.seat, arm.model) }

  function StandardChoice(standard: Arm): Choice { Choice(Standard, "standard", standard.seat, standard.model) }

  ghost predicate SpreadTurn(t: Table, w: World, excluded: set<string>) {
    !t.missionCritical && exists arm :: arm in SpreadArms(t) && Drawable(t, w, arm, excluded)
  }

  /** What the two draws come to: the explore arm drawn, else a spread arm if any may be drawn, else the standard. */
  ghost predicate Drew(t: Table, w: World, standard: Arm, excluded: set<string>, choice: Choice) {
    var arms := OpenArms(t.explore, t, w, excluded);
    if exists k: nat :: Picks(arms, t.maxShare, w.draw, k) then
      exists k: nat :: Picks(arms, t.maxShare, w.draw, k) && choice == ExploreChoice(arms[k])
    else if SpreadTurn(t, w, excluded) then
      exists k: nat :: Lands(t, w, DrawableArms(SpreadArms(t), t, w, excluded), k)
        && choice == SpreadChoice(DrawableArms(SpreadArms(t), t, w, excluded)[k])
    else choice == StandardChoice(standard)
  }

  method Draw(t: Table, w: World, standard: Arm, excluded: set<string>) returns (choice: Choice)
    requires 0.0 <= w.spin < 1.0
    ensures Drew(t, w, standard, excluded, choice)
  {
    hide Drawable, SpreadOpen;
    var arms := Candidates(t, w, excluded);
    var k := ExploreDraw(arms, t.maxShare, w.draw);
    if k.Some? {
      return ExploreChoice(arms[k.value]);
    }
    choice := SpreadDraw(t, w, standard, excluded);
  }

  // ---- arms whose own flags are not looked at ----

  /** Paused, shut or meant for another author. */
  ghost predicate Flagged(w: World, arm: Arm) { arm.off || arm.shut || (arm.author != "" && arm.author != w.author) }

  predicate VariantArm(t: Table, arm: Arm) {
    exists author :: author in t.byAuthor && arm == Bare(t.byAuthor[author].0, t.byAuthor[author].1)
  }

  /** The arms of the table that a choice stands for: by id, by seat, or any arm on the seat that flags name. */
  ghost predicate OwnArm(t: Table, w: World, standard: Arm, c: Choice, arm: Arm) {
    match c.kind
    case Explore => arm in t.explore && arm.id == c.armId
    case Constraint => arm in t.explore && arm.id == c.armId
    case Spread => arm in SpreadArms(t) && arm.seat == c.seat
    case Explicit => arm.seat == c.seat && (arm in t.explore || arm in SpreadArms(t) || arm == standard)
    case Standard => arm.seat == c.seat && (arm == standard || arm == StandardFor(t, w.author) || VariantArm(t, arm))
  }

  /** The table knows the choice, and only by arms that are flagged. */
  ghost predicate FlaggedChoice(t: Table, w: World, standard: Arm, c: Choice) {
    && (exists arm :: OwnArm(t, w, standard, c, arm))
    && (forall arm :: OwnArm(t, w, standard, c, arm) ==> Flagged(w, arm))
  }

  /** The hands-only rule puts the standard in a choice's place. */
  function Settled(t: Table, standard: Arm, c: Choice): Choice {
    if HandsRefused(t, c.seat, c.model) then StandardChoice(standard) else c
  }

  /** Nothing is drawn, so the standard's turn comes. */
  ghost predicate DrawsStandard(t: Table, w: World, excluded: set<string>) {
    && (forall k: nat :: !Picks(OpenArms(t.explore, t, w, excluded), t.maxShare, w.draw, k))
    && !SpreadTurn(t, w, excluded)
  }

  /** The choice before the last gate, on the paths that may take one without a look at its arm's flags. */
  ghost function Unscreened(t: Table, w: World, standard: Arm, flags: Flags, first: Option<Earlier>,
      excluded: set<string>): Option<Choice> {
    if flags.Any() then
      if ExplicitChoice(t, standard, flags).seat in OPUS_SEATS && w.noOpusAccount then None
      else Some(ExplicitChoice(t, standard, flags))
    else if t.chain != [] then None
    else if first.Some? && Kept(t, w, first.value, excluded) then Some(FirstChoice(first.value))
    else if Constrained(t, w).Some? && Constrained(t, w).value.seat !in excluded then Constrained(t, w)
    else if DrawsStandard(t, w, excluded) then Some(StandardChoice(standard))
    else None
  }

  /** What a caller can check before a dispatch: explicit flags, a sticky first decision, the constraint arm or the
      standard, whichever comes first, is safe as a seat and known to the table by flagged arms only. */
  ghost predicate FlagsAreMissed(t: Table, w: World, standard: Arm, flags: Flags, first: Option<Earlier>,
      excluded: set<string>) {
    var c := Unscreened(t, w, standard, flags, first, excluded);
    && c.Some? && Safe(t, w, excluded, Settled(t, standard, c.value))
    && FlaggedChoice(t, w, standard, Settled(t, standard, c.value))
  }

  /** The choice stands for an arm that no flag blocks. */
  ghost predicate Screened(t: Table, w: World, standard: Arm, c: Choice) {
    exists arm :: OwnArm(t, w, standard, c, arm) && !Flagged(w, arm)
  }

  lemma DrewIsScreened(t: Table, w: World, standard: Arm, excluded: set<string>, c: Choice)
    requires Drew(t, w, standard, excluded, c)
    ensures if DrawsStandard(t, w, excluded) then c == StandardChoice(standard)
            else Screened(t, w, standard, c) && Safe(t, w, excluded, c)
  {
    var arms := OpenArms(t.explore, t, w, excluded);
    OpenArmsIn(t.explore, t, w, excluded);
    if k: nat :| Picks(arms, t.maxShare, w.draw, k) && c == ExploreChoice(arms[k]) {
      assert arms[k] in arms;
      assert OwnArm(t, w, standard, c, arms[k]);
    } else if SpreadTurn(t, w, excluded) {
      var spread := DrawableArms(SpreadArms(t), t, w, excluded);
      var k: nat :| Lands(t, w, spread, k) && c == SpreadChoice(spread[k]);
      DrawableIn(SpreadArms(t), t, w, excluded);
      assert spread[k] in spread;
      assert OwnArm(t, w, standard, c, spread[k]);
    }
  }

  /** The constraint's case in its own terms: nothing looks at the arm's flags, only at its seat. */
  lemma ConstraintPasses(t: Table, w: World, standard: Arm, excluded: set<string>, arm: Arm)
    requires FirstArm(t.explore, OnHands()) == Some(arm)
      && forall other :: other in t.explore && other.id == arm.id ==> other == arm
    requires Constrained(t, w).Some? && t.chain == [] && arm.seat !in excluded
    ensures FlagsAreMissed(t, w, standard, Flags("", "", ""), None, excluded) <==>
      Flagged(w, arm) && arm.seat !in t.offSeats
  {
    FirstArmIn(t.explore, OnHands());
    assert OwnArm(t, w, standard, Constrained(t, w).value, arm);
  }

  /** The sticky case in its own terms: a job whose first decision came from the constraint keeps a flagged arm. */
  lemma StickyPasses(t: Table, w: World, standard: Arm, excluded: set<string>, first: Earlier, arm: Arm)
    requires arm in t.explore && arm.id == first.armId
      && forall other :: other in t.explore && other.id == arm.id ==> other == arm
    requires first.kind == Constraint && t.chain == [] && !HandsRefused(t, first.seat, first.alias)
    requires !SeatBlocked(t, w, Bare(first.seat, first.model), excluded)
    ensures FlagsAreMissed(t, w, standard, Flags("", "", ""), Some(first), excluded) <==> Flagged(w, arm)
  {
    GateIsSafety(t, w, excluded, FirstChoice(first));
    assert OwnArm(t, w, standard, FirstChoice(first), arm);
  }

  /** Explore and spread arms are always screened: only a constraint, an explicit choice or a standard slips through. */
  lemma OnlyUnscreenedKinds(t: Table, w: World, standard: Arm, flags: Flags, first: Option<Earlier>,
      excluded: set<string>)
    requires FlagsAreMissed(t, w, standard, flags, first, excluded)
    ensures Settled(t, standard, Unscreened(t, w, standard, flags, first, excluded).value).kind
      in {Constraint, Explicit, Standard}
  {
    var c := Settled(t, standard, Unscreened(t, w, standard, flags, first, excluded).value);
    if c.kind == Explore || c.kind == Spread {
      ByIdIn(t.explore, first.value.armId);
      FirstArmIn(SpreadArms(t), OnSeat(first.value.seat));
      assert !OwnArm(t, w, standard, c, StickyArm(t, first.value).value);
    }
  }

  /** What of a seat can bar it, whatever arm stands on it. */
  ghost predicate SeatSafe(t: Table, w: World, excluded: set<string>, seat: string) {
    seat !in excluded && seat !in t.offSeats && (t.class_ == "verify" ==> seat == StandardFor(t, w.author).seat)
  }

  /** The explicit case in its own terms: the seat may be used, and every arm the table knows on it is flagged. */
  lemma ExplicitPasses(t: Table, w: World, standard: Arm, flags: Flags, first: Option<Earlier>, excluded: set<string>)
    requires flags.Any()
    ensures var c := ExplicitChoice(t, standard, flags);
      !(c.seat in OPUS_SEATS && w.noOpusAccount) && !HandsRefused(t, c.seat, c.model) ==>
      (FlagsAreMissed(t, w, standard, flags, first, excluded) <==>
        && SeatSafe(t, w, excluded, c.seat)
        && (exists arm :: arm in t.explore + SpreadArms(t) + [standard] && arm.seat == c.seat)
        && (forall arm :: arm in t.explore + SpreadArms(t) + [standard] && arm.seat == c.seat ==> Flagged(w, arm)))
  {
    var c := ExplicitChoice(t, standard, flags);
    forall arm ensures OwnArm(t, w, standard, c, arm) <==>
        arm in t.explore + SpreadArms(t) + [standard] && arm.seat == c.seat {
    }
    hide ExplicitChoice, Flagged;
  }

  /** The standard case in its own terms: nothing is drawn, and the standard is flagged under every name it has. */
  lemma StandardPasses(t: Table, w: World, standard: Arm, excluded: set<string>)
    requires t.chain == [] && (Constrained(t, w).None? || Constrained(t, w).value.seat in excluded)
    requires !HandsRefused(t, standard.seat, standard.model)
    ensures FlagsAreMissed(t, w, standard, Flags("", "", ""), None, excluded) <==>
      && DrawsStandard(t, w, excluded) && SeatSafe(t, w, excluded, standard.seat) && Flagged(w, standard)
      && (StandardFor(t, w.author).seat == standard.seat ==> Flagged(w, StandardFor(t, w.author)))
      && (forall author :: author in t.byAuthor ==> t.byAuthor[author].0 != standard.seat)
  {
    var c := StandardChoice(standard);
    assert OwnArm(t, w, standard, c, standard);
    forall author | author in t.byAuthor && t.byAuthor[author].0 == standard.seat
      ensures !FlaggedChoice(t, w, standard, c)
    {
      assert OwnArm(t, w, standard, c, Bare(t.byAuthor[author].0, t.byAuthor[author].1));
    }
    assert StandardFor(t, w.author).seat == standard.seat ==> OwnArm(t, w, standard, c, StandardFor(t, w.author));
  }

  /** Nothing is drawn exactly when the draw reaches the class cap or all the shares, and no spread arm has a turn. */
  lemma StandardsTurn(t: Table, w: World, excluded: set<string>)
    requires 0.0 <= w.draw && t.maxShare >= 0.0 && forall i :: 0 <= i < |t.explore| ==> t.explore[i].share >= 0.0
    ensures DrawsStandard(t, w, excluded) <==>
      !SpreadTurn(t, w, excluded)
      && (w.draw >= t.maxShare || w.draw >= Shares(OpenArms(t.explore, t, w, excluded)))
  {
    var arms := OpenArms(t.explore, t, w, excluded);
    OpenArmsIn(t.explore, t, w, excluded);
    forall i | 0 <= i < |arms| ensures arms[i].share >= 0.0 {
      assert arms[i] in arms;
    }
    hide Picks, OpenArms, SpreadTurn, Shares;
    DrawnWhen(arms, t.maxShare, w.draw);
    if DrawsStandard(t, w, excluded) {
      assert forall k: nat :: !Picks(arms, t.maxShare, w.draw, k);
    } else if !SpreadTurn(t, w, excluded) {
      var k: nat :| Picks(arms, t.maxShare, w.draw, k);
    }
  }

  lemma DrawnWhen(arms: seq<Arm>, cap: real, draw: real)
    requires 0.0 <= draw && cap >= 0.0 && forall i :: 0 <= i < |arms| ==> arms[i].share >= 0.0
    ensures (exists k: nat :: Picks(arms, cap, draw, k)) <==> draw < cap && draw < Shares(arms)
  {
    hide Reach;
    if draw < cap && draw < Shares(arms) {
      var k := DrawExplores(arms, cap, draw);
    }
    if k: nat :| Picks(arms, cap, draw, k) {
      assert !Passed(arms, cap, draw, k);
      if draw >= cap {
        CapHolds(arms, cap, draw, k);
      } else if draw >= Shares(arms) {
        SharesHold(arms, cap, draw, k);
      }
    }
  }

  /** A draw at or above all shares explores nothing. */
  lemma SharesHold(arms: seq<Arm>, cap: real, draw: real, k: nat)
    requires cap >= 0.0 && k < |arms| && draw >= Shares(arms) && forall i :: 0 <= i < |arms| ==> arms[i].share >= 0.0
    ensures Passed(arms, cap, draw, k)
  {
    SharesWithin(arms, k + 1);
    if Shares(arms) > cap && Shares(arms) > 0.0 {
      ScaledWithin(cap, Shares(arms[..k + 1]), Shares(arms));
    }
  }

  /** The constraint has an arm whose seat may be used. */
  ghost predicate ConstraintOpen(t: Table, w: World, excluded: set<string>) {
    Constrained(t, w).Some? && Safe(t, w, excluded, Constrained(t, w).value)
  }

  /** Work the constraint may take is never refused for its seat. */
  lemma ConstraintIs(t: Table, w: World, excluded: set<string>)
    ensures Constrained(t, w).Some? ==> Constrained(t, w).value.kind == Constraint
    ensures ConstraintOpen(t, w, excluded) ==> Constrained(t, w).value.seat !in excluded
    ensures Constrained(t, w).Some? ==> forall seat, model :: !HandsRefused(t, seat, model)
  {
  }

  /** A first decision is kept, and it is not what the constraint would pick. */
  ghost predicate KeepsOther(t: Table, w: World, first: Option<Earlier>, excluded: set<string>) {
    first.Some? && Kept(t, w, first.value, excluded) && Some(FirstChoice(first.value)) != Constrained(t, w)
  }

  // ---- the whole selection ----

  /** Every path ends safe: the returned seat is not excluded, paused or disabled, keeps the hands-only rule and, for
      verify, is the reviewer of the author's standard. A flag on the arm itself is missed exactly as `FlagsAreMissed`
      says. Outside the Opus seats the job waits only when no arm, standard or author variant is open. */
  method Select(t: Table, w: World, standard: Arm, flags: Flags, first: Option<Earlier>, excluded: set<string>)
    returns (choice: Option<Choice>, sticky: bool)
    requires 0.0 <= w.spin < 1.0
    ensures Selected(t, w, standard, flags, first, excluded, choice)
    ensures choice.Some? ==> Safe(t, w, excluded, choice.value)
    ensures choice.Some? && FlaggedChoice(t, w, standard, choice.value) <==>
      FlagsAreMissed(t, w, standard, flags, first, excluded)
    ensures var c := Unscreened(t, w, standard, flags, first, excluded);
      c.Some? && Safe(t, w, excluded, Settled(t, standard, c.value)) ==> choice == Some(Settled(t, standard, c.value))
    ensures (!flags.Any() && t.chain == [] && first.None? && Constrained(t, w).None?
             && !DrawsStandard(t, w, excluded)) ==>
      choice.Some? && Drew(t, w, standard, excluded, choice.value)
    ensures !flags.Any() && t.chain == [] && ConstraintOpen(t, w, excluded) ==>
      (choice == Constrained(t, w) <==> !KeepsOther(t, w, first, excluded))
    ensures sticky ==>
      !flags.Any() && first.Some? && Kept(t, w, first.value, excluded) && choice == Some(FirstChoice(first.value))
    ensures t.chain != [] && !flags.Any() && choice.None? ==>
      standard.seat in excluded || forall k :: 0 <= k < |t.chain| ==> !ChainOpen(t, w, standard, t.chain[k], excluded)
    ensures ((t.chain == [] || flags.Any()) && flags.seat !in OPUS_SEATS && standard.seat !in OPUS_SEATS
             && choice.None?) ==>
      NothingOpen(t, w, standard, excluded)
  {
    hide Drew, Kept, NothingOpen, ChainOpen, DrawsStandard, Safe, SeatBlocked, Screened, Constrained;
    sticky := false;
    if t.chain != [] && !flags.Any() {
      choice := ChainChoice(t, w, standard, excluded);
      if choice.Some? {
        ScreenedIsUnflagged(t, w, standard, choice.value);
      }
      return;
    }
    var constrained := ConstraintChoice(t, w);
    ConstraintIs(t, w, excluded);
    var picked: Option<Choice> := None;
    if flags.Any() {
      var wanted := ExplicitChoice(t, standard, flags);
      if wanted.seat in OPUS_SEATS && w.noOpusAccount {
        return None, false;
      }
      picked := Some(wanted);
    } else if first.Some? {
      picked := Sticky(t, w, first.value, excluded);
      sticky := picked.Some?;
    }
    if picked.None? {
      var drawn := Draw(t, w, standard, excluded);
      DrewIsScreened(t, w, standard, excluded, drawn);
      picked := Some(drawn);
    }
    if !flags.Any() && !sticky && constrained.Some? && constrained.value.seat !in excluded {
      picked := constrained;
    }
    choice, sticky := Gate(t, w, standard, flags, excluded, picked.value, sticky);
  }

  lemma ScreenedIsUnflagged(t: Table, w: World, standard: Arm, c: Choice)
    ensures Screened(t, w, standard, c) ==> !FlaggedChoice(t, w, standard, c)
  {
  }

  /** What becomes of a choice: it stands, as the hands-only rule leaves it, when its seat may be used; flags that name
      an Opus seat wait; any other gives way to the fallback's. */
  ghost predicate Gated(t: Table, w: World, standard: Arm, flags: Flags, excluded: set<string>, picked: Choice,
      choice: Option<Choice>) {
    if Safe(t, w, excluded, Settled(t, standard, picked)) then choice == Some(Settled(t, standard, picked))
    else if flags.Any() && flags.seat in OPUS_SEATS then choice == None
    else FellTo(t, w, standard, excluded, choice)
  }

  /** The whole selection: flags, else the chain, else a kept first decision, else the constraint, else the draws. */
  ghost predicate Selected(t: Table, w: World, standard: Arm, flags: Flags, first: Option<Earlier>,
      excluded: set<string>, choice: Option<Choice>) {
    if flags.Any() then
      if ExplicitChoice(t, standard, flags).seat in OPUS_SEATS && w.noOpusAccount then choice == None
      else Gated(t, w, standard, flags, excluded, ExplicitChoice(t, standard, flags), choice)
    else if t.chain != [] then Chained(t, w, standard, excluded, choice)
    else if first.Some? && Kept(t, w, first.value, excluded) then
      Gated(t, w, standard, flags, excluded, FirstChoice(first.value), choice)
    else if Constrained(t, w).Some? && Constrained(t, w).value.seat !in excluded then
      Gated(t, w, standard, flags, excluded, Constrained(t, w).value, choice)
    else
      exists drawn :: Drew(t, w, standard, excluded, drawn)
        && Gated(t, w, standard, flags, excluded, drawn, choice)
  }

  /** The first open model of the chain on the standard's seat, or nothing. */
  ghost predicate Chained(t: Table, w: World, standard: Arm, excluded: set<string>, choice: Option<Choice>) {
    if exists k: nat :: FirstInChain(t, w, standard, excluded, k) then
      exists k: nat :: FirstInChain(t, w, standard, excluded, k)
        && choice == Some(Choice(Standard, "standard", standard.seat, t.chain[k]))
    else choice == None
  }

  /** The hands-only rule and the last gate: a choice that does not pass is replaced by the fallback's. */
  method Gate(t: Table, w: World, standard: Arm, flags: Flags, excluded: set<string>, picked: Choice, kept: bool)
    returns (choice: Option<Choice>, sticky: bool)
    ensures choice.Some? ==> Safe(t, w, excluded, choice.value)
    ensures Safe(t, w, excluded, Settled(t, standard, picked)) ==> choice == Some(Settled(t, standard, picked))
    ensures !Safe(t, w, excluded, Settled(t, standard, picked)) && choice.Some? ==>
      !FlaggedChoice(t, w, standard, choice.value) && choice.value.kind != Constraint
    ensures choice.None? ==> (flags.Any() && flags.seat in OPUS_SEATS) || NothingOpen(t, w, standard, excluded)
    ensures Gated(t, w, standard, flags, excluded, picked, choice)
    ensures sticky ==> kept && choice == Some(picked)
  {
    var c := picked;
    sticky := kept;
    if HandsRefused(t, c.seat, c.model) {
      c, sticky := StandardChoice(standard), false;
    }
    GateIsSafety(t, w, excluded, c);
    hide Safe, SeatBlocked, Screened, FlaggedChoice, NothingOpen;
    if SeatBlocked(t, w, Bare(c.seat, c.model), excluded) {
      if flags.Any() && flags.seat in OPUS_SEATS {
        return None, false;
      }
      choice := Fallback(t, w, standard, excluded);
      FallbackIsOpen(t, w, standard, excluded, choice);
      if choice.Some? {
        ScreenedIsUnflagged(t, w, standard, choice.value);
      }
      return choice, false;
    }
    choice := Some(c);
  }

  /** The last gate looks at seats, not at arms: a bare choice is blocked exactly when it is not safe. */
  lemma GateIsSafety(t: Table, w: World, excluded: set<string>, c: Choice)
    ensures SeatBlocked(t, w, Bare(c.seat, c.model), excluded) <==> !Safe(t, w, excluded, c)
  {
  }

  // ---- a paused arm that is dispatched, on each of the three paths ----

  const PAUSED := Arm("grok", "grok-implementer", "grok-4", "grok", true, false, "", 0.0, 0.0)

  const DEFAULT := Bare("sol-implementer", "gpt-5")

  function PausedTable(): Table {
    Table("implement", DEFAULT, map[], [], {}, {}, [PAUSED], 0.0, None, false, 15.0, _ => false, _ => "", _ => "")
  }

  function QuietWorld(swap: bool): World {
    World("", map[], _ => false, _ => false, _ => false, Triggers(None, "ok", false, false, swap, false, false, false),
      false, 0.0, 0.0)
  }

  /** The only arm on the hands seat is paused, and swap mode dispatches it. */
  method SwapTakesPausedArm() returns (choice: Option<Choice>, sticky: bool)
    ensures PausedTable().explore == [PAUSED] && PAUSED.off
      && choice == Some(Choice(Constraint, PAUSED.id, PAUSED.seat, PAUSED.model))
  {
    assert FirstArm([PAUSED], OnHands()) == Some(PAUSED);
    choice, sticky := Select(PausedTable(), QuietWorld(true), DEFAULT, Flags("", "", ""), None, {});
  }

  /** Paused after a job's first dispatch, it stays that job's arm. */
  method StickyTakesPausedArm() returns (choice: Option<Choice>, sticky: bool)
    ensures PausedTable().explore == [PAUSED] && PAUSED.off
      && choice == Some(Choice(Constraint, PAUSED.id, PAUSED.seat, PAUSED.model))
  {
    var first := Earlier(Constraint, PAUSED.id, PAUSED.seat, PAUSED.model, PAUSED.model);
    choice, sticky := Select(PausedTable(), QuietWorld(false), DEFAULT, Flags("", "", ""), Some(first), {});
  }

  /** Flags that name its seat get it too. */
  method FlagsTakePausedArm() returns (choice: Option<Choice>, sticky: bool)
    ensures PausedTable().explore == [PAUSED] && PAUSED.off
      && choice == Some(Choice(Explicit, "explicit", PAUSED.seat, PAUSED.model))
  {
    choice, sticky := Select(PausedTable(), QuietWorld(false), DEFAULT, Flags(PAUSED.seat, PAUSED.model, ""), None, {});
  }

  // ---- a kept choice that fails the last gate ----

  const MOVED := Arm("x", "devin-implementer", "swe", "devin", false, false, "", 0.0, 0.0)

  const HANDS := PAUSED.(off := false)

  function MovedTable(): Table { PausedTable().(offSeats := {"old-implementer"}, explore := [MOVED, HANDS]) }

  /** A job's explore arm has moved to another seat and its first seat is off: the arm is kept, its seat fails the last
      gate, and the fallback takes over although the constraint has an arm that could be used. */
  method MovedArmMissesConstraint() returns (choice: Option<Choice>, sticky: bool)
    ensures ConstraintOpen(MovedTable(), QuietWorld(true), {})
    ensures choice.Some? && choice != Constrained(MovedTable(), QuietWorld(true))
    ensures !sticky && choice.value.seat != "old-implementer"
  {
    hide Selected, Gated, FellTo, FlaggedChoice, FlagsAreMissed, Unscreened, Drew, DrawsStandard;
    var first := Earlier(Explore, "x", "old-implementer", "swe", "swe");
    var t, w := MovedTable(), QuietWorld(true);
    assert FirstArm(t.explore[1..], OnHands()) == Some(HANDS);
    assert t.explore[..1] == [MOVED] && ById(t.explore[..1], "x") == Some(MOVED);
    choice, sticky := Select(t, w, DEFAULT, Flags("", "", ""), Some(first), {});
  }
}
