/** The quota mode controller (clients/route_quota.py:73-127): one locked read-modify-write of the
  mode file per routing call. Fractions and times are reals; the request log arrives as the stamps
  of its Anthropic limit errors, the pool document as three optional readings.
*/
module QuotaMode {
  import opened Options

  datatype Mode = Anthropic | CodexSwap

  datatype Cause = LimitError | RemainingLow | EligibleLow | HeadroomLow | Recovered

  /** `reserve` is a fraction; both come from the routing table and stay fixed over a run. */
  datatype Policy = Policy(reserve: real, minEligible: real)

  datatype Reading = Reading(now: real, remaining: Option<real>, eligible: Option<real>, headroom: Option<real>,
      limitErrors: seq<real>)
  {
    predicate EligibleShort(p: Policy) { eligible.Some? && eligible.value < p.minEligible }

    predicate EligibleOk(p: Policy) { eligible.Some? && eligible.value >= p.minEligible }
  }

  datatype State = State(mode: Mode, recoveryPending: bool, restoredAt: Option<real>, lastLimitErrorAt: Option<real>,
      lastFlipAt: Option<real>, lastFlipCause: Option<Cause>)

  /** What an absent or unreadable mode file stands for. */
  const FRESH := State(Anthropic, false, None, None, None, None)

  /** The newest of a stored stamp and the log stamps of the last 15 minutes. */
  function Latest(stored: Option<real>, stamps: seq<real>, now: real): Option<real> {
    if stamps == [] then stored
    else
      var rest := Latest(stored, stamps[1..], now);
      if !(0.0 <= now - stamps[0] <= 900.0) then rest
      else if rest.None? || stamps[0] > rest.value then Some(stamps[0])
      else rest
  }

  function RestoredAt(s: State, p: Policy, r: Reading): Option<real> {
    if !r.EligibleOk(p) then None
    else if s.restoredAt.None? || s.restoredAt.value > r.now then Some(r.now)
    else s.restoredAt
  }

  function FlipCause(p: Policy, r: Reading, latest: Option<real>): Option<Cause> {
    if latest.Some? && 0.0 <= r.now - latest.value <= 600.0 then Some(LimitError)
    else if r.remaining.Some? && r.remaining.value < p.reserve then Some(RemainingLow)
    else if r.EligibleShort(p) then Some(EligibleLow)
    else if r.headroom.Some? && r.headroom.value < p.reserve then Some(HeadroomLow)
    else None
  }

  predicate CanReturn(p: Policy, r: Reading, latest: Option<real>, eligibleReady: bool) {
    && r.remaining.Some? && r.remaining.value > p.reserve + 0.1
    && r.EligibleOk(p)
    && r.headroom.Some? && r.headroom.value > p.reserve + 0.1
    && (latest.None? || r.now - latest.value > 900.0)
    && eligibleReady
  }

  function Next(s: State, p: Policy, r: Reading): State {
    var latest := Latest(s.lastLimitErrorAt, r.limitErrors, r.now);
    var pending := s.recoveryPending || r.EligibleShort(p);
    var restored := if pending then RestoredAt(s, p, r) else s.restoredAt;
    var ready := !pending || (restored.Some? && r.now - restored.value >= 900.0);
    var s1 := s.(recoveryPending := pending, restoredAt := restored, lastLimitErrorAt := latest);
    if s.mode == Anthropic then
      var cause := FlipCause(p, r, latest);
      if cause.Some? then s1.(mode := CodexSwap, lastFlipAt := Some(r.now), lastFlipCause := cause) else s1
    else if CanReturn(p, r, latest, ready) then
      s1.(mode := Anthropic, recoveryPending := false, restoredAt := None,
          lastFlipAt := Some(r.now), lastFlipCause := Some(Recovered))
    else s1
  }

  /** The mode file and the step the code takes on it. */
  class ModeFile {
    var mode: Mode
    var recoveryPending: bool
    var restoredAt: Option<real>
    var lastLimitErrorAt: Option<real>
    var lastFlipAt: Option<real>
    var lastFlipCause: Option<Cause>

    ghost function Contents(): State
      reads this
    {
      State(mode, recoveryPending, restoredAt, lastLimitErrorAt, lastFlipAt, lastFlipCause)
    }

    constructor ()
      ensures Contents() == FRESH && mode == Anthropic && lastFlipAt == None && lastFlipCause == None
    {
      mode, recoveryPending, restoredAt := Anthropic, false, None;
      lastLimitErrorAt, lastFlipAt, lastFlipCause := None, None, None;
    }

    method Step(p: Policy, r: Reading)
      modifies this
      ensures Contents() == Next(old(Contents()), p, r)
    {
      var latest := lastLimitErrorAt;
      var i := |r.limitErrors|;
      while i > 0
        invariant 0 <= i <= |r.limitErrors|
        invariant latest == Latest(lastLimitErrorAt, r.limitErrors[i..], r.now)
        invariant Contents() == old(Contents())
      {
        i := i - 1;
        var stamp := r.limitErrors[i];
        assert r.limitErrors[i..] == [stamp] + r.limitErrors[i + 1..];
        if 0.0 <= r.now - stamp <= 900.0 && (latest.None? || stamp > latest.value) {
          latest := Some(stamp);
        }
      }
      assert r.limitErrors[0..] == r.limitErrors;
      if r.EligibleShort(p) {
        recoveryPending := true;
      }
      var eligibleReady := !recoveryPending;
      if !eligibleReady {
        var restored := restoredAt;
        if !r.EligibleOk(p) {
          restored := None;
        } else if restored.None? || restored.value > r.now {
          restored := Some(r.now);
        }
        restoredAt := restored;
        eligibleReady := restored.Some? && r.now - restored.value >= 900.0;
      }
      var cause := None;
      if mode == Anthropic {
        cause := FlipCause(p, r, latest);
        if cause.Some? {
          mode := CodexSwap;
        }
      } else if CanReturn(p, r, latest, eligibleReady) {
        mode := Anthropic;
        recoveryPending, restoredAt := false, None;
        cause := Some(Recovered);
      }
      if cause.Some? {
        lastFlipAt, lastFlipCause := Some(r.now), cause;
      }
      lastLimitErrorAt := latest;
    }
  }

  // ---- runs ----

  /** The state before step `n` of a run that starts from a fresh file. */
  ghost function StateAt(p: Policy, rs: seq<Reading>, n: nat): State
    requires n <= |rs|
  {
    if n == 0 then FRESH else Next(StateAt(p, rs, n - 1), p, rs[n - 1])
  }

  ghost predicate ClockRuns(rs: seq<Reading>) { forall i, j :: 0 <= i <= j < |rs| ==> rs[i].now <= rs[j].now }

  ghost predicate Flips(p: Policy, rs: seq<Reading>, i: nat) {
    i < |rs| && StateAt(p, rs, i).mode == Anthropic && StateAt(p, rs, i + 1).mode == CodexSwap
  }

  ghost predicate Returns(p: Policy, rs: seq<Reading>, j: nat) {
    j < |rs| && StateAt(p, rs, j).mode == CodexSwap && StateAt(p, rs, j + 1).mode == Anthropic
  }

  ghost predicate SwapBetween(p: Policy, rs: seq<Reading>, i: nat, j: nat) {
    i <= j <= |rs| && forall k :: i < k <= j ==> StateAt(p, rs, k).mode == CodexSwap
  }

  /** Anthropic mode never coexists with a pending recovery, and a recovery timer only runs while one is pending. */
  lemma {:induction false} NoPendingInAnthropic(p: Policy, rs: seq<Reading>, n: nat)
    requires n <= |rs|
    ensures var s := StateAt(p, rs, n);
      && (s.mode == Anthropic ==> !s.recoveryPending)
      && (!s.recoveryPending ==> s.restoredAt.None?)
  {
    if n > 0 {
      NoPendingInAnthropic(p, rs, n - 1);
    }
  }

  lemma {:induction false} LatestKeeps(stored: Option<real>, stamps: seq<real>, now: real)
    ensures var latest := Latest(stored, stamps, now);
      && (stored.Some? ==> latest.Some? && latest.value >= stored.value)
      && (latest.Some? ==> latest == stored || latest.value <= now)
      && (latest.Some? && latest != stored ==>
            exists k :: 0 <= k < |stamps| && 0.0 <= now - stamps[k] <= 900.0 && stamps[k] == latest.value)
      && (forall k :: 0 <= k < |stamps| && 0.0 <= now - stamps[k] <= 900.0 ==>
           latest.Some? && latest.value >= stamps[k])
  {
    if stamps != [] {
      LatestKeeps(stored, stamps[1..], now);
      var rest := Latest(stored, stamps[1..], now);
      if rest.Some? && rest != stored {
        var k :| 0 <= k < |stamps[1..]| && 0.0 <= now - stamps[1..][k] <= 900.0 && stamps[1..][k] == rest.value;
        assert stamps[k + 1] == rest.value;
      }
      forall k | 0 <= k < |stamps| && 0.0 <= now - stamps[k] <= 900.0
        ensures Latest(stored, stamps, now).Some? && Latest(stored, stamps, now).value >= stamps[k]
      {
        if k > 0 {
          assert stamps[1..][k - 1] == stamps[k];
        }
      }
    }
  }

  /** The stored limit error only grows. */
  lemma {:induction false} LimitErrorsPersist(p: Policy, rs: seq<Reading>, i: nat, j: nat)
    requires i <= j <= |rs| && StateAt(p, rs, i).lastLimitErrorAt.Some?
    ensures StateAt(p, rs, j).lastLimitErrorAt.Some?
    ensures StateAt(p, rs, i).lastLimitErrorAt.value <= StateAt(p, rs, j).lastLimitErrorAt.value
    decreases j
  {
    if i < j {
      LimitErrorsPersist(p, rs, i, j - 1);
      LatestKeeps(StateAt(p, rs, j - 1).lastLimitErrorAt, rs[j - 1].limitErrors, rs[j - 1].now);
    }
  }

  /** After a short reading in swap mode, the recovery timer, when it runs, was started later. */
  lemma {:induction false} TimerStartsAfter(p: Policy, rs: seq<Reading>, k: nat, n: nat)
    requires ClockRuns(rs) && k < n <= |rs| && rs[k].EligibleShort(p)
    requires forall m :: k < m <= n ==> StateAt(p, rs, m).mode == CodexSwap
    ensures var s := StateAt(p, rs, n);
      && s.recoveryPending
      && (s.restoredAt.Some? ==> rs[k].now <= s.restoredAt.value)
    decreases n
  {
    if n == k + 1 {
      assert StateAt(p, rs, n) == Next(StateAt(p, rs, k), p, rs[k]);
    } else {
      TimerStartsAfter(p, rs, k, n - 1);
      assert rs[k].now <= rs[n - 1].now;
    }
  }

  /** While the timer runs, every reading since it started had enough eligible accounts. */
  lemma {:induction false} TimerMeansEligible(p: Policy, rs: seq<Reading>, n: nat, k: nat)
    requires ClockRuns(rs) && k < n <= |rs|
    requires StateAt(p, rs, n).restoredAt.Some? && rs[k].now > StateAt(p, rs, n).restoredAt.value
    ensures rs[k].EligibleOk(p)
    decreases n
  {
    NoPendingInAnthropic(p, rs, n);
    NoPendingInAnthropic(p, rs, n - 1);
    if k < n - 1 {
      assert rs[k].now <= rs[n - 1].now;
      TimerMeansEligible(p, rs, n - 1, k);
    }
  }

  /** A return to Anthropic is never early, whatever caused the flip. */
  lemma NoChatter(p: Policy, rs: seq<Reading>, i: nat, j: nat)
    requires ClockRuns(rs) && i < j && Flips(p, rs, i) && Returns(p, rs, j) && SwapBetween(p, rs, i, j)
    ensures StateAt(p, rs, i + 1).lastFlipCause == Some(LimitError) ==> rs[j].now - rs[i].now > 300.0
    ensures StateAt(p, rs, i + 1).lastFlipCause == Some(EligibleLow) ==> rs[j].now - rs[i].now >= 900.0
    ensures StateAt(p, rs, i + 1).lastFlipCause == Some(RemainingLow) ==>
      rs[i].remaining.Some? && rs[j].remaining.Some? && rs[j].remaining.value > rs[i].remaining.value + 0.1
    ensures StateAt(p, rs, i + 1).lastFlipCause == Some(HeadroomLow) ==>
      rs[i].headroom.Some? && rs[j].headroom.Some? && rs[j].headroom.value > rs[i].headroom.value + 0.1
    ensures StateAt(p, rs, i + 1).lastFlipCause
      in {Some(LimitError), Some(RemainingLow), Some(EligibleLow), Some(HeadroomLow)}
  {
    var before, after := StateAt(p, rs, i), StateAt(p, rs, i + 1);
    assert after == Next(before, p, rs[i]);
    if after.lastFlipCause == Some(LimitError) {
      LimitErrorsPersist(p, rs, i + 1, j);
      LatestKeeps(StateAt(p, rs, j).lastLimitErrorAt, rs[j].limitErrors, rs[j].now);
    }
    if rs[i].EligibleShort(p) {
      ShortDelaysReturn(p, rs, i, j);
    }
  }

  /** Every short reading of the swap period, its flip included, is at least 900 s older than the return. */
  lemma ShortDelaysReturn(p: Policy, rs: seq<Reading>, k: nat, j: nat)
    requires ClockRuns(rs) && k < j && Returns(p, rs, j) && rs[k].EligibleShort(p)
    requires forall m :: k < m <= j ==> StateAt(p, rs, m).mode == CodexSwap
    ensures rs[j].now - rs[k].now >= 900.0
  {
    TimerStartsAfter(p, rs, k, j);
    assert rs[k].now <= rs[j].now;
    assert StateAt(p, rs, j + 1) == Next(StateAt(p, rs, j), p, rs[j]);
  }

  /** A return with a recovery pending was preceded by 900 s in which every reading had enough eligible accounts. */
  lemma RecoveryWasSteady(p: Policy, rs: seq<Reading>, j: nat, k: nat)
    requires ClockRuns(rs) && Returns(p, rs, j) && StateAt(p, rs, j).recoveryPending
    requires k <= j && rs[j].now - rs[k].now < 900.0
    ensures rs[k].EligibleOk(p)
  {
    var s := StateAt(p, rs, j);
    assert StateAt(p, rs, j + 1) == Next(s, p, rs[j]);
    if k < j {
      TimerMeansEligible(p, rs, j, k);
    }
  }

  /** At a return, every limit error that any step of the run read while it was fresh is over 15 minutes old. */
  lemma QuietBeforeReturn(p: Policy, rs: seq<Reading>, j: nat, k: nat, e: nat)
    requires Returns(p, rs, j) && k <= j && e < |rs[k].limitErrors|
    requires 0.0 <= rs[k].now - rs[k].limitErrors[e] <= 900.0
    ensures rs[j].now - rs[k].limitErrors[e] > 900.0
  {
    LatestKeeps(StateAt(p, rs, k).lastLimitErrorAt, rs[k].limitErrors, rs[k].now);
    LimitErrorsPersist(p, rs, k + 1, j + 1);
    assert StateAt(p, rs, j + 1) == Next(StateAt(p, rs, j), p, rs[j]);
  }

  // ---- when the mode changes ----

  /** A limit error that one of the first `n` steps read while it was at most 15 minutes old. */
  ghost predicate Known(rs: seq<Reading>, n: nat, e: real) {
    exists k, j :: 0 <= k < n && k < |rs| && 0 <= j < |rs[k].limitErrors| && rs[k].limitErrors[j] == e
      && 0.0 <= rs[k].now - e <= 900.0
  }

  /** The stored limit error is the newest one known. */
  lemma {:induction false} StoredErrorIsNewest(p: Policy, rs: seq<Reading>, n: nat)
    requires n <= |rs|
    ensures var stored := StateAt(p, rs, n).lastLimitErrorAt;
      && (stored.Some? ==> Known(rs, n, stored.value))
      && (forall e :: Known(rs, n, e) ==> stored.Some? && e <= stored.value)
  {
    if n > 0 {
      StoredErrorIsNewest(p, rs, n - 1);
      var before, r := StateAt(p, rs, n - 1).lastLimitErrorAt, rs[n - 1];
      var stored := StateAt(p, rs, n).lastLimitErrorAt;
      assert stored == Latest(before, r.limitErrors, r.now);
      LatestKeeps(before, r.limitErrors, r.now);
      forall e | Known(rs, n, e) ensures stored.Some? && e <= stored.value {
        assert Known(rs, n - 1, e)
          || (exists j :: 0 <= j < |r.limitErrors| && r.limitErrors[j] == e && 0.0 <= r.now - e <= 900.0);
      }
      if stored.Some? {
        assert Known(rs, n - 1, stored.value) ==> Known(rs, n, stored.value);
      }
    }
  }

  /** A limit error at most ten minutes old is known, and none is known from the future. */
  ghost predicate ErrorLately(rs: seq<Reading>, n: nat)
    requires 0 < n <= |rs|
  {
    exists e :: NewestKnown(rs, n, e) && 0.0 <= rs[n - 1].now - e <= 600.0
  }

  ghost predicate NewestKnown(rs: seq<Reading>, n: nat, e: real) {
    Known(rs, n, e) && forall x :: Known(rs, n, x) ==> x <= e
  }

  /** No limit error within the last 15 minutes is known. */
  ghost predicate NoneLately(rs: seq<Reading>, n: nat)
    requires 0 < n <= |rs|
  {
    forall e :: Known(rs, n, e) ==> rs[n - 1].now - e > 900.0
  }

  ghost predicate Below(v: Option<real>, bound: real) { v.Some? && v.value < bound }

  ghost predicate Above(v: Option<real>, bound: real) { v.Some? && v.value > bound }

  /** Anthropic mode is left exactly on a recent limit error or one of three low readings, and the first of these in
      order is the cause on record. */
  lemma FlipsWhen(p: Policy, rs: seq<Reading>, i: nat)
    requires i < |rs| && StateAt(p, rs, i).mode == Anthropic
    ensures var r, after := rs[i], StateAt(p, rs, i + 1);
      && (Flips(p, rs, i) <==>
            || ErrorLately(rs, i + 1) || Below(r.remaining, p.reserve)
            || Below(r.eligible, p.minEligible) || Below(r.headroom, p.reserve))
      && (Flips(p, rs, i) ==>
            && after.lastFlipAt == Some(r.now)
            && after.lastFlipCause == Some(if ErrorLately(rs, i + 1) then LimitError
                                           else if Below(r.remaining, p.reserve) then RemainingLow
                                           else if Below(r.eligible, p.minEligible) then EligibleLow
                                           else HeadroomLow))
  {
    StoredErrorIsNewest(p, rs, i + 1);
    assert StateAt(p, rs, i + 1) == Next(StateAt(p, rs, i), p, rs[i]);
    var stored := StateAt(p, rs, i + 1).lastLimitErrorAt;
    assert ErrorLately(rs, i + 1) <==> stored.Some? && 0.0 <= rs[i].now - stored.value <= 600.0 by {
      if ErrorLately(rs, i + 1) {
        var e :| NewestKnown(rs, i + 1, e) && 0.0 <= rs[i].now - e <= 600.0;
        assert stored.value == e;
      }
      if stored.Some? {
        assert NewestKnown(rs, i + 1, stored.value);
      }
    }
    hide Known, StateAt;
  }

  /** A step that neither leaves nor returns keeps the mode and the last flip on record. */
  lemma StaysOtherwise(p: Policy, rs: seq<Reading>, i: nat)
    requires i < |rs| && !Flips(p, rs, i) && !Returns(p, rs, i)
    ensures var before, after := StateAt(p, rs, i), StateAt(p, rs, i + 1);
      after.mode == before.mode && after.lastFlipAt == before.lastFlipAt && after.lastFlipCause == before.lastFlipCause
  {
    assert StateAt(p, rs, i + 1) == Next(StateAt(p, rs, i), p, rs[i]);
  }

  /** Some reading from step `i` to step `n` had too few eligible accounts. */
  ghost predicate WasShort(p: Policy, rs: seq<Reading>, i: nat, n: nat) {
    exists k :: i <= k < n && k < |rs| && Below(rs[k].eligible, p.minEligible)
  }

  /** Every reading from step `k` up to step `n` had enough eligible accounts. */
  ghost predicate OkSince(p: Policy, rs: seq<Reading>, k: nat, n: nat) {
    k < n <= |rs| && forall m :: k <= m < n ==> rs[m].eligible.Some? && rs[m].eligible.value >= p.minEligible
  }

  /** In a swap period a recovery is pending exactly when a reading of the period was short. */
  lemma {:induction false} PendingWhen(p: Policy, rs: seq<Reading>, i: nat, n: nat)
    requires Flips(p, rs, i) && i < n && SwapBetween(p, rs, i, n)
    ensures StateAt(p, rs, n).recoveryPending <==> WasShort(p, rs, i, n)
    decreases n
  {
    assert StateAt(p, rs, n) == Next(StateAt(p, rs, n - 1), p, rs[n - 1]);
    if n == i + 1 {
      NoPendingInAnthropic(p, rs, i);
      assert WasShort(p, rs, i, n) <==> Below(rs[i].eligible, p.minEligible);
    } else {
      PendingWhen(p, rs, i, n - 1);
      assert WasShort(p, rs, i, n) <==> WasShort(p, rs, i, n - 1) || Below(rs[n - 1].eligible, p.minEligible);
    }
  }

  /** The timer of a pending recovery started at the first of the sufficient readings that last until now. */
  ghost predicate StartedAt(p: Policy, rs: seq<Reading>, n: nat, t: real) {
    exists k: nat :: OkSince(p, rs, k, n) && rs[k].now == t && (k == 0 || !OkSince(p, rs, k - 1, n))
  }

  /** What the timer is at the end of step `n`, whether or not the step then returns. */
  ghost function TimerAfter(p: Policy, rs: seq<Reading>, n: nat): Option<real>
    requires n < |rs|
  {
    RestoredAt(StateAt(p, rs, n), p, rs[n])
  }

  lemma {:induction false} TimerNext(p: Policy, rs: seq<Reading>, i: nat, n: nat)
    requires ClockRuns(rs) && Flips(p, rs, i) && i <= n < |rs| && SwapBetween(p, rs, i, n)
    requires WasShort(p, rs, i, n + 1)
    ensures var t := TimerAfter(p, rs, n);
      && (t.Some? ==> StartedAt(p, rs, n + 1, t.value))
      && (t.None? ==> !OkSince(p, rs, n, n + 1))
    ensures StateAt(p, rs, n + 1).mode == CodexSwap ==> StateAt(p, rs, n + 1).restoredAt == TimerAfter(p, rs, n)
    decreases n
  {
    hide OkSince, StartedAt;
    var s := StateAt(p, rs, n);
    TimerKept(p, rs, i, n);
    TimerStep(p, rs, n);
    if rs[n].EligibleOk(p) {
      ShortBefore(p, rs, i, n);
      TimerNext(p, rs, i, n - 1);
      TimerGrows(p, rs, n, s.restoredAt);
    }
  }

  lemma ShortBefore(p: Policy, rs: seq<Reading>, i: nat, n: nat)
    requires i <= n < |rs| && WasShort(p, rs, i, n + 1) && rs[n].EligibleOk(p)
    ensures n > i && WasShort(p, rs, i, n)
  {
  }

  /** While it swaps with a recovery pending, the file keeps the timer. */
  lemma TimerKept(p: Policy, rs: seq<Reading>, i: nat, n: nat)
    requires Flips(p, rs, i) && i <= n < |rs| && SwapBetween(p, rs, i, n) && WasShort(p, rs, i, n + 1)
    ensures StateAt(p, rs, n + 1).mode == CodexSwap ==> StateAt(p, rs, n + 1).restoredAt == TimerAfter(p, rs, n)
  {
    assert StateAt(p, rs, n + 1) == Next(StateAt(p, rs, n), p, rs[n]);
    if n > i {
      PendingWhen(p, rs, i, n);
      assert WasShort(p, rs, i, n) || Below(rs[n].eligible, p.minEligible);
    } else {
      assert Below(rs[i].eligible, p.minEligible);
    }
  }

  /** A reading that is not sufficient stops the timer. */
  lemma TimerStep(p: Policy, rs: seq<Reading>, n: nat)
    requires n < |rs|
    ensures !rs[n].EligibleOk(p) ==> TimerAfter(p, rs, n).None? && !OkSince(p, rs, n, n + 1)
  {
  }

  /** A sufficient one keeps it, or starts it. */
  lemma TimerGrows(p: Policy, rs: seq<Reading>, n: nat, t: Option<real>)
    requires ClockRuns(rs) && 0 < n < |rs| && rs[n].EligibleOk(p) && t == StateAt(p, rs, n).restoredAt
    requires t.Some? ==> StartedAt(p, rs, n, t.value)
    requires t.None? ==> !OkSince(p, rs, n - 1, n)
    ensures TimerAfter(p, rs, n).Some? && StartedAt(p, rs, n + 1, TimerAfter(p, rs, n).value)
  {
    hide StateAt;
    if t.Some? {
      var k: nat :| OkSince(p, rs, k, n) && rs[k].now == t.value && (k == 0 || !OkSince(p, rs, k - 1, n));
      assert rs[k].now <= rs[n].now;
      assert OkSince(p, rs, k, n + 1);
      assert k > 0 ==> !OkSince(p, rs, k - 1, n + 1);
    } else {
      assert OkSince(p, rs, n, n + 1) && !OkSince(p, rs, n - 1, n + 1);
    }
  }

  /** Swap mode is left exactly when remaining and headroom are ten points above the reserve, accounts are eligible, no
      limit error known is within 15 minutes, and, if a reading of the period was short, readings have been sufficient
      for 15 minutes. */
  lemma ReturnsWhen(p: Policy, rs: seq<Reading>, i: nat, j: nat)
    requires ClockRuns(rs) && i < j < |rs| && Flips(p, rs, i) && SwapBetween(p, rs, i, j)
    ensures var r, after := rs[j], StateAt(p, rs, j + 1);
      && (Returns(p, rs, j) <==>
            && Above(r.remaining, p.reserve + 0.1) && Above(r.headroom, p.reserve + 0.1)
            && r.eligible.Some? && r.eligible.value >= p.minEligible
            && NoneLately(rs, j + 1)
            && (WasShort(p, rs, i, j + 1) ==>
                  exists k: nat :: OkSince(p, rs, k, j + 1) && r.now - rs[k].now >= 900.0))
      && (Returns(p, rs, j) ==> after.lastFlipAt == Some(r.now) && after.lastFlipCause == Some(Recovered)
                                && !after.recoveryPending && after.restoredAt == None)
  {
    StoredErrorIsNewest(p, rs, j + 1);
    PendingWhen(p, rs, i, j);
    assert WasShort(p, rs, i, j + 1) <==> WasShort(p, rs, i, j) || Below(rs[j].eligible, p.minEligible);
    assert StateAt(p, rs, j + 1) == Next(StateAt(p, rs, j), p, rs[j]);
    if WasShort(p, rs, i, j + 1) {
      TimerNext(p, rs, i, j);
      TimerLongEnough(p, rs, j, TimerAfter(p, rs, j));
    }
    hide Known, WasShort, OkSince, StartedAt;
  }

  lemma TimerLongEnough(p: Policy, rs: seq<Reading>, j: nat, t: Option<real>)
    requires ClockRuns(rs) && j < |rs|
    requires t.Some? ==> StartedAt(p, rs, j + 1, t.value)
    requires t.None? ==> !OkSince(p, rs, j, j + 1)
    ensures (exists k: nat :: OkSince(p, rs, k, j + 1) && rs[j].now - rs[k].now >= 900.0) <==>
      t.Some? && rs[j].now - t.value >= 900.0
  {
    if k: nat :| OkSince(p, rs, k, j + 1) && rs[j].now - rs[k].now >= 900.0 {
      assert OkSince(p, rs, j, j + 1);
      var start: nat :| OkSince(p, rs, start, j + 1) && rs[start].now == t.value
        && (start == 0 || !OkSince(p, rs, start - 1, j + 1));
      assert start <= k;
    }
  }
}
