/** Quota allocation for one provider, account and window (app/audit_quota.py:64-155).

  Snapshots of a used-percent meter become counted deltas; a delta is split over the receipts of its
  interval (Anthropic) or of its hour (OpenAI). Times are microseconds, shares are exact reals.
  The history is taken as lines 65-66 leave it: sorted, readings and resets present. Receipts are in
  request order, as the audit query returns them and as `bisect` needs them.
*/
module QuotaAllocation {
  import opened Options
  import opened Proportion

  datatype Provider = Anthropic | OpenAI

  datatype Receipt = Receipt(at: int, weight: real, success: bool)

  datatype Snapshot = Snapshot(at: int, used: real, resetAt: int)

  const SECOND: int := 1_000_000
  const HOUR: int := 3600 * SECOND

  function Hour(at: int): int { at / HOUR }

  function Max(a: int, b: int): int { if a >= b then a else b }

  // ---- the meter: high-water mark with reset detection ----

  datatype Meter = Meter(maximum: real, reset: Option<int>, previousUsed: Option<real>)

  const UNREAD := Meter(0.0, None, None)

  predicate CreditReset(m: Meter, s: Snapshot) {
    m.previousUsed.Some?
    && (m.previousUsed.value - s.used > 50.0 || (s.used <= 5.0 && m.previousUsed.value >= 20.0))
  }

  predicate Resets(m: Meter, s: Snapshot) {
    || m.reset.None?
    || s.resetAt - m.reset.value >= 3600 || m.reset.value - s.resetAt >= 3600
    || CreditReset(m, s)
  }

  /** The mark a reading is compared with. */
  function Floor(m: Meter, s: Snapshot): real { if Resets(m, s) then 0.0 else m.maximum }

  function Delta(m: Meter, s: Snapshot): real { if s.used - Floor(m, s) > 0.0 then s.used - Floor(m, s) else 0.0 }

  function Read(m: Meter, s: Snapshot): Meter {
    Meter(if s.used > Floor(m, s) then s.used else Floor(m, s),
          if Resets(m, s) then Some(s.resetAt) else m.reset,
          Some(s.used))
  }

  ghost function MeterAt(history: seq<Snapshot>, k: nat): Meter
    requires k <= |history|
  {
    if k == 0 then UNREAD else Read(MeterAt(history, k - 1), history[k - 1])
  }

  ghost function DeltaAt(history: seq<Snapshot>, k: nat): real
    requires k < |history|
  {
    Delta(MeterAt(history, k), history[k])
  }

  ghost predicate ResetsAt(history: seq<Snapshot>, k: nat) { k < |history| && Resets(MeterAt(history, k), history[k]) }

  /** A delta counts when it has a predecessor and ends inside the window. */
  ghost predicate Counted(history: seq<Snapshot>, k: nat, since: int, until: int) {
    0 < k < |history| && since < history[k].at <= until
  }

  ghost function Used(history: seq<Snapshot>, n: nat, since: int, until: int): real
    requires n <= |history|
  {
    if n == 0 then 0.0
    else Used(history, n - 1, since, until) + if Counted(history, n - 1, since, until) then DeltaAt(history, n - 1)
      else 0.0
  }

  ghost function DeltaSum(history: seq<Snapshot>, from: nat, end: nat): real
    requires from <= end <= |history|
  {
    if from == end then 0.0 else DeltaSum(history, from, end - 1) + DeltaAt(history, end - 1)
  }

  /** `first` opens an epoch and no snapshot before `end` opens another. */
  ghost predicate Epoch(history: seq<Snapshot>, first: nat, end: nat) {
    first < end <= |history| && ResetsAt(history, first) && forall k :: first < k < end ==> !ResetsAt(history, k)
  }

  /** The first snapshot opens an epoch, and a later one does when its reset time is an hour from the epoch's, or when
      the reading falls by over 50 points, or from 20 or more to 5 or less. */
  lemma {:induction false} EpochOpens(history: seq<Snapshot>, first: nat, k: nat)
    requires k < |history| && (k > 0 ==> Epoch(history, first, k))
    ensures ResetsAt(history, k) <==>
      || k == 0
      || history[k].resetAt - history[first].resetAt >= 3600 || history[first].resetAt - history[k].resetAt >= 3600
      || history[k - 1].used - history[k].used > 50.0 || (history[k].used <= 5.0 && history[k - 1].used >= 20.0)
  {
    if k > 0 {
      EpochReset(history, first, k);
    }
  }

  /** The meter keeps the reset time of the snapshot that opened the epoch, and the last reading. */
  lemma {:induction false} EpochReset(history: seq<Snapshot>, first: nat, k: nat)
    requires Epoch(history, first, k)
    ensures MeterAt(history, k).reset == Some(history[first].resetAt)
    ensures MeterAt(history, k).previousUsed == Some(history[k - 1].used)
    decreases k
  {
    assert MeterAt(history, k) == Read(MeterAt(history, k - 1), history[k - 1]);
    if first < k - 1 {
      assert !ResetsAt(history, k - 1);
      EpochReset(history, first, k - 1);
    }
  }

  /** Within an epoch, the deltas from any snapshot on add up to the rise of the high-water mark: dips and
      repeats add nothing. The mark is the greatest reading of the epoch, or zero. */
  lemma {:induction false} HighWaterExact(history: seq<Snapshot>, first: nat, from: nat, end: nat)
    requires Epoch(history, first, end) && first <= from < end
    ensures DeltaSum(history, from, end)
         == MeterAt(history, end).maximum - (if from == first then 0.0 else MeterAt(history, from).maximum)
    ensures forall k :: first <= k < end ==> history[k].used <= MeterAt(history, end).maximum
    ensures MeterAt(history, end).maximum == 0.0
      || exists k :: first <= k < end && history[k].used == MeterAt(history, end).maximum
    ensures MeterAt(history, end).maximum >= 0.0
    decreases end
  {
    assert MeterAt(history, end) == Read(MeterAt(history, end - 1), history[end - 1]);
    if first < end - 1 {
      assert !ResetsAt(history, end - 1);
      if from < end - 1 {
        HighWaterExact(history, first, from, end - 1);
      } else {
        HighWaterExact(history, first, first, end - 1);
      }
    } else {
      assert ResetsAt(history, first);
    }
    if from == end - 1 {
      assert DeltaSum(history, from, from) == 0.0;
    }
  }

  // ---- the points used, epoch by epoch ----

  /** The epoch of the snapshots before `n` opens here. */
  ghost function Opening(history: seq<Snapshot>, n: nat): (first: nat)
    requires 0 < n <= |history|
    ensures Epoch(history, first, n)
  {
    if ResetsAt(history, n - 1) then n - 1
    else
      assert n > 1;
      Opening(history, n - 1)
  }

  /** The first counted snapshot at or after `first`, and the first that is not counted from there on. */
  ghost function CountedFrom(history: seq<Snapshot>, first: nat, n: nat, since: int, until: int): (from: nat)
    requires first <= n <= |history|
    ensures first <= from <= n && forall k :: first <= k < from ==> !Counted(history, k, since, until)
    ensures from < n ==> Counted(history, from, since, until)
    decreases n - first
  {
    if first == n || Counted(history, first, since, until) then first
    else CountedFrom(history, first + 1, n, since, until)
  }

  ghost function CountedTo(history: seq<Snapshot>, from: nat, n: nat, since: int, until: int): (end: nat)
    requires from <= n <= |history|
    ensures from <= end <= n && forall k :: from <= k < end ==> Counted(history, k, since, until)
    ensures end < n ==> !Counted(history, end, since, until)
    decreases n - from
  {
    if from == n || !Counted(history, from, since, until) then from else CountedTo(history, from + 1, n, since, until)
  }

  /** How far the high-water mark of an epoch rose over its counted snapshots. */
  ghost function MarkRise(history: seq<Snapshot>, first: nat, n: nat, since: int, until: int): real
    requires first <= n <= |history|
  {
    var from := CountedFrom(history, first, n, since, until);
    var end := CountedTo(history, from, n, since, until);
    if from == end then 0.0
    else MeterAt(history, end).maximum - (if from == first then 0.0 else MeterAt(history, from).maximum)
  }

  ghost function MarkRises(history: seq<Snapshot>, n: nat, since: int, until: int): real
    requires n <= |history|
  {
    if n == 0 then 0.0
    else
      var first := Opening(history, n);
      MarkRises(history, first, since, until) + MarkRise(history, first, n, since, until)
  }

  lemma {:induction false} UsedNothing(history: seq<Snapshot>, a: nat, b: nat, since: int, until: int)
    requires a <= b <= |history| && forall k :: a <= k < b ==> !Counted(history, k, since, until)
    ensures Used(history, b, since, until) == Used(history, a, since, until)
    decreases b
  {
    if a < b {
      UsedNothing(history, a, b - 1, since, until);
    }
  }

  lemma {:induction false} UsedDeltas(history: seq<Snapshot>, a: nat, b: nat, since: int, until: int)
    requires a <= b <= |history| && forall k :: a <= k < b ==> Counted(history, k, since, until)
    ensures Used(history, b, since, until) == Used(history, a, since, until) + DeltaSum(history, a, b)
    decreases b
  {
    if a < b {
      UsedDeltas(history, a, b - 1, since, until);
    }
  }

  /** The counted snapshots of a sorted history are consecutive. */
  lemma CountedIsOneRun(history: seq<Snapshot>, first: nat, n: nat, since: int, until: int)
    requires Sorted(history) && first <= n <= |history|
    ensures var end := CountedTo(history, CountedFrom(history, first, n, since, until), n, since, until);
      forall k :: end <= k < n ==> !Counted(history, k, since, until)
  {
    var from := CountedFrom(history, first, n, since, until);
    var end := CountedTo(history, from, n, since, until);
    assert end < n ==> from < end && Counted(history, end - 1, since, until) && history[end - 1].at <= history[end].at;
    forall k | end <= k < n ensures !Counted(history, k, since, until) {
      assert history[end].at <= history[k].at;
    }
  }

  /** The points used are the rises of the high-water marks over the counted snapshots, epoch by epoch. */
  lemma {:induction false} UsedIsMarkRises(history: seq<Snapshot>, n: nat, since: int, until: int)
    requires Sorted(history) && n <= |history|
    ensures Used(history, n, since, until) == MarkRises(history, n, since, until)
  {
    if n > 0 {
      var first := Opening(history, n);
      UsedIsMarkRises(history, first, since, until);
      var from := CountedFrom(history, first, n, since, until);
      var end := CountedTo(history, from, n, since, until);
      CountedIsOneRun(history, first, n, since, until);
      UsedNothing(history, first, from, since, until);
      UsedDeltas(history, from, end, since, until);
      UsedNothing(history, end, n, since, until);
      if from < end {
        HighWaterExact(history, first, from, end);
      }
    }
  }

  /** No epoch counts more than 100 points when readings are percentages. */
  lemma EpochWithinHundred(history: seq<Snapshot>, first: nat, from: nat, end: nat)
    requires Epoch(history, first, end) && first <= from < end
    requires forall k :: first <= k < end ==> history[k].used <= 100.0
    ensures 0.0 <= DeltaSum(history, from, end) <= 100.0
  {
    HighWaterExact(history, first, from, end);
    if from > first {
      HighWaterExact(history, first, first, from);
      if k :| first <= k < from && history[k].used == MeterAt(history, from).maximum {
        assert history[k].used <= MeterAt(history, end).maximum;
      }
    }
  }

  // ---- receipts of an interval and of an hour ----

  ghost predicate InOrder(receipts: seq<Receipt>) {
    forall i, j :: 0 <= i <= j < |receipts| ==> receipts[i].at <= receipts[j].at
  }

  ghost predicate Weighted(receipts: seq<Receipt>) { forall i :: 0 <= i < |receipts| ==> receipts[i].weight >= 0.0 }

  /** Everything before `n` is at or before `at`, everything from `n` on is after it. */
  ghost predicate SplitsAt(receipts: seq<Receipt>, at: int, n: nat) {
    && n <= |receipts|
    && (forall i :: 0 <= i < n ==> receipts[i].at <= at)
    && (forall i :: n <= i < |receipts| ==> receipts[i].at > at)
  }

  /** `bisect_left` and the loop that steps over equal times. */
  method Past(receipts: seq<Receipt>, at: int) returns (n: nat)
    requires InOrder(receipts)
    ensures SplitsAt(receipts, at, n)
  {
    n := 0;
    var high := |receipts|;
    while n < high
      invariant n <= high <= |receipts|
      invariant forall i :: 0 <= i < n ==> receipts[i].at < at
      invariant forall i :: high <= i < |receipts| ==> receipts[i].at >= at
    {
      var middle := (n + high) / 2;
      if receipts[middle].at < at { n := middle + 1; } else { high := middle; }
    }
    while n < |receipts| && receipts[n].at <= at
      invariant n <= |receipts|
      invariant forall i :: 0 <= i < n ==> receipts[i].at <= at
      invariant forall i :: n <= i < |receipts| ==> receipts[i].at >= at
    {
      n := n + 1;
    }
  }

  lemma PastIsMonotone(receipts: seq<Receipt>, a: int, b: int, m: nat, n: nat)
    requires a <= b && SplitsAt(receipts, a, m) && SplitsAt(receipts, b, n)
    ensures m <= n
  {
    var next := if n < |receipts| then receipts[n].at else b;
  }

  type Indices = seq<nat>

  ghost predicate Increasing(chosen: Indices, n: nat) {
    && (forall i, j :: 0 <= i < j < |chosen| ==> chosen[i] < chosen[j])
    && forall i :: 0 <= i < |chosen| ==> chosen[i] < n
  }

  function WeightOf(receipts: seq<Receipt>, chosen: Indices): real
    requires forall i :: 0 <= i < |chosen| ==> chosen[i] < |receipts|
  {
    if chosen == [] then 0.0
    else WeightOf(receipts, chosen[..|chosen| - 1]) + receipts[chosen[|chosen| - 1]].weight
  }

  lemma {:induction false} WeightOfNonnegative(receipts: seq<Receipt>, chosen: Indices)
    requires Weighted(receipts) && forall i :: 0 <= i < |chosen| ==> chosen[i] < |receipts|
    ensures WeightOf(receipts, chosen) >= 0.0
  {
    if chosen != [] {
      WeightOfNonnegative(receipts, chosen[..|chosen| - 1]);
    }
  }

  /** The first `j` chosen receipts have their shares on top of what they had. */
  ghost predicate Given(after: seq<real>, shares: seq<real>, receipts: seq<Receipt>, chosen: Indices, j: nat,
      delta: real, total: real) {
    && |after| == |shares| == |receipts| && j <= |chosen| && total > 0.0
    && forall i :: 0 <= i < |receipts| ==>
         after[i] == (if i in chosen[..j] then shares[i] + Portion(delta, receipts[i].weight, total) else shares[i])
  }

  lemma GiveOne(after: seq<real>, shares: seq<real>, receipts: seq<Receipt>, chosen: Indices, j: nat, delta: real,
      total: real)
    requires Given(after, shares, receipts, chosen, j, delta, total)
    requires Increasing(chosen, |receipts|) && j < |chosen|
    ensures var index := chosen[j];
      index < |after| && Given(after[index := after[index] + Portion(delta, receipts[index].weight, total)],
                               shares, receipts, chosen, j + 1, delta, total)
    ensures WeightOf(receipts, chosen[..j + 1]) == WeightOf(receipts, chosen[..j]) + receipts[chosen[j]].weight
  {
    hide Portion;
    assert chosen[..j + 1][..j] == chosen[..j];
    assert chosen[..j + 1] == chosen[..j] + [chosen[j]];
    assert chosen[j] !in chosen[..j];
  }

  lemma GiveNone(shares: seq<real>, receipts: seq<Receipt>, chosen: Indices, delta: real, total: real)
    requires |shares| == |receipts| && total > 0.0
    ensures Given(shares, shares, receipts, chosen, 0, delta, total)
    ensures WeightOf(receipts, chosen[..0]) == 0.0
  {
  }

  lemma ChosenInRange(chosen: Indices, n: nat)
    requires Increasing(chosen, n)
    ensures forall i :: 0 <= i < |chosen| ==> chosen[i] < n
  {
  }

  /** Gives each chosen receipt its exact share of `delta`, the last one by subtraction. */
  method Split(shares: seq<real>, receipts: seq<Receipt>, chosen: Indices, delta: real) returns (after: seq<real>)
    requires |shares| == |receipts| && Increasing(chosen, |receipts|) && chosen != []
    requires WeightOf(receipts, chosen) > 0.0
    ensures Given(after, shares, receipts, chosen, |chosen|, delta, WeightOf(receipts, chosen))
    ensures RealSum(after) == RealSum(shares) + delta
  {
    hide *;
    ChosenInRange(chosen, |receipts|);
    var total := WeightOf(receipts, chosen);
    after := shares;
    var remainder := delta;
    var last := |chosen| - 1;
    GiveNone(shares, receipts, chosen, delta, total);
    RestShrinks(delta, 0.0, 0.0, total);
    for j := 0 to last
      invariant Given(after, shares, receipts, chosen, j, delta, total)
      invariant remainder == Rest(delta, WeightOf(receipts, chosen[..j]), total)
      invariant RealSum(after) + remainder == RealSum(shares) + delta
    {
      var index := chosen[j];
      GiveOne(after, shares, receipts, chosen, j, delta, total);
      RestShrinks(delta, WeightOf(receipts, chosen[..j]), receipts[index].weight, total);
      var part := Portion(delta, receipts[index].weight, total);
      RealSumUpdate(after, index, after[index] + part);
      after := after[index := after[index] + part];
      remainder := remainder - part;
    }
    var index := chosen[last];
    assert chosen[..last + 1] == chosen;
    GiveOne(after, shares, receipts, chosen, last, delta, total);
    RestShrinks(delta, WeightOf(receipts, chosen[..last]), receipts[index].weight, total);
    RealSumUpdate(after, index, after[index] + remainder);
    after := after[index := after[index] + remainder];
  }

  // ---- which receipts share a delta ----

  /** The receipts of an interval, or the successful in-window receipts of an hour. */
  datatype Span = Between(after: int, upTo: int) | HourOf(hour: int, since: int, until: int) {
    predicate Has(r: Receipt) {
      match this
      case Between(after, upTo) => after < r.at <= upTo
      case HourOf(hour, since, until) => since <= r.at < until && r.success && Hour(r.at) == hour
    }
  }

  ghost function WeightIn(receipts: seq<Receipt>, n: nat, span: Span): real
    requires n <= |receipts|
  {
    if n == 0 then 0.0
    else WeightIn(receipts, n - 1, span) + if span.Has(receipts[n - 1]) then receipts[n - 1].weight else 0.0
  }

  lemma {:induction false} WeightInNone(receipts: seq<Receipt>, from: nat, n: nat, span: Span)
    requires from <= n <= |receipts| && forall i :: from <= i < n ==> !span.Has(receipts[i])
    ensures WeightIn(receipts, n, span) == WeightIn(receipts, from, span)
    decreases n
  {
    if from < n {
      WeightInNone(receipts, from, n - 1, span);
    }
  }

  /** `chosen` lists the span's receipts among the first `n`, in order. */
  ghost predicate Found(chosen: Indices, receipts: seq<Receipt>, n: nat, span: Span) {
    && n <= |receipts| && Increasing(chosen, n)
    && (forall i :: i in chosen <==> 0 <= i < n && span.Has(receipts[i]))
    && WeightOf(receipts, chosen) == WeightIn(receipts, n, span)
  }

  lemma FoundNone(receipts: seq<Receipt>, left: nat, span: Span)
    requires left <= |receipts| && forall i :: 0 <= i < left ==> !span.Has(receipts[i])
    ensures Found([], receipts, left, span)
  {
    WeightInNone(receipts, 0, left, span);
  }

  lemma FoundMore(chosen: Indices, receipts: seq<Receipt>, n: nat, span: Span)
    requires Found(chosen, receipts, n, span) && n < |receipts| && span.Has(receipts[n])
    ensures Found(chosen + [n], receipts, n + 1, span)
  {
    hide Span.Has;
    var longer := chosen + [n];
    assert longer[..|longer| - 1] == chosen;
    assert WeightOf(receipts, longer) == WeightOf(receipts, chosen) + receipts[n].weight;
    hide WeightOf, WeightIn;
    assert forall i :: i in longer <==> i in chosen || i == n;
  }

  lemma FoundSame(chosen: Indices, receipts: seq<Receipt>, n: nat, span: Span)
    requires Found(chosen, receipts, n, span) && n < |receipts| && !span.Has(receipts[n])
    ensures Found(chosen, receipts, n + 1, span)
  {
    hide Span.Has;
  }

  lemma FoundAll(chosen: Indices, receipts: seq<Receipt>, n: nat, span: Span)
    requires Found(chosen, receipts, n, span) && forall i :: n <= i < |receipts| ==> !span.Has(receipts[i])
    ensures Found(chosen, receipts, |receipts|, span)
  {
    WeightInNone(receipts, n, |receipts|, span);
  }

  /** The indices of a span, looked for between `left` and `right` only. */
  method Gather(receipts: seq<Receipt>, left: nat, right: nat, span: Span) returns (chosen: Indices)
    requires left <= right <= |receipts|
    requires forall i :: 0 <= i < |receipts| && span.Has(receipts[i]) ==> left <= i < right
    ensures Found(chosen, receipts, |receipts|, span)
  {
    hide *;
    chosen := [];
    FoundNone(receipts, left, span);
    for i := left to right
      invariant Found(chosen, receipts, i, span)
    {
      if span.Has(receipts[i]) {
        FoundMore(chosen, receipts, i, span);
        chosen := chosen + [i];
      } else {
        FoundSame(chosen, receipts, i, span);
      }
    }
    FoundAll(chosen, receipts, right, span);
  }

  // ---- the interval path ----

  /** The receipts that may share counted delta `k`. */
  function IntervalOf(history: seq<Snapshot>, k: nat, since: int): Span
    requires 0 < k < |history|
  {
    Between(Max(history[k - 1].at, since), history[k].at)
  }

  ghost predicate Paid(receipts: seq<Receipt>, history: seq<Snapshot>, k: nat, since: int, until: int, i: nat)
    requires i < |receipts|
  {
    && Counted(history, k, since, until)
    && IntervalOf(history, k, since).Has(receipts[i])
    && WeightIn(receipts, |receipts|, IntervalOf(history, k, since)) > 0.0
  }

  /** The part of counted delta `k` that a receipt of its interval should get. */
  ghost function IntervalShare(receipts: seq<Receipt>, history: seq<Snapshot>, k: nat, since: int, until: int,
      i: nat): real
    requires i < |receipts| && Paid(receipts, history, k, since, until, i)
  {
    Portion(DeltaAt(history, k), receipts[i].weight, WeightIn(receipts, |receipts|, IntervalOf(history, k, since)))
  }

  /** After `n` snapshots a receipt holds its exact share of the one interval that paid it, or nothing. */
  ghost predicate HoldsShare(share: real, receipts: seq<Receipt>, history: seq<Snapshot>, n: nat, since: int,
      until: int, i: nat)
    requires i < |receipts|
  {
    && (forall k: nat :: k < n && Paid(receipts, history, k, since, until, i) ==>
          share == IntervalShare(receipts, history, k, since, until, i))
    && ((forall k: nat :: k < n ==> !Paid(receipts, history, k, since, until, i)) ==> share == 0.0)
  }

  ghost predicate ByInterval(shares: seq<real>, receipts: seq<Receipt>, history: seq<Snapshot>, n: nat, since: int,
      until: int) {
    && |shares| == |receipts| && n <= |history|
    && forall i :: 0 <= i < |receipts| ==> HoldsShare(shares[i], receipts, history, n, since, until, i)
  }

  ghost predicate Sorted(history: seq<Snapshot>) {
    forall j, k :: 0 <= j <= k < |history| ==> history[j].at <= history[k].at
  }

  /** No receipt lies in two intervals. */
  lemma IntervalsDisjoint(receipts: seq<Receipt>, history: seq<Snapshot>, since: int, until: int, j: nat, k: nat,
      i: nat)
    requires Sorted(history) && i < |receipts|
    requires Paid(receipts, history, j, since, until, i) && Paid(receipts, history, k, since, until, i)
    ensures j == k
  {
    var first, second := IntervalOf(history, j, since), IntervalOf(history, k, since);
  }

  lemma UncountedPaysNobody(shares: seq<real>, receipts: seq<Receipt>, history: seq<Snapshot>, k: nat, since: int,
      until: int)
    requires k < |history| && ByInterval(shares, receipts, history, k, since, until)
      && !Counted(history, k, since, until)
    ensures ByInterval(shares, receipts, history, k + 1, since, until)
  {
    forall i | 0 <= i < |receipts| ensures HoldsShare(shares[i], receipts, history, k + 1, since, until, i) {
      StillHolds(shares[i], receipts, history, k, since, until, i);
    }
  }

  lemma NobodyPaid(shares: seq<real>, receipts: seq<Receipt>, history: seq<Snapshot>, since: int, until: int)
    requires shares == seq(|receipts|, _ => 0.0)
    ensures ByInterval(shares, receipts, history, 0, since, until)
  {
  }

  lemma StillHolds(share: real, receipts: seq<Receipt>, history: seq<Snapshot>, k: nat, since: int, until: int, i: nat)
    requires i < |receipts| && !Paid(receipts, history, k, since, until, i)
    requires HoldsShare(share, receipts, history, k, since, until, i)
    ensures HoldsShare(share, receipts, history, k + 1, since, until, i)
  {
    hide Paid, IntervalShare;
    if forall j: nat :: j < k + 1 ==> !Paid(receipts, history, j, since, until, i) {
      assert forall j: nat :: j < k ==> !Paid(receipts, history, j, since, until, i);
    }
  }

  lemma NowHolds(share: real, receipts: seq<Receipt>, history: seq<Snapshot>, k: nat, since: int, until: int, i: nat)
    requires Sorted(history) && i < |receipts| && Paid(receipts, history, k, since, until, i)
    requires HoldsShare(share, receipts, history, k, since, until, i)
    ensures HoldsShare(share + IntervalShare(receipts, history, k, since, until, i), receipts, history, k
      + 1, since, until, i)
  {
    forall j: nat | j < k ensures !Paid(receipts, history, j, since, until, i) {
      if Paid(receipts, history, j, since, until, i) {
        IntervalsDisjoint(receipts, history, since, until, j, k, i);
      }
    }
    hide Paid, IntervalShare;
  }

  lemma PaidOnce(before: seq<real>, after: seq<real>, receipts: seq<Receipt>, history: seq<Snapshot>, k: nat,
      since: int, until: int)
    requires Sorted(history) && ByInterval(before, receipts, history, k, since, until)
    requires Counted(history, k, since, until) && |after| == |receipts|
    requires forall i :: 0 <= i < |receipts| ==>
      after[i] == if Paid(receipts, history, k, since, until, i) then before[i]
        + IntervalShare(receipts, history, k, since, until, i)
                  else before[i]
    ensures ByInterval(after, receipts, history, k + 1, since, until)
  {
    hide HoldsShare, IntervalShare, Paid, Sorted;
    forall i | 0 <= i < |receipts| ensures HoldsShare(after[i], receipts, history, k + 1, since, until, i) {
      if Paid(receipts, history, k, since, until, i) {
        NowHolds(before[i], receipts, history, k, since, until, i);
      } else {
        StillHolds(before[i], receipts, history, k, since, until, i);
      }
    }
  }

  /** Counted delta `k` goes to the receipts of its interval, or is listed when they weigh nothing. */
  method PayInterval(before: seq<real>, missing: seq<real>, receipts: seq<Receipt>, history: seq<Snapshot>, k: nat,
      since: int, until: int, delta: real) returns (shares: seq<real>, unattributed: seq<real>)
    requires InOrder(receipts) && Weighted(receipts) && Sorted(history)
    requires Counted(history, k, since, until) && delta == DeltaAt(history, k)
    requires ByInterval(before, receipts, history, k, since, until)
    ensures ByInterval(shares, receipts, history, k + 1, since, until)
    ensures RealSum(shares) + RealSum(unattributed) == RealSum(before) + RealSum(missing) + delta
    ensures unattributed == missing || (delta > 0.0 && unattributed == missing + [delta])
  {
    var span := IntervalOf(history, k, since);
    assert history[k - 1].at <= history[k].at;
    var left := Past(receipts, Max(history[k - 1].at, since));
    var right := Past(receipts, history[k].at);
    PastIsMonotone(receipts, Max(history[k - 1].at, since), history[k].at, left, right);
    var chosen := Gather(receipts, left, right, span);
    WeightOfNonnegative(receipts, chosen);
    shares, unattributed := before, missing;
    assert chosen[..|chosen|] == chosen;
    if WeightOf(receipts, chosen) != 0.0 {
      assert chosen != [];
      shares := Split(before, receipts, chosen, delta);
      PaidOnce(before, shares, receipts, history, k, since, until);
    } else {
      PaidOnce(before, before, receipts, history, k, since, until);
      if delta != 0.0 {
        RealSumConcat(missing, [delta]);
        unattributed := missing + [delta];
      }
    }
  }

  // ---- the hourly path ----

  datatype Bin = Bin(hour: int, delta: real)

  /** `quota_bins[hour] += delta` on a dictionary in insertion order. */
  function AddToBin(bins: seq<Bin>, hour: int, delta: real): seq<Bin> {
    if bins == [] then [Bin(hour, delta)]
    else if bins[0].hour == hour then [Bin(hour, bins[0].delta + delta)] + bins[1..]
    else [bins[0]] + AddToBin(bins[1..], hour, delta)
  }

  function BinTotal(bins: seq<Bin>): real {
    if bins == [] then 0.0 else bins[0].delta + BinTotal(bins[1..])
  }

  ghost predicate DistinctHours(bins: seq<Bin>) { forall i, j :: 0 <= i < j < |bins| ==> bins[i].hour != bins[j].hour }

  function BinDelta(bins: seq<Bin>, hour: int): real {
    if bins == [] then 0.0 else if bins[0].hour == hour then bins[0].delta else BinDelta(bins[1..], hour)
  }

  lemma {:induction false} AddToBinEffect(bins: seq<Bin>, hour: int, delta: real)
    requires DistinctHours(bins)
    ensures DistinctHours(AddToBin(bins, hour, delta))
    ensures BinTotal(AddToBin(bins, hour, delta)) == BinTotal(bins) + delta
    ensures forall h :: BinDelta(AddToBin(bins, hour, delta), h) == BinDelta(bins, h) + if h == hour then delta else 0.0
    ensures forall b :: b in AddToBin(bins, hour, delta) ==> b.hour == hour || b in bins
    ensures delta >= 0.0 && (forall b :: b in bins ==> b.delta >= 0.0) ==>
      forall b :: b in AddToBin(bins, hour, delta) ==> b.delta >= 0.0
  {
    if bins != [] && bins[0].hour != hour {
      AddToBinEffect(bins[1..], hour, delta);
    }
  }

  /** Counted points whose snapshot closes in the hour. */
  ghost function HourDelta(history: seq<Snapshot>, n: nat, since: int, until: int, hour: int): real
    requires n <= |history|
  {
    if n == 0 then 0.0
    else HourDelta(history, n - 1, since, until, hour)
         + if Counted(history, n - 1, since, until) && Hour(history[n - 1].at - 1) == hour then DeltaAt(history, n - 1)
           else 0.0
  }

  /** The exact share of its hour's binned points that a receipt should hold. */
  ghost function HourShare(receipts: seq<Receipt>, delta: real, since: int, until: int, i: nat): real
    requires i < |receipts|
  {
    var span := HourOf(Hour(receipts[i].at), since, until);
    var total := WeightIn(receipts, |receipts|, span);
    if span.Has(receipts[i]) && total > 0.0 then Portion(delta, receipts[i].weight, total) else 0.0
  }

  ghost predicate ByHour(shares: seq<real>, receipts: seq<Receipt>, history: seq<Snapshot>, since: int, until: int) {
    && |shares| == |receipts|
    && forall i :: 0 <= i < |receipts| ==>
         shares[i] ==
           HourShare(receipts, HourDelta(history, |history|, since, until, Hour(receipts[i].at)), since, until, i)
  }

  lemma HourShareOfNothing(receipts: seq<Receipt>, since: int, until: int, i: nat)
    requires i < |receipts|
    ensures HourShare(receipts, 0.0, since, until, i) == 0.0
  {
  }

  lemma {:induction false} BinDeltaAt(bins: seq<Bin>, hour: int)
    requires DistinctHours(bins)
    ensures forall j :: 0 <= j < |bins| && bins[j].hour == hour ==> BinDelta(bins, hour) == bins[j].delta
    ensures (forall j :: 0 <= j < |bins| ==> bins[j].hour != hour) ==> BinDelta(bins, hour) == 0.0
  {
    if bins != [] {
      BinDeltaAt(bins[1..], hour);
      forall j | 0 <= j < |bins| && bins[j].hour == hour ensures BinDelta(bins, hour) == bins[j].delta {
        if j > 0 {
          assert bins[1..][j - 1] == bins[j];
        }
      }
    }
  }

  ghost predicate HourSeen(bins: seq<Bin>, n: nat, hour: int)
    requires n <= |bins|
  {
    exists j :: 0 <= j < n && bins[j].hour == hour
  }

  /** The first `n` bins have been paid out. */
  ghost predicate PaidBins(shares: seq<real>, receipts: seq<Receipt>, bins: seq<Bin>, n: nat, since: int, until: int) {
    && |shares| == |receipts| && n <= |bins|
    && forall i :: 0 <= i < |receipts| ==>
         shares[i] == (if HourSeen(bins, n, Hour(receipts[i].at))
                       then HourShare(receipts, BinDelta(bins, Hour(receipts[i].at)), since, until, i) else 0.0)
  }

  lemma BinPaid(before: seq<real>, after: seq<real>, receipts: seq<Receipt>, bins: seq<Bin>, j: nat, since: int,
      until: int)
    requires DistinctHours(bins) && j < |bins| && PaidBins(before, receipts, bins, j, since, until)
    requires |after| == |receipts| && forall i :: 0 <= i < |receipts| ==>
      after[i] == before[i]
        + (if Hour(receipts[i].at) == bins[j].hour then HourShare(receipts, bins[j].delta, since, until, i) else 0.0)
    ensures PaidBins(after, receipts, bins, j + 1, since, until)
  {
    hide HourShare;
    forall i | 0 <= i < |receipts|
      ensures after[i] == (if HourSeen(bins, j + 1, Hour(receipts[i].at))
                           then HourShare(receipts, BinDelta(bins, Hour(receipts[i].at)), since, until, i) else 0.0)
    {
      BinDeltaAt(bins, Hour(receipts[i].at));
      if Hour(receipts[i].at) == bins[j].hour {
        assert !HourSeen(bins, j, bins[j].hour);
        assert HourSeen(bins, j + 1, bins[j].hour);
      } else {
        assert HourSeen(bins, j + 1, Hour(receipts[i].at)) <==> HourSeen(bins, j, Hour(receipts[i].at));
      }
    }
  }

  /** Every bin goes to the in-window successes of its hour, or is listed when they weigh nothing. */
  method PayHours(bins: seq<Bin>, receipts: seq<Receipt>, since: int, until: int)
    returns (shares: seq<real>, missing: seq<real>)
    requires DistinctHours(bins) && Weighted(receipts)
    ensures PaidBins(shares, receipts, bins, |bins|, since, until)
    ensures RealSum(shares) + RealSum(missing) == BinTotal(bins)
    ensures (forall b :: b in bins ==> b.delta >= 0.0) ==> forall m :: m in missing ==> m > 0.0
  {
    hide HourShare;
    shares, missing := seq(|receipts|, _ => 0.0), [];
    RealSumZero(|receipts|);
    for j := 0 to |bins|
      invariant PaidBins(shares, receipts, bins, j, since, until)
      invariant RealSum(shares) + RealSum(missing) + BinTotal(bins[j..]) == BinTotal(bins)
      invariant (forall b :: b in bins ==> b.delta >= 0.0) ==> forall m :: m in missing ==> m > 0.0
    {
      assert bins[j..][1..] == bins[j + 1..];
      shares, missing := PayHour(shares, missing, bins, j, receipts, since, until);
    }
  }

  method PayHour(before: seq<real>, listed: seq<real>, bins: seq<Bin>, j: nat, receipts: seq<Receipt>, since: int,
      until: int)
    returns (shares: seq<real>, missing: seq<real>)
    requires DistinctHours(bins) && Weighted(receipts) && j < |bins|
    requires PaidBins(before, receipts, bins, j, since, until)
    ensures PaidBins(shares, receipts, bins, j + 1, since, until)
    ensures RealSum(shares) + RealSum(missing) == RealSum(before) + RealSum(listed) + bins[j].delta
    ensures missing == listed || (bins[j].delta != 0.0 && missing == listed + [bins[j].delta])
  {
    var span := HourOf(bins[j].hour, since, until);
    var chosen := Gather(receipts, 0, |receipts|, span);
    WeightOfNonnegative(receipts, chosen);
    shares, missing := before, listed;
    assert chosen[..|chosen|] == chosen;
    if WeightOf(receipts, chosen) != 0.0 {
      assert chosen != [];
      shares := Split(before, receipts, chosen, bins[j].delta);
    } else if bins[j].delta != 0.0 {
      RealSumConcat(listed, [bins[j].delta]);
      missing := listed + [bins[j].delta];
    }
    BinPaid(before, shares, receipts, bins, j, since, until);
  }

  // ---- the whole group ----

  method AllocateGroup(provider: Provider, receipts: seq<Receipt>, history: seq<Snapshot>, since: int, until: int)
    returns (shares: seq<real>, missing: seq<real>, used: real)
    requires InOrder(receipts) && Weighted(receipts) && Sorted(history)
    ensures used == Used(history, |history|, since, until)
    ensures RealSum(shares) + RealSum(missing) == used
    ensures provider == Anthropic ==> ByInterval(shares, receipts, history, |history|, since, until)
    ensures provider == OpenAI ==> ByHour(shares, receipts, history, since, until)
    ensures forall m :: m in missing ==> m > 0.0
  {
    hide HourShare, Portion, Delta, Read, ByInterval, ByHour, Sorted, InOrder, Weighted;
    var meter := UNREAD;
    var bins: seq<Bin> := [];
    shares, missing, used := seq(|receipts|, _ => 0.0), [], 0.0;
    NobodyPaid(shares, receipts, history, since, until);
    RealSumZero(|receipts|);
    for k := 0 to |history|
      invariant meter == MeterAt(history, k)
      invariant used == Used(history, k, since, until)
      invariant forall m :: m in missing ==> m > 0.0
      invariant provider == Anthropic ==> ByInterval(shares, receipts, history, k, since, until)
      invariant provider == Anthropic ==> RealSum(shares) + RealSum(missing) == used
      invariant DistinctHours(bins) && BinTotal(bins) == used && forall b :: b in bins ==> b.delta >= 0.0
      invariant forall h :: BinDelta(bins, h) == HourDelta(history, k, since, until, h)
    {
      var snapshot := history[k];
      var delta := Delta(meter, snapshot);
      DeltaNonnegative(meter, snapshot);
      meter := Read(meter, snapshot);
      if 0 < k && since < snapshot.at <= until {
        used := used + delta;
        AddToBinEffect(bins, Hour(snapshot.at - 1), delta);
        bins := AddToBin(bins, Hour(snapshot.at - 1), delta);
        if provider == Anthropic {
          shares, missing := PayInterval(shares, missing, receipts, history, k, since, until, delta);
        }
      } else if provider == Anthropic {
        UncountedPaysNobody(shares, receipts, history, k, since, until);
      }
    }
    if provider == OpenAI {
      shares, missing := PayHours(bins, receipts, since, until);
      AllBinsPaid(shares, receipts, bins, history, since, until);
    }
  }

  lemma DeltaNonnegative(m: Meter, s: Snapshot)
    ensures Delta(m, s) >= 0.0
  {
  }

  lemma AllBinsPaid(shares: seq<real>, receipts: seq<Receipt>, bins: seq<Bin>, history: seq<Snapshot>, since: int,
      until: int)
    requires DistinctHours(bins) && PaidBins(shares, receipts, bins, |bins|, since, until)
    requires forall h :: BinDelta(bins, h) == HourDelta(history, |history|, since, until, h)
    ensures ByHour(shares, receipts, history, since, until)
  {
    forall i | 0 <= i < |receipts|
      ensures shares[i] ==
        HourShare(receipts, HourDelta(history, |history|, since, until, Hour(receipts[i].at)), since, until, i)
    {
      BinDeltaAt(bins, Hour(receipts[i].at));
      HourShareOfNothing(receipts, since, until, i);
    }
  }

  /** No receipt is ever charged a negative number of points, on either path. */
  lemma SharesNonnegative(shares: seq<real>, receipts: seq<Receipt>, history: seq<Snapshot>, since: int, until: int)
    requires Weighted(receipts)
    requires ByInterval(shares, receipts, history, |history|, since, until)
      || ByHour(shares, receipts, history, since, until)
    ensures forall i :: 0 <= i < |shares| ==> shares[i] >= 0.0
  {
    forall i | 0 <= i < |shares| ensures shares[i] >= 0.0 {
      if ByHour(shares, receipts, history, since, until) {
        var hour := Hour(receipts[i].at);
        HourDeltaNonnegative(history, |history|, since, until, hour);
        var total := WeightIn(receipts, |receipts|, HourOf(hour, since, until));
        if total > 0.0 {
          PortionNonnegative(HourDelta(history, |history|, since, until, hour), receipts[i].weight, total);
        }
      } else if k :| 0 <= k < |history| && Paid(receipts, history, k, since, until, i) {
        DeltaNonnegative(MeterAt(history, k), history[k]);
        PortionNonnegative(DeltaAt(history, k), receipts[i].weight,
                           WeightIn(receipts, |receipts|, IntervalOf(history, k, since)));
      }
    }
  }

  lemma {:induction false} HourDeltaNonnegative(history: seq<Snapshot>, n: nat, since: int, until: int, hour: int)
    requires n <= |history|
    ensures HourDelta(history, n, since, until, hour) >= 0.0
  {
    if n > 0 {
      HourDeltaNonnegative(history, n - 1, since, until, hour);
      DeltaNonnegative(MeterAt(history, n - 1), history[n - 1]);
    }
  }
}
