/** Who used the Claude quota: readings cut an account's requests into intervals (clients/lb_cache_quota.py:89-192). */
module IntervalAttribution {
  import opened Options
  import opened Proportion

  datatype Window = Five | Seven

  /** A full window, in seconds. */
  function Length(w: Window): int { if w.Five? then 18000 else 604800 }

  datatype Reading = Reading(value: Option<real>, reset: Option<int>)

  datatype Receipt = Receipt(account: string, ts: int, user: string, machine: string, seat: string, room: string,
      clientSession: string, session: string, tokens: Option<nat>, five: Reading, seven: Reading)
  {
    function At(w: Window): Reading { if w.Five? then five else seven }

    /** A session stands for the caller only when no seat or room does. */
    function CalledBy(): Caller {
      Caller(user, machine, seat, room, if seat != "" || room != "" then ""
        else if clientSession != "" then clientSession else session)
    }
  }

  datatype Caller = Caller(user: string, machine: string, seat: string, room: string, session: string)

  datatype Share = Share(account: string, caller: Caller, five: real, seven: real) {
    function At(w: Window): real { if w.Five? then five else seven }
  }

  datatype Coverage = Coverage(readings: nat, intervals: nat, skipped: nat, byTokens: nat, byRequests: nat,
      unmeasured: nat)

  // ---- cutting at readings ----

  /** The runs of rows that end at a reading, and the rows after the last reading. */
  function Cut(rows: seq<Receipt>, w: Window): (c: (seq<seq<Receipt>>, seq<Receipt>))
    ensures forall i :: 0 <= i < |c.0| ==> c.0[i] != [] && Last(c.0[i]).At(w).value.Some?
    ensures forall i :: 0 <= i < |c.1| ==> c.1[i].At(w).value.None?
  {
    if rows == [] then ([], [])
    else
      var (runs, pending), last := Cut(rows[..|rows| - 1], w), rows[|rows| - 1];
      if last.At(w).value.Some? then (runs + [pending + [last]], []) else (runs, pending + [last])
  }

  function Last(run: seq<Receipt>): Receipt
    requires run != []
  {
    run[|run| - 1]
  }

  function Flat(runs: seq<seq<Receipt>>): seq<Receipt> {
    if runs == [] then [] else Flat(runs[..|runs| - 1]) + runs[|runs| - 1]
  }

  /** Every row is in exactly one run, in order. */
  lemma {:induction false} CutCovers(rows: seq<Receipt>, w: Window)
    ensures Flat(Cut(rows, w).0) + Cut(rows, w).1 == rows
  {
    if rows != [] {
      var init, last := rows[..|rows| - 1], rows[|rows| - 1];
      CutCovers(init, w);
      var (runs, pending) := Cut(init, w);
      assert rows == init + [last];
      if last.At(w).value.Some? {
        assert (runs + [pending + [last]])[..|runs|] == runs;
        assert Flat(runs + [pending + [last]]) == Flat(runs) + (pending + [last]);
      }
    }
  }

  datatype Fate = Early | Unfounded | Broken | Measured

  /** What becomes of a run, given the reading before it. */
  function FateOf(prior: Option<Receipt>, row: Receipt, w: Window, start: int): Fate
    requires row.At(w).value.Some? && (prior.Some? ==> prior.value.At(w).value.Some?)
  {
    if row.ts < start then Early
    else if prior.None? then Unfounded
    else
      var before, now := prior.value.At(w), row.At(w);
      if now.value.value < before.value.value
         || (before.reset.Some? && now.reset.Some? && before.reset != now.reset)
         || row.ts - prior.value.ts >= Length(w)
      then Broken else Measured
  }

  /** A run is measured when the reading before it exists, is not higher, names no other reset and is younger than the
      window, and the run ends in the report's time. */
  lemma FateWhen(prior: Option<Receipt>, row: Receipt, w: Window, start: int)
    requires row.At(w).value.Some? && (prior.Some? ==> prior.value.At(w).value.Some?)
    ensures FateOf(prior, row, w, start) == Early <==> row.ts < start
    ensures FateOf(prior, row, w, start) == Unfounded <==> row.ts >= start && prior == None
    ensures FateOf(prior, row, w, start) == Measured <==>
      && row.ts >= start && prior != None && prior.value.At(w).value.value <= row.At(w).value.value
      && (prior.value.At(w).reset == None || row.At(w).reset == None || prior.value.At(w).reset == row.At(w).reset)
      && row.ts - prior.value.ts < (match w case Five => 5 * 3600 case Seven => 7 * 24 * 3600)
  {
  }

  /** Which reading a window looks at, and who the caller of a request is: a session counts only without seat and room,
      and the client's own before ours. */
  lemma CallerIs(r: Receipt)
    ensures r.At(Five) == r.five && r.At(Seven) == r.seven
    ensures var c := r.CalledBy();
      && c.user == r.user && c.machine == r.machine && c.seat == r.seat && c.room == r.room
      && (r.seat != "" || r.room != "" ==> c.session == "")
      && (r.seat == "" && r.room == "" && r.clientSession != "" ==> c.session == r.clientSession)
      && (r.seat == "" && r.room == "" && r.clientSession == "" ==> c.session == r.session)
  {
  }

  ghost predicate Runs(runs: seq<seq<Receipt>>, w: Window) {
    forall i :: 0 <= i < |runs| ==> runs[i] != [] && Last(runs[i]).At(w).value.Some?
  }

  function Prior(runs: seq<seq<Receipt>>, i: nat): Option<Receipt>
    requires i <= |runs| && forall j :: 0 <= j < |runs| ==> runs[j] != []
  {
    if i == 0 then None else Some(Last(runs[i - 1]))
  }

  function FateAt(runs: seq<seq<Receipt>>, i: nat, w: Window, start: int): Fate
    requires i < |runs| && forall j :: 0 <= j < |runs| ==> runs[j] != [] && Last(runs[j]).At(w).value.Some?
  {
    FateOf(Prior(runs, i), Last(runs[i]), w, start)
  }

  // ---- weights ----

  predicate Known(run: seq<Receipt>) { forall i :: 0 <= i < |run| ==> run[i].tokens.Some? }

  function Tokens(run: seq<Receipt>): nat {
    if run == [] then 0 else Tokens(run[..|run| - 1]) + (if Last(run).tokens.Some? then Last(run).tokens.value else 0)
  }

  /** Tokens weigh the rows when all are known and some were used; otherwise each request weighs the same. */
  predicate Weighed(run: seq<Receipt>) { Known(run) && Tokens(run) > 0 }

  function Weight(r: Receipt, weighed: bool): real { if weighed && r.tokens.Some? then r.tokens.value as real else 1.0 }

  /** Tokens are the weights exactly when every row has a count and some count is not zero. */
  lemma {:induction false} WeighedWhen(run: seq<Receipt>)
    ensures Weighed(run) <==>
      && (forall i :: 0 <= i < |run| ==> run[i].tokens != None)
      && (exists i :: 0 <= i < |run| && run[i].tokens != None && run[i].tokens.value > 0)
  {
    TokensPositive(run);
  }

  lemma {:induction false} TokensPositive(run: seq<Receipt>)
    ensures Tokens(run) > 0 <==> exists i :: 0 <= i < |run| && run[i].tokens != None && run[i].tokens.value > 0
  {
    if run != [] {
      var rest := run[..|run| - 1];
      TokensPositive(rest);
      assert forall i :: 0 <= i < |rest| ==> rest[i] == run[i];
    }
  }

  /** A row weighs its tokens, or one. */
  lemma WeightIs(r: Receipt)
    ensures r.tokens != None ==> Weight(r, true) == r.tokens.value as real
    ensures Weight(r, false) == 1.0
  {
  }

  function Total(run: seq<Receipt>, weighed: bool): real {
    if run == [] then 0.0 else Total(run[..|run| - 1], weighed) + Weight(Last(run), weighed)
  }

  lemma {:induction false} TotalPositive(run: seq<Receipt>)
    requires run != []
    ensures Total(run, Weighed(run)) > 0.0
  {
    if Weighed(run) {
      TotalTokens(run);
    } else {
      TotalRequests(run);
    }
  }

  lemma {:induction false} TotalTokens(run: seq<Receipt>)
    requires Known(run)
    ensures Total(run, true) == Tokens(run) as real
  {
    if run != [] {
      TotalTokens(run[..|run| - 1]);
    }
  }

  lemma {:induction false} TotalRequests(run: seq<Receipt>)
    ensures Total(run, false) == |run| as real
  {
    if run != [] {
      TotalRequests(run[..|run| - 1]);
    }
  }

  // ---- what each caller is owed ----

  datatype Who = One(account: string, caller: Caller) | Everywhere(caller: Caller) | Everyone {
    predicate Covers(account: string, caller: Caller) {
      match this
      case One(a, c) => a == account && c == caller
      case Everywhere(c) => c == caller
      case Everyone => true
    }
  }

  /** In-window weight of a caller's rows in a run. */
  function Held(run: seq<Receipt>, weighed: bool, start: int, account: string, who: Who): real {
    if run == [] then 0.0
    else
      var r := Last(run);
      Held(run[..|run| - 1], weighed, start, account, who)
      + (if r.ts >= start && who.Covers(account, r.CalledBy()) then Weight(r, weighed) else 0.0)
  }

  /** Percentage points by which the reading rose over a run. */
  function Rise(prior: Receipt, row: Receipt, w: Window): real
    requires prior.At(w).value.Some? && row.At(w).value.Some?
  {
    (row.At(w).value.value - prior.At(w).value.value) * 100.0
  }

  // ---- counting ----

  function InWindow(rows: seq<Receipt>, start: int): nat {
    if rows == [] then 0 else InWindow(rows[..|rows| - 1], start) + (if Last(rows).ts >= start then 1 else 0)
  }

  lemma {:induction false} InWindowConcat(a: seq<Receipt>, b: seq<Receipt>, start: int)
    ensures InWindow(a + b, start) == InWindow(a, start) + InWindow(b, start)
  {
    if b == [] {
      assert a + b == a;
    } else {
      assert (a + b)[..|a + b| - 1] == a + b[..|b| - 1];
      InWindowConcat(a, b[..|b| - 1], start);
    }
  }

  /** Rows at or after the start in runs with this fate. */
  ghost function RowsWith(runs: seq<seq<Receipt>>, n: nat, w: Window, start: int, fate: Fate): nat
    requires n <= |runs| && Runs(runs, w)
  {
    if n == 0 then 0
    else RowsWith(runs, n - 1, w, start, fate)
         + (if FateAt(runs, n - 1, w, start) == fate then InWindow(runs[n - 1], start) else 0)
  }

  ghost function RunsWith(runs: seq<seq<Receipt>>, n: nat, w: Window, start: int, fate: Fate): nat
    requires n <= |runs| && Runs(runs, w)
  {
    if n == 0 then 0
    else RunsWith(runs, n - 1, w, start, fate) + (if FateAt(runs, n - 1, w, start) == fate then 1 else 0)
  }

  ghost function WeighedRuns(runs: seq<seq<Receipt>>, n: nat, w: Window, start: int, weighed: bool): nat
    requires n <= |runs| && Runs(runs, w)
  {
    if n == 0 then 0
    else WeighedRuns(runs, n - 1, w, start, weighed)
         + (if FateAt(runs, n - 1, w, start) == Measured && Weighed(runs[n - 1]) == weighed then 1 else 0)
  }

  /** The coverage that an account's rows add for one window. */
  ghost predicate Covered(before: Coverage, after: Coverage, runs: seq<seq<Receipt>>, n: nat, w: Window, start: int,
      tail: nat)
    requires n <= |runs| && Runs(runs, w)
  {
    && after.readings ==
         before.readings + RunsWith(runs, n, w, start, Unfounded) + RunsWith(runs, n, w, start, Broken)
         + RunsWith(runs, n, w, start, Measured)
    && after.intervals == before.intervals + RunsWith(runs, n, w, start, Measured)
    && after.skipped == before.skipped + RunsWith(runs, n, w, start, Broken)
    && after.byTokens == before.byTokens + WeighedRuns(runs, n, w, start, true)
    && after.byRequests == before.byRequests + WeighedRuns(runs, n, w, start, false)
    && after.unmeasured ==
         before.unmeasured + RowsWith(runs, n, w, start, Unfounded) + RowsWith(runs, n, w, start, Broken) + tail
  }

  ghost predicate ByTime(rows: seq<Receipt>) { forall i, j :: 0 <= i < j < |rows| ==> rows[i].ts <= rows[j].ts }

  lemma {:induction false} NoneEarly(rows: seq<Receipt>, start: int)
    requires forall i :: 0 <= i < |rows| ==> rows[i].ts < start
    ensures InWindow(rows, start) == 0
  {
    if rows != [] {
      NoneEarly(rows[..|rows| - 1], start);
    }
  }

  /** Rows at or after the start in the first `n` runs, whatever became of them. */
  ghost function RowsSeen(runs: seq<seq<Receipt>>, n: nat, w: Window, start: int): nat
    requires n <= |runs| && Runs(runs, w)
  {
    RowsWith(runs, n, w, start, Measured) + RowsWith(runs, n, w, start, Unfounded) + RowsWith(runs, n, w, start, Broken)
  }

  lemma RowsNone(runs: seq<seq<Receipt>>, w: Window, start: int)
    requires Runs(runs, w)
    ensures InWindow(Flat(runs[..0]), start) == RowsSeen(runs, 0, w, start) == 0
  {
  }

  lemma AllNonempty(runs: seq<seq<Receipt>>, w: Window)
    requires Runs(runs, w)
    ensures forall i :: 0 <= i < |runs| ==> runs[i] != [] && Last(runs[i]).At(w).value.Some?
  {
  }

  lemma RowsStep(runs: seq<seq<Receipt>>, n: nat, w: Window, start: int)
    requires n < |runs| && Runs(runs, w)
    ensures RowsSeen(runs, n + 1, w, start)
         == RowsSeen(runs, n, w, start) + (if FateAt(runs, n, w, start) == Early then 0 else InWindow(runs[n], start))
  {
    hide FateAt, InWindow;
  }

  lemma EarlyRun(runs: seq<seq<Receipt>>, n: nat, w: Window, start: int)
    requires n < |runs| && Runs(runs, w) && ByTime(runs[n]) && FateAt(runs, n, w, start) == Early
    ensures InWindow(runs[n], start) == 0
  {
    NoneEarly(runs[n], start);
  }

  lemma FlatStep(runs: seq<seq<Receipt>>, n: nat)
    requires n < |runs|
    ensures Flat(runs[..n + 1]) == Flat(runs[..n]) + runs[n]
  {
    assert runs[..n + 1][..n] == runs[..n];
  }

  /** Each in-window row of the first `n` runs is in a run that is measured or not. */
  lemma {:induction false} RowsCounted(runs: seq<seq<Receipt>>, n: nat, w: Window, start: int)
    requires n <= |runs| && Runs(runs, w) && forall i :: 0 <= i < |runs| ==> ByTime(runs[i])
    ensures InWindow(Flat(runs[..n]), start) == RowsSeen(runs, n, w, start)
  {
    hide *;
    if n == 0 {
      RowsNone(runs, w, start);
    } else {
      AllNonempty(runs, w);
      RowsCounted(runs, n - 1, w, start);
      FlatStep(runs, n - 1);
      InWindowConcat(Flat(runs[..n - 1]), runs[n - 1], start);
      RowsStep(runs, n - 1, w, start);
      if FateAt(runs, n - 1, w, start) == Early {
        EarlyRun(runs, n - 1, w, start);
      }
    }
  }

  lemma {:induction false} IntervalsSplit(runs: seq<seq<Receipt>>, n: nat, w: Window, start: int)
    requires n <= |runs| && Runs(runs, w)
    ensures RunsWith(runs, n, w, start, Measured) ==
      WeighedRuns(runs, n, w, start, true) + WeighedRuns(runs, n, w, start, false)
  {
    if n > 0 {
      IntervalsSplit(runs, n - 1, w, start);
    }
  }

  lemma {:induction false} PartOfTime(runs: seq<seq<Receipt>>, k: nat)
    requires k < |runs| && ByTime(Flat(runs))
    ensures ByTime(runs[k])
    decreases |runs|
  {
    var n := |runs| - 1;
    var head := Flat(runs[..n]);
    assert Flat(runs) == head + runs[n];
    if k == n {
      forall i, j | 0 <= i < j < |runs[n]| ensures runs[n][i].ts <= runs[n][j].ts {
        assert Flat(runs)[|head| + i] == runs[n][i] && Flat(runs)[|head| + j] == runs[n][j];
      }
    } else {
      forall i, j | 0 <= i < j < |head| ensures head[i].ts <= head[j].ts {
        assert Flat(runs)[i] == head[i] && Flat(runs)[j] == head[j];
      }
      PartOfTime(runs[..n], k);
    }
  }

  /** Interval attribution is complete: what a window's coverage gains accounts for every in-window request once,
      and every interval is weighed by tokens or by requests. */
  lemma CoverageComplete(before: Coverage, after: Coverage, rows: seq<Receipt>, w: Window, start: int)
    requires ByTime(rows)
    requires Covered(before, after, Cut(rows, w).0, |Cut(rows, w).0|, w, start, InWindow(Cut(rows, w).1, start))
    ensures RowsWith(Cut(rows, w).0, |Cut(rows, w).0|, w, start, Measured) + (after.unmeasured - before.unmeasured) ==
      InWindow(rows, start)
    ensures after.intervals - before.intervals ==
      (after.byTokens - before.byTokens) + (after.byRequests - before.byRequests)
  {
    var (runs, tail) := Cut(rows, w);
    CutCovers(rows, w);
    assert Flat(runs) == rows[..|Flat(runs)|];
    forall k | 0 <= k < |runs| ensures ByTime(runs[k]) {
      PartOfTime(runs, k);
    }
    assert runs[..|runs|] == runs;
    RowsCounted(runs, |runs|, w, start);
    InWindowConcat(Flat(runs), tail, start);
    IntervalsSplit(runs, |runs|, w, start);
  }

  /** All callers together are owed each measured rise times the in-window part of its weight. */
  lemma WholeRun(run: seq<Receipt>, weighed: bool, start: int, account: string)
    requires forall i :: 0 <= i < |run| ==> run[i].ts >= start
    ensures Held(run, weighed, start, account, Everyone) == Total(run, weighed)
  {
    if run != [] {
      WholeRun(run[..|run| - 1], weighed, start, account);
    }
  }

  // ---- the dictionary of shares ----

  function Sum(shares: seq<Share>, who: Who, w: Window): real {
    if shares == [] then 0.0
    else (if who.Covers(shares[0].account, shares[0].caller) then shares[0].At(w) else 0.0) + Sum(shares[1..], who, w)
  }

  function Plus(s: Share, w: Window, x: real): Share {
    if w.Five? then s.(five := s.five + x) else s.(seven := s.seven + x)
  }

  /** `setdefault` with zeros, then `+=`. */
  function Add(shares: seq<Share>, account: string, caller: Caller, w: Window, x: real): seq<Share> {
    if shares == [] then [Plus(Share(account, caller, 0.0, 0.0), w, x)]
    else if shares[0].account == account && shares[0].caller == caller then [Plus(shares[0], w, x)] + shares[1..]
    else [shares[0]] + Add(shares[1..], account, caller, w, x)
  }

  lemma {:induction false} AddAdds(shares: seq<Share>, account: string, caller: Caller, w: Window, x: real, who: Who,
      field: Window)
    ensures Sum(Add(shares, account, caller, w, x), who, field)
         == Sum(shares, who, field) + (if field == w && who.Covers(account, caller) then x else 0.0)
  {
    var after := Add(shares, account, caller, w, x);
    if shares == [] {
      assert after[1..] == [];
    } else if shares[0].account == account && shares[0].caller == caller {
      assert after[1..] == shares[1..];
    } else {
      AddAdds(shares[1..], account, caller, w, x, who, field);
      assert after[1..] == Add(shares[1..], account, caller, w, x);
    }
  }

  ghost predicate Distinct(shares: seq<Share>) {
    forall i, j :: 0 <= i < j < |shares| ==>
        shares[i].account != shares[j].account || shares[i].caller != shares[j].caller
  }

  lemma {:induction false} AddDistinct(shares: seq<Share>, account: string, caller: Caller, w: Window, x: real)
    requires Distinct(shares)
    ensures Distinct(Add(shares, account, caller, w, x))
    ensures forall s :: s in Add(shares, account, caller, w, x) ==>
      (s.account == account && s.caller == caller) || s in shares
  {
    if shares != [] && !(shares[0].account == account && shares[0].caller == caller) {
      AddDistinct(shares[1..], account, caller, w, x);
    }
  }

  // ---- the loops ----

  lemma PortionAdds(amount: real, a: real, b: real, total: real)
    requires total > 0.0
    ensures Portion(amount, a, total) + Portion(amount, b, total) == Portion(amount, a + b, total)
    ensures Portion(amount, 0.0, total) == 0.0
  {
    assert (a + b) / total == a / total + b / total;
    assert amount * (a / total + b / total) == amount * (a / total) + amount * (b / total);
  }

  /** The sums of these callers grew by `x`, in this window's field only. */
  ghost predicate Grew(before: seq<Share>, after: seq<Share>, w: Window, who: Who, field: Window, x: real) {
    Sum(after, who, field) == Sum(before, who, field) + (if field == w then x else 0.0)
  }

  /** A run's rise times the callers' part of its weight. */
  ghost function RunShare(run: seq<Receipt>, rise: real, whole: seq<Receipt>, start: int, account: string,
      who: Who): real
    requires whole != []
  {
    TotalPositive(whole);
    Portion(rise, Held(run, Weighed(whole), start, account, who), Total(whole, Weighed(whole)))
  }

  /** Pays out one measured run. */
  method PayRun(shares: seq<Share>, account: string, run: seq<Receipt>, w: Window, start: int, rise: real)
    returns (paid: seq<Share>)
    requires run != [] && Distinct(shares)
    ensures Distinct(paid)
    ensures forall who: Who, field: Window ::
      Grew(shares, paid, w, who, field, RunShare(run, rise, run, start, account, who))
  {
    hide Portion, Sum, Weighed, Weight, Grew, RunShare;
    TotalPositive(run);
    var weighed := Weighed(run);
    var total := Total(run, weighed);
    paid := shares;
    ghost var done := run[..0];
    forall who: Who, field: Window
        ensures Grew(shares, paid, w, who, field, RunShare(done, rise, run, start, account, who)) {
      GrewNone(shares, run, w, start, account, rise, who, field);
    }
    for i := 0 to |run|
      invariant Distinct(paid) && done == run[..i]
      invariant forall who: Who, field: Window ::
        Grew(shares, paid, w, who, field, RunShare(done, rise, run, start, account, who))
    {
      ghost var before := paid;
      if run[i].ts >= start {
        AddDistinct(paid, account, run[i].CalledBy(), w, Portion(rise, Weight(run[i], weighed), total));
        paid := Add(paid, account, run[i].CalledBy(), w, Portion(rise, Weight(run[i], weighed), total));
      }
      ghost var more := run[..i + 1];
      forall who: Who, field: Window
          ensures Grew(shares, paid, w, who, field, RunShare(more, rise, run, start, account, who)) {
        PayStep(shares, before, paid, account, run, i, w, start, rise, who, field);
      }
      done := more;
    }
    assert run[..|run|] == run;
  }

  lemma GrewNone(shares: seq<Share>, run: seq<Receipt>, w: Window, start: int, account: string, rise: real, who: Who,
      field: Window)
    requires run != []
    ensures Grew(shares, shares, w, who, field, RunShare(run[..0], rise, run, start, account, who))
  {
    TotalPositive(run);
    PortionAdds(rise, 0.0, 0.0, Total(run, Weighed(run)));
  }

  lemma PayStep(shares: seq<Share>, before: seq<Share>, paid: seq<Share>, account: string, run: seq<Receipt>, i: nat,
      w: Window, start: int, rise: real, who: Who, field: Window)
    requires i < |run| && Total(run, Weighed(run)) > 0.0
    requires Grew(shares, before, w, who, field, RunShare(run[..i], rise, run, start, account, who))
    requires paid ==
      if run[i].ts < start then before
      else Add(before, account, run[i].CalledBy(), w,
               Portion(rise, Weight(run[i], Weighed(run)), Total(run, Weighed(run))))
    ensures Grew(shares, paid, w, who, field, RunShare(run[..i + 1], rise, run, start, account, who))
  {
    hide Portion, Sum, Add, Weight, Weighed, Total;
    var weighed := Weighed(run);
    var total := Total(run, weighed);
    assert run[..i + 1][..i] == run[..i];
    assert Last(run[..i + 1]) == run[i];
    AddAdds(before, account, run[i].CalledBy(), w, Portion(rise, Weight(run[i], weighed), total), who, field);
    PortionAdds(rise, Held(run[..i], weighed, start, account, who), Weight(run[i], weighed), total);
  }

  /** What one run is paid, given the reading before it. */
  ghost function RunPaid(prior: Option<Receipt>, run: seq<Receipt>, w: Window, start: int, account: string,
      who: Who): real
    requires run != [] && Last(run).At(w).value.Some? && (prior.Some? ==> prior.value.At(w).value.Some?)
  {
    if FateOf(prior, Last(run), w, start) != Measured then 0.0
    else RunShare(run, Rise(prior.value, Last(run), w), run, start, account, who)
  }

  ghost function Due(runs: seq<seq<Receipt>>, n: nat, w: Window, start: int, account: string, who: Who): real
    requires n <= |runs| && Runs(runs, w)
  {
    if n == 0 then 0.0
    else Due(runs, n - 1, w, start, account, who) + RunPaid(Prior(runs, n - 1), runs[n - 1], w, start, account, who)
  }

  /** The coverage that one run adds. */
  ghost function RunCoverage(c: Coverage, fate: Fate, weighed: bool, inWindow: nat): Coverage {
    match fate
    case Early => c
    case Unfounded => c.(readings := c.readings + 1, unmeasured := c.unmeasured + inWindow)
    case Broken => c.(readings := c.readings + 1, skipped := c.skipped + 1, unmeasured := c.unmeasured + inWindow)
    case Measured => c.(readings := c.readings + 1, intervals := c.intervals + 1,
                        byTokens := c.byTokens + (if weighed then 1 else 0),
                        byRequests := c.byRequests + (if weighed then 0 else 1))
  }

  /** A reading closes the run of rows since the last reading. */
  method Close(account: string, prior: Option<Receipt>, run: seq<Receipt>, w: Window, start: int, coverage: Coverage,
      shares: seq<Share>)
    returns (c: Coverage, paid: seq<Share>)
    requires Distinct(shares) && run != [] && Last(run).At(w).value.Some?
      && (prior.Some? ==> prior.value.At(w).value.Some?)
    ensures Distinct(paid)
    ensures c == RunCoverage(coverage, FateOf(prior, Last(run), w, start), Weighed(run), InWindow(run, start))
    ensures forall who: Who, field: Window ::
      Grew(shares, paid, w, who, field, RunPaid(prior, run, w, start, account, who))
  {
    hide Sum, RunShare, Weighed;
    var row := Last(run);
    c, paid := coverage, shares;
    if row.ts >= start {
      c := c.(readings := c.readings + 1);
    }
    if prior.Some? {
      var before, now := prior.value.At(w), row.At(w);
      var crossed := before.reset.Some? && now.reset.Some? && before.reset != now.reset;
      var late := row.ts - prior.value.ts >= Length(w);
      if row.ts >= start {
        if now.value.value < before.value.value || crossed || late {
          var n := CountFrom(run, start);
          c := c.(skipped := c.skipped + 1, unmeasured := c.unmeasured + n);
        } else {
          c := c.(intervals := c.intervals + 1);
          if Weighed(run) {
            c := c.(byTokens := c.byTokens + 1);
          } else {
            c := c.(byRequests := c.byRequests + 1);
          }
          paid := PayRun(shares, account, run, w, start, Rise(prior.value, row, w));
        }
      }
    } else if row.ts >= start {
      var n := CountFrom(run, start);
      c := c.(unmeasured := c.unmeasured + n);
    }
  }

  method CountFrom(rows: seq<Receipt>, start: int) returns (n: nat)
    ensures n == InWindow(rows, start)
  {
    n := 0;
    for i := 0 to |rows|
      invariant n == InWindow(rows[..i], start)
    {
      assert rows[..i + 1][..i] == rows[..i] && Last(rows[..i + 1]) == rows[i];
      if rows[i].ts >= start {
        n := n + 1;
      }
    }
    assert rows[..|rows|] == rows;
  }

  /** Coverage and shares stand as the closed runs say. */
  ghost predicate Accounted(coverage: Coverage, c: Coverage, shares: seq<Share>, paid: seq<Share>,
      runs: seq<seq<Receipt>>, tail: nat, account: string, w: Window, start: int)
  {
    && Runs(runs, w) && Distinct(paid) && Covered(coverage, c, runs, |runs|, w, start, tail)
    && forall who: Who, field: Window :: Grew(shares, paid, w, who, field, Due(runs, |runs|, w, start, account, who))
  }

  /** One account, one window. */
  method Attribute(account: string, rows: seq<Receipt>, w: Window, start: int, coverage: Coverage, shares: seq<Share>)
    returns (c: Coverage, paid: seq<Share>)
    requires Distinct(shares)
    ensures Accounted(coverage, c, shares, paid, Cut(rows, w).0, InWindow(Cut(rows, w).1, start), account, w, start)
  {
    hide Accounted, Covered, RunPaid, RunCoverage, FateOf, Weighed, InWindow, Grew, Distinct;
    c, paid := coverage, shares;
    var prior: Option<Receipt> := None;
    var pending: seq<Receipt> := [];
    ghost var runs: seq<seq<Receipt>> := [];
    NothingYet(coverage, shares, account, w, start);
    for i := 0 to |rows|
      invariant Cut(rows[..i], w) == (runs, pending) && prior == Prior(runs, |runs|)
      invariant Distinct(paid) && Accounted(coverage, c, shares, paid, runs, 0, account, w, start)
    {
      var row := rows[i];
      assert rows[..i + 1][..i] == rows[..i] && Last(rows[..i + 1]) == row;
      pending := pending + [row];
      if row.At(w).value.Some? {
        ghost var covered, before := c, paid;
        c, paid := Close(account, prior, pending, w, start, c, paid);
        RunAdded(coverage, covered, c, shares, before, paid, runs, pending, account, w, start);
        runs := runs + [pending];
        prior, pending := Some(row), [];
      }
    }
    assert rows[..|rows|] == rows;
    var tail := CountFrom(pending, start);
    TailAdded(coverage, c, shares, paid, runs, tail, account, w, start);
    c := c.(unmeasured := c.unmeasured + tail);
  }

  lemma NothingYet(coverage: Coverage, shares: seq<Share>, account: string, w: Window, start: int)
    requires Distinct(shares)
    ensures Accounted(coverage, coverage, shares, shares, [], 0, account, w, start)
  {
  }

  lemma TailAdded(coverage: Coverage, c: Coverage, shares: seq<Share>, paid: seq<Share>, runs: seq<seq<Receipt>>,
      tail: nat, account: string, w: Window, start: int)
    requires Accounted(coverage, c, shares, paid, runs, 0, account, w, start)
    ensures Accounted(coverage, c.(unmeasured := c.unmeasured + tail), shares, paid, runs, tail, account, w, start)
  {
  }

  lemma RunAdded(coverage: Coverage, covered: Coverage, c: Coverage, shares: seq<Share>, before: seq<Share>,
      paid: seq<Share>, runs: seq<seq<Receipt>>, run: seq<Receipt>, account: string, w: Window, start: int)
    requires Accounted(coverage, covered, shares, before, runs, 0, account, w, start)
    requires run != [] && Last(run).At(w).value.Some? && Distinct(paid)
    requires c ==
      RunCoverage(covered, FateOf(Prior(runs, |runs|), Last(run), w, start), Weighed(run), InWindow(run, start))
    requires forall who: Who, field: Window ::
      Grew(before, paid, w, who, field, RunPaid(Prior(runs, |runs|), run, w, start, account, who))
    ensures Accounted(coverage, c, shares, paid, runs + [run], 0, account, w, start)
  {
    var more := runs + [run];
    CoverageAdded(coverage, covered, c, runs, run, w, start);
    forall who: Who, field: Window
        ensures Grew(shares, paid, w, who, field, Due(more, |more|, w, start, account, who)) {
      DueAdded(runs, run, w, start, account, who);
      GrewTwice(shares, before, paid, w, who, field, Due(runs, |runs|, w, start, account, who),
        RunPaid(Prior(runs, |runs|), run, w, start, account, who));
    }
    hide FateOf, Weighed, InWindow, Sum, RunPaid, Covered, Grew;
  }

  lemma GrewTwice(a: seq<Share>, b: seq<Share>, c: seq<Share>, w: Window, who: Who, field: Window, x: real, y: real)
    requires Grew(a, b, w, who, field, x) && Grew(b, c, w, who, field, y)
    ensures Grew(a, c, w, who, field, x + y)
  {
  }

  lemma DueAdded(runs: seq<seq<Receipt>>, run: seq<Receipt>, w: Window, start: int, account: string, who: Who)
    requires Runs(runs, w) && run != [] && Last(run).At(w).value.Some?
    ensures Due(runs + [run], |runs| + 1, w, start, account, who)
         == Due(runs, |runs|, w, start, account, who) + RunPaid(Prior(runs, |runs|), run, w, start, account, who)
  {
    hide RunPaid;
    DueSame(runs, [run], |runs|, w, start, account, who);
    assert (runs + [run])[|runs|] == run;
    assert Prior(runs + [run], |runs|) == Prior(runs, |runs|);
  }

  lemma {:induction false} DueSame(runs: seq<seq<Receipt>>, more: seq<seq<Receipt>>, n: nat, w: Window, start: int,
      account: string, who: Who)
    requires Runs(runs, w) && Runs(runs + more, w) && n <= |runs|
    ensures Due(runs + more, n, w, start, account, who) == Due(runs, n, w, start, account, who)
  {
    hide RunPaid;
    if n > 0 {
      DueSame(runs, more, n - 1, w, start, account, who);
      assert (runs + more)[n - 1] == runs[n - 1] && Prior(runs + more, n - 1) == Prior(runs, n - 1);
    }
  }

  lemma RunsAfter(runs: seq<seq<Receipt>>, run: seq<Receipt>, w: Window, start: int)
    requires Runs(runs, w) && run != [] && Last(run).At(w).value.Some?
    ensures Runs(runs + [run], w) && (runs + [run])[|runs|] == run && Prior(runs + [run], |runs|) == Prior(runs, |runs|)
    ensures FateAt(runs + [run], |runs|, w, start) == FateOf(Prior(runs, |runs|), Last(run), w, start)
  {
    hide FateOf;
    assert (runs + [run])[|runs|] == run;
  }

  lemma CountsAfter(runs: seq<seq<Receipt>>, run: seq<Receipt>, w: Window, start: int, fate: Fate)
    requires Runs(runs, w) && run != [] && Last(run).At(w).value.Some?
    ensures Runs(runs + [run], w)
    ensures var now := FateOf(Prior(runs, |runs|), Last(run), w, start);
      && RunsWith(runs + [run], |runs| + 1, w, start, fate) ==
           RunsWith(runs, |runs|, w, start, fate) + (if now == fate then 1 else 0)
      && RowsWith(runs + [run], |runs| + 1, w, start, fate)
         == RowsWith(runs, |runs|, w, start, fate) + (if now == fate then InWindow(run, start) else 0)
  {
    RunsAfter(runs, run, w, start);
    CountsSame(runs, [run], |runs|, w, start);
    hide FateOf, FateAt, InWindow, Prior;
  }

  lemma WeighedAfter(runs: seq<seq<Receipt>>, run: seq<Receipt>, w: Window, start: int, weighed: bool)
    requires Runs(runs, w) && run != [] && Last(run).At(w).value.Some?
    ensures Runs(runs + [run], w)
    ensures WeighedRuns(runs + [run], |runs| + 1, w, start, weighed) == WeighedRuns(runs, |runs|, w, start, weighed)
         + (if FateOf(Prior(runs, |runs|), Last(run), w, start) == Measured && Weighed(run) == weighed then 1 else 0)
  {
    RunsAfter(runs, run, w, start);
    CountsSame(runs, [run], |runs|, w, start);
    hide FateOf, FateAt, Weighed, Prior;
  }

  lemma CoverageAdded(coverage: Coverage, covered: Coverage, c: Coverage, runs: seq<seq<Receipt>>, run: seq<Receipt>,
      w: Window, start: int)
    requires Runs(runs, w) && run != [] && Last(run).At(w).value.Some?
      && Covered(coverage, covered, runs, |runs|, w, start, 0)
    requires c ==
      RunCoverage(covered, FateOf(Prior(runs, |runs|), Last(run), w, start), Weighed(run), InWindow(run, start))
    ensures Runs(runs + [run], w) && Covered(coverage, c, runs + [run], |runs| + 1, w, start, 0)
  {
    hide FateOf, Weighed, InWindow, RunsWith, RowsWith, WeighedRuns, Runs, Prior, Last;
    CountsAfter(runs, run, w, start, Unfounded);
    CountsAfter(runs, run, w, start, Broken);
    CountsAfter(runs, run, w, start, Measured);
    WeighedAfter(runs, run, w, start, true);
    WeighedAfter(runs, run, w, start, false);
  }

  lemma {:induction false} CountsSame(runs: seq<seq<Receipt>>, more: seq<seq<Receipt>>, n: nat, w: Window, start: int)
    requires Runs(runs, w) && Runs(runs + more, w) && n <= |runs|
    ensures forall fate :: RunsWith(runs + more, n, w, start, fate) == RunsWith(runs, n, w, start, fate)
    ensures forall fate :: RowsWith(runs + more, n, w, start, fate) == RowsWith(runs, n, w, start, fate)
    ensures forall weighed :: WeighedRuns(runs + more, n, w, start, weighed) == WeighedRuns(runs, n, w, start, weighed)
  {
    hide FateOf, Weighed, InWindow;
    if n > 0 {
      CountsSame(runs, more, n - 1, w, start);
      assert (runs + more)[n - 1] == runs[n - 1] && Prior(runs + more, n - 1) == Prior(runs, n - 1);
    }
  }

  // ---- the report ----

  datatype Account = Account(name: string, rows: seq<Receipt>)

  /** `setdefault(account, []).append(receipt)`. */
  function Append(accounts: seq<Account>, r: Receipt): seq<Account> {
    if accounts == [] then [Account(r.account, [r])]
    else if accounts[0].name == r.account then [Account(r.account, accounts[0].rows + [r])] + accounts[1..]
    else [accounts[0]] + Append(accounts[1..], r)
  }

  function Of(rows: seq<Receipt>, name: string, end: int): seq<Receipt> {
    if rows == [] then []
    else Of(rows[..|rows| - 1], name, end)
         + (if Last(rows).account == name && Last(rows).ts < end then [Last(rows)] else [])
  }

  /** Each account lists its receipts before the end, in order, and has at least one. */
  ghost predicate Grouped(accounts: seq<Account>, receipts: seq<Receipt>, end: int) {
    && (forall i, j :: 0 <= i < j < |accounts| ==> accounts[i].name != accounts[j].name)
    && (forall i :: 0 <= i < |accounts| ==> accounts[i].rows == Of(receipts, accounts[i].name, end))
    && (forall name :: (forall i :: 0 <= i < |accounts| ==> accounts[i].name != name) ==> Of(receipts, name, end) == [])
  }

  lemma {:induction false} AppendAt(accounts: seq<Account>, r: Receipt)
    requires forall i, j :: 0 <= i < j < |accounts| ==> accounts[i].name != accounts[j].name
    ensures var after := Append(accounts, r);
      && |accounts| <= |after| <= |accounts| + 1
      && (forall i :: 0 <= i < |accounts| ==>
           after[i] == if accounts[i].name == r.account then Account(r.account, accounts[i].rows + [r])
           else accounts[i])
      && (|after| == |accounts| <==> exists i :: 0 <= i < |accounts| && accounts[i].name == r.account)
      && (|after| > |accounts| ==> after[|accounts|] == Account(r.account, [r]))
      && (|after| > |accounts| ==> forall i :: 0 <= i < |accounts| ==> accounts[i].name != r.account)
  {
    if accounts != [] && accounts[0].name != r.account {
      AppendAt(accounts[1..], r);
      var rest := Append(accounts[1..], r);
      assert forall i :: 0 < i < |accounts| ==> accounts[i] == accounts[1..][i - 1];
      if i :| 0 <= i < |accounts| && accounts[i].name == r.account {
        assert accounts[1..][i - 1].name == r.account;
      }
    }
  }

  lemma {:induction false} OfByTime(rows: seq<Receipt>, name: string, end: int)
    requires ByTime(rows)
    ensures ByTime(Of(rows, name, end)) && (forall r :: r in Of(rows, name, end) ==> r in rows)
  {
    if rows != [] {
      var init := rows[..|rows| - 1];
      OfByTime(init, name, end);
      forall i | 0 <= i < |Of(init, name, end)| ensures Of(init, name, end)[i].ts <= Last(rows).ts {
        assert Of(init, name, end)[i] in init;
      }
    }
  }

  lemma OneMoreOf(receipts: seq<Receipt>, r: Receipt, name: string, end: int)
    ensures Of(receipts + [r], name, end) ==
      Of(receipts, name, end) + (if r.account == name && r.ts < end then [r] else [])
  {
    assert (receipts + [r])[..|receipts|] == receipts && Last(receipts + [r]) == r;
  }

  /** Appending lists the receipt under its account and leaves the other accounts' rows as they were. */
  lemma AppendRows(accounts: seq<Account>, receipts: seq<Receipt>, r: Receipt, end: int)
    requires Grouped(accounts, receipts, end) && r.ts < end
    ensures forall i :: 0 <= i < |Append(accounts, r)| ==>
      Append(accounts, r)[i].rows == Of(receipts + [r], Append(accounts, r)[i].name, end)
  {
    hide Append, Of;
    forall name {
      OneMoreOf(receipts, r, name, end);
    }
    AppendAt(accounts, r);
  }

  lemma SameNames(accounts: seq<Account>, r: Receipt)
    requires forall i, j :: 0 <= i < j < |accounts| ==> accounts[i].name != accounts[j].name
    ensures |accounts| <= |Append(accounts, r)|
    ensures forall i :: 0 <= i < |accounts| ==> Append(accounts, r)[i].name == accounts[i].name
    ensures exists i :: 0 <= i < |Append(accounts, r)| && Append(accounts, r)[i].name == r.account
  {
    AppendAt(accounts, r);
    hide Append;
    if i :| 0 <= i < |accounts| && accounts[i].name == r.account {
      assert Append(accounts, r)[i].name == r.account;
    } else {
      assert Append(accounts, r)[|accounts|].name == r.account;
    }
  }

  lemma AppendNames(accounts: seq<Account>, receipts: seq<Receipt>, r: Receipt, end: int, name: string)
    requires Grouped(accounts, receipts, end) && r.ts < end
    requires forall i :: 0 <= i < |Append(accounts, r)| ==> Append(accounts, r)[i].name != name
    ensures Of(receipts + [r], name, end) == []
  {
    hide Append, Of;
    SameNames(accounts, r);
    OneMoreOf(receipts, r, name, end);
    assert forall i :: 0 <= i < |accounts| ==> accounts[i].name == Append(accounts, r)[i].name;
  }

  lemma AppendDistinct(accounts: seq<Account>, r: Receipt)
    requires forall i, j :: 0 <= i < j < |accounts| ==> accounts[i].name != accounts[j].name
    ensures forall i, j :: 0 <= i < j < |Append(accounts, r)| ==>
      Append(accounts, r)[i].name != Append(accounts, r)[j].name
  {
    AppendAt(accounts, r);
    hide Append;
  }

  lemma AppendKeeps(accounts: seq<Account>, receipts: seq<Receipt>, r: Receipt, end: int)
    requires Grouped(accounts, receipts, end) && r.ts < end
    ensures Grouped(Append(accounts, r), receipts + [r], end)
  {
    hide Append, Of;
    AppendRows(accounts, receipts, r, end);
    AppendDistinct(accounts, r);
    var after := Append(accounts, r);
    forall name | forall i :: 0 <= i < |after| ==> after[i].name != name ensures Of(receipts + [r], name, end) == [] {
      AppendNames(accounts, receipts, r, end, name);
    }
  }

  lemma LateKeeps(accounts: seq<Account>, receipts: seq<Receipt>, r: Receipt, end: int)
    requires Grouped(accounts, receipts, end) && r.ts >= end
    ensures Grouped(accounts, receipts + [r], end)
  {
    forall name {
      OneMoreOf(receipts, r, name, end);
    }
    hide Of;
  }

  method Group(receipts: seq<Receipt>, end: int) returns (accounts: seq<Account>)
    ensures Grouped(accounts, receipts, end)
  {
    hide Grouped, Append, Of;
    accounts := [];
    NoGroups(end);
    for i := 0 to |receipts|
      invariant Grouped(accounts, receipts[..i], end)
    {
      assert receipts[..i + 1] == receipts[..i] + [receipts[i]];
      if receipts[i].ts >= end {
        LateKeeps(accounts, receipts[..i], receipts[i], end);
      } else {
        AppendKeeps(accounts, receipts[..i], receipts[i], end);
        accounts := Append(accounts, receipts[i]);
      }
    }
    assert receipts[..|receipts|] == receipts;
  }

  lemma NoGroups(end: int)
    ensures Grouped([], [], end)
  {
  }

  /** What these callers are owed by the first `n` accounts. */
  ghost function Owed(accounts: seq<Account>, n: nat, w: Window, start: int, who: Who): real
    requires n <= |accounts|
  {
    if n == 0 then 0.0
    else
      var runs := Cut(accounts[n - 1].rows, w).0;
      Owed(accounts, n - 1, w, start, who) + Due(runs, |runs|, w, start, accounts[n - 1].name, who)
  }

  /** In-window requests of an account outside its measured runs. */
  ghost function Missed(rows: seq<Receipt>, w: Window, start: int): nat {
    var (runs, tail) := Cut(rows, w);
    RowsWith(runs, |runs|, w, start, Unfounded) + RowsWith(runs, |runs|, w, start, Broken) + InWindow(tail, start)
  }

  ghost function MeasuredRows(rows: seq<Receipt>, w: Window, start: int): nat {
    var runs := Cut(rows, w).0;
    RowsWith(runs, |runs|, w, start, Measured)
  }

  ghost function MissedIn(accounts: seq<Account>, n: nat, w: Window, start: int): nat
    requires n <= |accounts|
  {
    if n == 0 then 0 else MissedIn(accounts, n - 1, w, start) + Missed(accounts[n - 1].rows, w, start)
  }

  /** Readings of the first `n` accounts that closed a run with this fate. */
  ghost function RunsIn(accounts: seq<Account>, n: nat, w: Window, start: int, fate: Fate): nat
    requires n <= |accounts|
  {
    if n == 0 then 0
    else
      var runs := Cut(accounts[n - 1].rows, w).0;
      RunsIn(accounts, n - 1, w, start, fate) + RunsWith(runs, |runs|, w, start, fate)
  }

  /** What one window's coverage says of the first `n` accounts. */
  ghost predicate Covers(c: Coverage, accounts: seq<Account>, n: nat, w: Window, start: int)
    requires n <= |accounts|
  {
    && c.unmeasured == MissedIn(accounts, n, w, start)
    && c.intervals == RunsIn(accounts, n, w, start, Measured) == c.byTokens + c.byRequests
    && c.skipped == RunsIn(accounts, n, w, start, Broken)
    && c.readings == c.intervals + c.skipped + RunsIn(accounts, n, w, start, Unfounded)
  }

  const NOTHING := Coverage(0, 0, 0, 0, 0, 0)

  /** The shares say what every caller is owed, and each coverage counts what could not be measured. */
  method QuotaReport(receipts: seq<Receipt>, start: int, end: int)
    returns (five: Coverage, seven: Coverage, shares: seq<Share>, consumers: seq<Share>, ghost accounts: seq<Account>)
    ensures Grouped(accounts, receipts, end) && Distinct(shares)
    ensures forall who: Who, w: Window :: Sum(shares, who, w) == Owed(accounts, |accounts|, w, start, who)
    ensures Covers(five, accounts, |accounts|, Five, start) && Covers(seven, accounts, |accounts|, Seven, start)
    ensures forall caller: Caller, w: Window ::
      Sum(consumers, Everywhere(caller), w) == Sum(shares, Everywhere(caller), w)
    ensures forall w: Window :: Sum(consumers, Everyone, w) == Sum(shares, Everyone, w)
  {
    hide Accounted, Grouped, Distinct, Sum, Missed, Due, Cut, RunsWith;
    var groups := Group(receipts, end);
    accounts := groups;
    five, seven, shares := NOTHING, NOTHING, [];
    NoShares();
    for i := 0 to |groups|
      invariant Distinct(shares)
      invariant forall who: Who, w: Window :: Sum(shares, who, w) == Owed(groups, i, w, start, who)
      invariant Covers(five, groups, i, Five, start) && Covers(seven, groups, i, Seven, start)
    {
      ghost var five0, seven0, shares0 := five, seven, shares;
      five, shares := Attribute(groups[i].name, groups[i].rows, Five, start, five, shares);
      AccountAdded(five0, five, shares0, shares, groups[i].rows, groups[i].name, Five, start);
      ghost var shares1 := shares;
      seven, shares := Attribute(groups[i].name, groups[i].rows, Seven, start, seven, shares);
      AccountAdded(seven0, seven, shares1, shares, groups[i].rows, groups[i].name, Seven, start);
    }
    consumers := Regroup(shares);
  }

  lemma NoShares()
    ensures Distinct([]) && forall who: Who, w: Window :: Sum([], who, w) == 0.0
  {
  }

  lemma AccountAdded(coverage: Coverage, c: Coverage, shares: seq<Share>, paid: seq<Share>, rows: seq<Receipt>,
      account: string, w: Window, start: int)
    requires Accounted(coverage, c, shares, paid, Cut(rows, w).0, InWindow(Cut(rows, w).1, start), account, w, start)
    ensures Distinct(paid) && c.unmeasured == coverage.unmeasured + Missed(rows, w, start)
    ensures c.intervals - coverage.intervals == (c.byTokens - coverage.byTokens) + (c.byRequests - coverage.byRequests)
    ensures var runs := Cut(rows, w).0;
      && c.intervals == coverage.intervals + RunsWith(runs, |runs|, w, start, Measured)
      && c.skipped == coverage.skipped + RunsWith(runs, |runs|, w, start, Broken)
      && c.readings - c.intervals - c.skipped
         == coverage.readings - coverage.intervals - coverage.skipped + RunsWith(runs, |runs|, w, start, Unfounded)
    ensures forall who: Who, field: Window ::
      Sum(paid, who, field) ==
        Sum(shares, who, field) + Extra(field == w, Due(Cut(rows, w).0, |Cut(rows, w).0|, w, start, account, who))
  {
    hide Sum, Due, FateOf;
    var runs := Cut(rows, w).0;
    IntervalsSplit(runs, |runs|, w, start);
    forall who: Who, field: Window
      ensures Sum(paid, who, field) ==
        Sum(shares, who, field) + Extra(field == w, Due(runs, |runs|, w, start, account, who))
    {
      assert Grew(shares, paid, w, who, field, Due(runs, |runs|, w, start, account, who));
    }
  }

  function Extra(here: bool, x: real): real { if here then x else 0.0 }

  /** Account percentages added up by consumer. */
  method Regroup(shares: seq<Share>) returns (consumers: seq<Share>)
    ensures forall caller: Caller, w: Window ::
      Sum(consumers, Everywhere(caller), w) == Sum(shares, Everywhere(caller), w)
    ensures forall w: Window :: Sum(consumers, Everyone, w) == Sum(shares, Everyone, w)
    ensures forall caller: Caller, w: Window ::
      Sum(consumers, One("", caller), w) == Sum(consumers, Everywhere(caller), w)
  {
    hide Sum, Add;
    consumers := [];
    var done: seq<Share> := [];
    NoShares();
    for i := 0 to |shares|
      invariant done == shares[..i]
      invariant forall caller: Caller, w: Window ::
        Sum(consumers, Everywhere(caller), w) == Sum(done, Everywhere(caller), w)
      invariant forall w: Window :: Sum(consumers, Everyone, w) == Sum(done, Everyone, w)
      invariant forall caller: Caller, w: Window ::
        Sum(consumers, One("", caller), w) == Sum(consumers, Everywhere(caller), w)
    {
      var s := shares[i];
      var some := Add(consumers, "", s.caller, Five, s.five);
      var more := Add(some, "", s.caller, Seven, s.seven);
      forall who: Who, w: Window
          ensures Sum(more, who, w) == Sum(consumers, who, w) + Extra(who.Covers("", s.caller), s.At(w)) {
        AddAdds(consumers, "", s.caller, Five, s.five, who, w);
        AddAdds(some, "", s.caller, Seven, s.seven, who, w);
      }
      forall who: Who, w: Window
          ensures Sum(done + [s], who, w) == Sum(done, who, w) + Extra(who.Covers(s.account, s.caller), s.At(w)) {
        SumOneMore(done, s, who, w);
      }
      consumers, done := more, done + [s];
    }
    assert shares[..|shares|] == shares;
  }

  lemma {:induction false} SumOneMore(shares: seq<Share>, s: Share, who: Who, w: Window)
    ensures Sum(shares + [s], who, w) == Sum(shares, who, w) + Extra(who.Covers(s.account, s.caller), s.At(w))
  {
    if shares != [] {
      assert (shares + [s])[1..] == shares[1..] + [s];
      SumOneMore(shares[1..], s, who, w);
    }
  }

  /** Every in-window request of an account is measured or counted as unmeasured, and not both. */
  lemma EveryRequestCounted(receipts: seq<Receipt>, accounts: seq<Account>, end: int, i: nat, w: Window, start: int)
    requires ByTime(receipts) && Grouped(accounts, receipts, end) && i < |accounts|
    ensures MeasuredRows(accounts[i].rows, w, start) + Missed(accounts[i].rows, w, start) ==
      InWindow(Of(receipts, accounts[i].name, end), start)
  {
    var rows := accounts[i].rows;
    OfByTime(receipts, accounts[i].name, end);
    var (runs, tail) := Cut(rows, w);
    var c := Coverage(RunsWith(runs, |runs|, w, start, Unfounded) + RunsWith(runs, |runs|, w, start, Broken)
      + RunsWith(runs, |runs|, w, start, Measured),
                      RunsWith(runs, |runs|, w, start, Measured), RunsWith(runs, |runs|, w, start, Broken),
                      WeighedRuns(runs, |runs|, w, start, true), WeighedRuns(runs, |runs|, w, start, false),
                        Missed(rows, w, start));
    assert Covered(NOTHING, c, runs, |runs|, w, start, InWindow(tail, start));
    CoverageComplete(NOTHING, c, rows, w, start);
  }

  /** All callers together get the whole rise of a measured run that lies in the window. */
  lemma WholeRiseIsPaid(prior: Option<Receipt>, run: seq<Receipt>, w: Window, start: int, account: string)
    requires run != [] && Last(run).At(w).value.Some? && (prior.Some? ==> prior.value.At(w).value.Some?)
    requires FateOf(prior, Last(run), w, start) == Measured && forall i :: 0 <= i < |run| ==> run[i].ts >= start
    ensures RunPaid(prior, run, w, start, account, Everyone) == Rise(prior.value, Last(run), w)
      == 100.0 * Last(run).At(w).value.value - 100.0 * prior.value.At(w).value.value
  {
    TotalPositive(run);
    WholeRun(run, Weighed(run), start, account);
    PortionWhole(Rise(prior.value, Last(run), w), Total(run, Weighed(run)));
    hide Portion, Total, Held, Weighed;
  }

  lemma PortionWhole(amount: real, total: real)
    requires total > 0.0
    ensures Portion(amount, total, total) == amount
  {
    assert total / total == 1.0;
  }
}
