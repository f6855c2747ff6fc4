/** The stall watchdog of a supervised session (clients/claude_lb_process.py:255-343).

  A tick is one expiry of the short wait for the child: both clocks, the two activity files, the
  newest transcript write, and what the process table would answer if it is asked. Times are reals.
*/
module Watchdog {
  import opened Options

  /** The two numbers of an activity file; an unreadable or invalid file is `None`. */
  datatype Activity = Activity(inflight: int, progress: real)

  datatype Tick = Tick(now: real, wall: real, server: Option<Activity>, client: Option<Activity>,
      transcript: Option<real>, working: bool, exited: Option<int>)

  datatype Outcome = Exited(code: int) | Stalled(tick: nat) | StillRunning

  const WORK_PROCESS_POLL_SECONDS: real := 30.0

  function Max(a: real, b: real): real { if a >= b then a else b }

  /** The latest moment at which an activity file proves life, in monotonic time. */
  function ActivityLife(file: Option<Activity>, now: real, wall: real, stall: real): Option<real> {
    if file.None? || file.value.inflight < 0 then None
    else if file.value.inflight == 0 then Some(now)
    else if wall - file.value.progress < stall then Some(now - Max(0.0, wall - file.value.progress))
    else None
  }

  function TranscriptLife(modified: Option<real>, now: real, wall: real, stall: real): Option<real> {
    if modified.Some? && wall - modified.value < stall then Some(now - Max(0.0, wall - modified.value)) else None
  }

  function Later(life: real, seen: Option<real>): real { if seen.Some? then Max(life, seen.value) else life }

  datatype State = State(lastLife: real, workSeen: bool, nextWorkCheck: real)

  datatype Guard = Guard(start: real, stall: real) {

    predicate Valid() { stall > 0.0 }

    function Interval(): real {
      if WORK_PROCESS_POLL_SECONDS <= stall / 4.0 then WORK_PROCESS_POLL_SECONDS else stall / 4.0
    }

    function Fresh(): State { State(start, false, start) }

    /** Some signal at this tick witnesses life at moment `life`. */
    ghost predicate Witnesses(t: Tick, life: real) {
      Shows(t, t.server, life) || Shows(t, t.client, life) || (t.transcript != None && At(t, t.transcript.value, life))
    }

    /** An idle file shows life now, a busy one at its last progress. */
    ghost predicate Shows(t: Tick, file: Option<Activity>, life: real) {
      file != None && ((file.value.inflight == 0 && life == t.now)
                       || (file.value.inflight > 0 && At(t, file.value.progress, life)))
    }

    /** A stamp of the wall clock that is younger than the timeout; one from the future counts as now. */
    ghost predicate At(t: Tick, stamp: real, life: real) {
      t.wall - stamp < stall && life == t.now - (if stamp > t.wall then 0.0 else t.wall - stamp)
    }

    function Seen(s: State, t: Tick): real {
      Later(Later(Later(s.lastLife, ActivityLife(t.server, t.now, t.wall, stall)),
                  ActivityLife(t.client, t.now, t.wall, stall)),
            TranscriptLife(t.transcript, t.now, t.wall, stall))
    }

    /** The tick asks the process table. */
    predicate Checks(s: State, t: Tick) {
      || t.now - Seen(s, t) >= stall
      || (t.now >= s.nextWorkCheck && (s.workSeen || t.now - Seen(s, t) >= Interval()))
    }

    function Next(s: State, t: Tick): State {
      if !Checks(s, t) then s.(lastLife := Seen(s, t))
      else State(if t.working || s.workSeen then t.now else Seen(s, t), t.working, t.now + Interval())
    }

    predicate Stops(s: State, t: Tick) { t.now - Next(s, t).lastLife >= stall }

    /** The state before tick `n`, whether or not the run got that far. */
    ghost function StateAt(ticks: seq<Tick>, n: nat): State
      requires n <= |ticks|
    {
      if n == 0 then Fresh() else Next(StateAt(ticks, n - 1), ticks[n - 1])
    }

    ghost predicate StopsAt(ticks: seq<Tick>, n: nat) { n < |ticks| && Stops(StateAt(ticks, n), ticks[n]) }

    ghost predicate ChecksAt(ticks: seq<Tick>, n: nat) { n < |ticks| && Checks(StateAt(ticks, n), ticks[n]) }
  }

  /** The process table is asked at most every 30 seconds, and at least four times within the timeout. */
  lemma IntervalIs(g: Guard)
    ensures g.Interval() <= 30.0 && 4.0 * g.Interval() <= g.stall
    ensures g.Interval() == 30.0 || 4.0 * g.Interval() == g.stall
  {
  }

  /** The signs of life of a tick are exactly what its signals witness. */
  lemma SignsAre(g: Guard, t: Tick, life: real)
    ensures g.Witnesses(t, life) <==>
      || ActivityLife(t.server, t.now, t.wall, g.stall) == Some(life)
      || ActivityLife(t.client, t.now, t.wall, g.stall) == Some(life)
      || TranscriptLife(t.transcript, t.now, t.wall, g.stall) == Some(life)
  {
  }

  /** One tick of the loop: fold in the files' signs of life, and ask the process table when it is due. */
  method Poll(g: Guard, s: State, t: Tick) returns (next: State)
    ensures next == g.Next(s, t)
  {
    var lastLife, workSeen, nextWorkCheck := s.lastLife, s.workSeen, s.nextWorkCheck;
    var life := ActivityLife(t.server, t.now, t.wall, g.stall);
    if life.Some? {
      lastLife := Max(lastLife, life.value);
    }
    life := ActivityLife(t.client, t.now, t.wall, g.stall);
    if life.Some? {
      lastLife := Max(lastLife, life.value);
    }
    if t.transcript.Some? && t.wall - t.transcript.value < g.stall {
      lastLife := Max(lastLife, t.now - Max(0.0, t.wall - t.transcript.value));
    }
    if t.now - lastLife >= g.stall || (t.now >= nextWorkCheck && (workSeen || t.now - lastLife >= g.Interval())) {
      if t.working || workSeen {
        lastLife := t.now;
      }
      workSeen := t.working;
      nextWorkCheck := t.now + g.Interval();
    }
    next := State(lastLife, workSeen, nextWorkCheck);
  }

  /** The first `n` ticks saw neither an exit nor a stall. */
  ghost predicate Quiet(g: Guard, ticks: seq<Tick>, n: nat) {
    forall k :: 0 <= k < n && k < |ticks| ==> !g.StopsAt(ticks, k) && ticks[k].exited.None?
  }

  ghost predicate ExitsAt(g: Guard, ticks: seq<Tick>, n: nat, code: int) {
    n < |ticks| && ticks[n].exited == Some(code) && Quiet(g, ticks, n)
  }

  lemma RunStarts(g: Guard, ticks: seq<Tick>)
    ensures g.StateAt(ticks, 0) == g.Fresh() && Quiet(g, ticks, 0)
    ensures g.Fresh().lastLife == g.start == g.Fresh().nextWorkCheck && !g.Fresh().workSeen
  {
  }

  lemma TickEffect(g: Guard, ticks: seq<Tick>, n: nat)
    requires n < |ticks| && Quiet(g, ticks, n)
    ensures ticks[n].exited.Some? ==> ExitsAt(g, ticks, n, ticks[n].exited.value)
    ensures g.Next(g.StateAt(ticks, n), ticks[n]) == g.StateAt(ticks, n + 1)
    ensures g.StopsAt(ticks, n) <==> ticks[n].now - g.StateAt(ticks, n + 1).lastLife >= g.stall
    ensures !g.StopsAt(ticks, n) && ticks[n].exited.None? ==> Quiet(g, ticks, n + 1)
  {
  }

  /** The first exit that a plain wait sees. */
  ghost predicate FirstExit(ticks: seq<Tick>, n: nat, code: int) {
    n < |ticks| && ticks[n].exited == Some(code) && forall k :: 0 <= k < n ==> ticks[k].exited.None?
  }

  /** The supervising loop over the ticks; the first tick that sees an exit or a stall ends it. Without a positive
      timeout the child is only waited for. */
  method RunSupervised(g: Guard, ticks: seq<Tick>) returns (outcome: Outcome)
    ensures outcome.Stalled? ==> g.stall > 0.0 && g.StopsAt(ticks, outcome.tick) && Quiet(g, ticks, outcome.tick)
    ensures outcome.Stalled? ==> ticks[outcome.tick].exited.None?
    ensures g.stall > 0.0 && outcome.Exited? ==> exists n :: ExitsAt(g, ticks, n, outcome.code)
    ensures g.stall > 0.0 && outcome.StillRunning? ==> Quiet(g, ticks, |ticks|)
    ensures g.stall <= 0.0 && outcome.Exited? ==> exists n :: FirstExit(ticks, n, outcome.code)
    ensures g.stall <= 0.0 && outcome.StillRunning? ==> forall k :: 0 <= k < |ticks| ==> ticks[k].exited.None?
  {
    if g.Valid() {
      outcome := Supervise(g, ticks);
      return;
    }
    for n := 0 to |ticks|
      invariant forall k :: 0 <= k < n ==> ticks[k].exited.None?
    {
      if ticks[n].exited.Some? {
        assert FirstExit(ticks, n, ticks[n].exited.value);
        return Exited(ticks[n].exited.value);
      }
    }
    return StillRunning;
  }

  method Supervise(g: Guard, ticks: seq<Tick>) returns (outcome: Outcome)
    requires g.Valid()
    ensures outcome.Stalled? ==> g.StopsAt(ticks, outcome.tick) && Quiet(g, ticks, outcome.tick)
    ensures outcome.Stalled? ==> ticks[outcome.tick].exited.None?
    ensures outcome.Exited? ==> exists n :: ExitsAt(g, ticks, n, outcome.code)
    ensures outcome.StillRunning? ==> Quiet(g, ticks, |ticks|)
  {
    hide *;
    var state := g.Fresh();
    RunStarts(g, ticks);
    for n := 0 to |ticks|
      invariant state == g.StateAt(ticks, n)
      invariant Quiet(g, ticks, n)
    {
      TickEffect(g, ticks, n);
      if ticks[n].exited.Some? {
        return Exited(ticks[n].exited.value);
      }
      state := Poll(g, state, ticks[n]);
      if ticks[n].now - state.lastLife >= g.stall {
        return Stalled(n);
      }
    }
    return StillRunning;
  }

  ghost predicate Clock(g: Guard, ticks: seq<Tick>) {
    && g.Valid()
    && (forall i :: 0 <= i < |ticks| ==> g.start <= ticks[i].now)
    && (forall i, j :: 0 <= i <= j < |ticks| ==> ticks[i].now <= ticks[j].now)
  }

  // ---- no false stall ----

  /** A tick forgets no sign of life and sees none in the future. */
  lemma {:induction false} LifeGrows(g: Guard, ticks: seq<Tick>, n: nat)
    requires Clock(g, ticks) && n < |ticks|
    ensures g.StateAt(ticks, n).lastLife <= g.Seen(g.StateAt(ticks, n), ticks[n]) <= g.StateAt(ticks, n + 1).lastLife
    ensures g.StateAt(ticks, n + 1).lastLife <= ticks[n].now
    ensures forall life :: g.Witnesses(ticks[n], life) ==> life <= g.Seen(g.StateAt(ticks, n), ticks[n])
  {
    if n > 0 {
      LifeGrows(g, ticks, n - 1);
    }
    forall life {
      SignsAre(g, ticks[n], life);
    }
  }

  /** Where the last moment of life comes from: the start, a sign that a tick witnessed, or a process check that found
      work or followed one that had. */
  lemma {:induction false} LifeIsWitnessed(g: Guard, ticks: seq<Tick>, n: nat)
    requires n <= |ticks|
    ensures var life := g.StateAt(ticks, n).lastLife;
      || life == g.start
      || (exists m :: 0 <= m < n && g.Witnesses(ticks[m], life))
      || (exists m :: 0 <= m < n && g.ChecksAt(ticks, m) && life == ticks[m].now
                      && (ticks[m].working || g.StateAt(ticks, m).workSeen))
  {
    if n > 0 {
      LifeIsWitnessed(g, ticks, n - 1);
      var t, s := ticks[n - 1], g.StateAt(ticks, n - 1);
      SignsAre(g, t, g.Seen(s, t));
      assert g.StateAt(ticks, n) == g.Next(s, t);
      assert g.Seen(s, t) == s.lastLife || g.Witnesses(t, g.Seen(s, t));
    }
  }

  lemma {:induction false} LifeIsRemembered(g: Guard, ticks: seq<Tick>, m: nat, n: nat)
    requires Clock(g, ticks) && m <= n <= |ticks|
    ensures g.StateAt(ticks, m).lastLife <= g.StateAt(ticks, n).lastLife
    decreases n
  {
    hide *;
    if m < n {
      LifeIsRemembered(g, ticks, m, n - 1);
      LifeGrows(g, ticks, n - 1);
    }
  }

  ghost predicate LastCheckBefore(g: Guard, ticks: seq<Tick>, k: nat, n: nat) {
    k < n <= |ticks| && g.ChecksAt(ticks, k) && forall m :: k < m < n ==> !g.ChecksAt(ticks, m)
  }

  /** `workSeen` is the answer of the last process check. */
  lemma {:induction false} WorkSeenIsLastAnswer(g: Guard, ticks: seq<Tick>, k: nat, n: nat)
    requires LastCheckBefore(g, ticks, k, n)
    ensures g.StateAt(ticks, n).workSeen == ticks[k].working
    ensures g.StateAt(ticks, n).nextWorkCheck == ticks[k].now + g.Interval()
    decreases n
  {
    if k + 1 < n {
      assert !g.ChecksAt(ticks, n - 1);
      WorkSeenIsLastAnswer(g, ticks, k, n - 1);
    }
  }

  /** The child is stopped only after `stall` seconds in which no file proved life and no process check
      found work, on a tick whose own check found nothing, when the check before it found nothing too. */
  lemma NoFalseStall(g: Guard, ticks: seq<Tick>, n: nat)
    requires Clock(g, ticks) && g.StopsAt(ticks, n)
    ensures ticks[n].now - g.start >= g.stall
    ensures forall m, life :: 0 <= m <= n && g.Witnesses(ticks[m], life) ==> ticks[n].now - life >= g.stall
    ensures forall m :: 0 <= m < n && g.ChecksAt(ticks, m) && ticks[m].working ==>
      ticks[n].now - ticks[m].now >= g.stall
    ensures g.ChecksAt(ticks, n) && !ticks[n].working
    ensures forall k: nat :: LastCheckBefore(g, ticks, k, n) ==> !ticks[k].working
  {
    LifeGrows(g, ticks, n);
    LifeIsRemembered(g, ticks, 0, n);
    forall m, life | 0 <= m <= n && g.Witnesses(ticks[m], life)
      ensures ticks[n].now - life >= g.stall
    {
      LifeGrows(g, ticks, m);
      if m < n {
        LifeIsRemembered(g, ticks, m + 1, n);
      }
    }
    forall m | 0 <= m < n && g.ChecksAt(ticks, m) && ticks[m].working
      ensures ticks[n].now - ticks[m].now >= g.stall
    {
      LifeIsRemembered(g, ticks, m + 1, n);
    }
    forall k: nat | LastCheckBefore(g, ticks, k, n) ensures !ticks[k].working {
      WorkSeenIsLastAnswer(g, ticks, k, n);
    }
  }

  // ---- no missed stall ----

  /** From time `dead` on there is no sign of life: files prove nothing later and no work is found. */
  ghost predicate SilentAfter(g: Guard, ticks: seq<Tick>, dead: real) {
    forall m :: 0 <= m < |ticks| && ticks[m].now > dead ==>
      !ticks[m].working && forall life :: g.Witnesses(ticks[m], life) ==> life <= dead
  }

  /** Ticks come at most `gap` apart. */
  ghost predicate Paced(g: Guard, ticks: seq<Tick>, gap: real) {
    forall m :: 0 <= m < |ticks| ==> ticks[m].now <= Before(g, ticks, m) + gap
  }

  ghost function Before(g: Guard, ticks: seq<Tick>, m: nat): real
    requires m <= |ticks|
  {
    if m == 0 then g.start else ticks[m - 1].now
  }

  /** What a silent run knows: work seen before it fell silent is checked again within the interval,
      and a run that has checked since has no life later than that check. */
  ghost predicate WindingDown(g: Guard, s: State, before: real, dead: real, gap: real) {
    if s.workSeen then s.lastLife <= dead && before <= dead + g.Interval() && s.nextWorkCheck <= dead + g.Interval()
    else s.lastLife <= dead + g.Interval() + gap
  }

  lemma {:induction false} LiveUntilDead(g: Guard, ticks: seq<Tick>, n: nat, dead: real, gap: real)
    requires Clock(g, ticks) && n <= |ticks| && g.start <= dead && gap > 0.0
    requires forall m :: 0 <= m < n ==> ticks[m].now <= dead
    ensures WindingDown(g, g.StateAt(ticks, n), Before(g, ticks, n), dead, gap)
    ensures g.StateAt(ticks, n).nextWorkCheck <= dead + g.Interval()
    ensures g.StateAt(ticks, n).lastLife <= dead
  {
    if n > 0 {
      LiveUntilDead(g, ticks, n - 1, dead, gap);
      LifeGrows(g, ticks, n - 1);
    }
  }

  /** One silent tick that does not stop the child is still early, and keeps winding down. */
  lemma SilentTick(g: Guard, s: State, before: real, t: Tick, dead: real, gap: real)
    requires g.Valid() && gap > 0.0 && WindingDown(g, s, before, dead, gap)
    requires dead < t.now && before <= t.now <= before + gap
    requires !t.working && forall life :: g.Witnesses(t, life) ==> life <= dead
    requires !g.Stops(s, t)
    ensures WindingDown(g, g.Next(s, t), t.now, dead, gap)
    ensures t.now < dead + g.Interval() + gap + g.stall
  {
    var server := ActivityLife(t.server, t.now, t.wall, g.stall);
    var client := ActivityLife(t.client, t.now, t.wall, g.stall);
    var transcript := TranscriptLife(t.transcript, t.now, t.wall, g.stall);
    forall life {
      SignsAre(g, t, life);
    }
    assert server.Some? ==> g.Witnesses(t, server.value);
    assert client.Some? ==> g.Witnesses(t, client.value);
    assert transcript.Some? ==> g.Witnesses(t, transcript.value);
  }

  lemma {:induction false} SilentRun(g: Guard, ticks: seq<Tick>, n: nat, dead: real, gap: real)
    requires Clock(g, ticks) && n <= |ticks| && g.start <= dead && gap > 0.0
    requires SilentAfter(g, ticks, dead) && Paced(g, ticks, gap)
    requires forall k :: 0 <= k < n ==> !g.StopsAt(ticks, k)
    ensures WindingDown(g, g.StateAt(ticks, n), Before(g, ticks, n), dead, gap)
    ensures Before(g, ticks, n) < dead + g.Interval() + gap + g.stall
  {
    if n == 0 || ticks[n - 1].now <= dead {
      LiveUntilDead(g, ticks, n, dead, gap);
    } else {
      SilentRun(g, ticks, n - 1, dead, gap);
      assert !g.StopsAt(ticks, n - 1);
      SilentTick(g, g.StateAt(ticks, n - 1), Before(g, ticks, n - 1), ticks[n - 1], dead, gap);
    }
  }

  /** Once all signals end at `dead`, a child that does not exit is stopped by
      `dead + stall + interval + 2 * gap`, provided the run is observed that long. */
  lemma StoppedInTime(g: Guard, ticks: seq<Tick>, dead: real, gap: real) returns (n: nat)
    requires Clock(g, ticks) && g.start <= dead && gap > 0.0
    requires SilentAfter(g, ticks, dead) && Paced(g, ticks, gap)
    requires |ticks| > 0 && ticks[|ticks| - 1].now >= dead + g.stall + g.Interval() + gap
    ensures g.StopsAt(ticks, n) && forall k :: 0 <= k < n ==> !g.StopsAt(ticks, k)
    ensures ticks[n].now < dead + g.stall + g.Interval() + 2.0 * gap
  {
    n := 0;
    while n < |ticks| && !g.StopsAt(ticks, n)
      invariant n <= |ticks|
      invariant forall k :: 0 <= k < n ==> !g.StopsAt(ticks, k)
    {
      n := n + 1;
    }
    SilentRun(g, ticks, n, dead, gap);
  }
}
