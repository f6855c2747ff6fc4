/** The tunnel's shared rate limiter (clients/claude_lb_common.py:280-304).

  Every relay thread calls `Throttle` before it forwards a chunk. The clock is read and
  `nextFree` is advanced under one lock, so a concurrent run is the sequence of calls in
  lock order with nondecreasing clock readings; the sleeps after the lock overlap freely.
  Sleeping is ideal: `sleep(s)` takes exactly `s` seconds.
*/
module Tunnel {
  import opened Options

  const SMALL_WRITE_BYTES: nat := 8192

  function Max(a: real, b: real): real { if a >= b then a else b }

  class TunnelBucket {
    const rate: real
    const burstSeconds: real
    var nextFree: real

    constructor (rate: real, burstBytes: Option<real>, now: real)
      ensures this.rate == rate
      ensures rate <= 0.0 ==> burstSeconds == 0.0
      ensures rate > 0.0 ==> burstSeconds * rate == (if burstBytes.Some? then burstBytes.value else Max(rate, 131072.0))
      ensures nextFree == now - burstSeconds
    {
      var capacity := if burstBytes.Some? then burstBytes.value else Max(rate, 131072.0);
      this.rate := rate;
      this.burstSeconds := if rate > 0.0 then capacity / rate else 0.0;
      this.nextFree := now - (if rate > 0.0 then capacity / rate else 0.0);
    }

    /** Returns the moment the caller may forward its bytes. */
    method Throttle(nbytes: nat, now: real) returns (release: real)
      modifies this
      ensures rate <= 0.0 ==> release == now && nextFree == old(nextFree)
      ensures rate > 0.0 ==>
        var limiter := Limiter(rate, burstSeconds);
        && nextFree == limiter.Next(old(nextFree), Call(nbytes, now))
        && release == limiter.Release(old(nextFree), Call(nbytes, now))
    {
      if rate <= 0.0 {
        return now;
      }
      var base := Max(nextFree, now - burstSeconds);
      var wait := base - now;
      nextFree := base + nbytes as real / rate;
      if nbytes <= SMALL_WRITE_BYTES && wait <= burstSeconds {
        return now;
      }
      release := now;
      while wait > 0.0
        invariant wait > 0.0 ==> release + wait == base
        invariant wait <= 0.0 ==> release == Max(now, base)
        decreases if wait > 0.0 then (2.0 * wait).Floor + 1 else 0
      {
        var step := if wait < 0.5 then wait else 0.5;
        release := release + step;
        wait := wait - step;
      }
    }
  }

  /** One call as the lock orders it: how many bytes, and the clock when the lock was held. */
  datatype Call = Call(nbytes: nat, now: real)

  datatype Limiter = Limiter(rate: real, burst: real) {

    ghost predicate Valid() { rate > 0.0 && burst >= 0.0 }

    function Base(nextFree: real, c: Call): real { Max(nextFree, c.now - burst) }

    function Next(nextFree: real, c: Call): real
      requires rate > 0.0
    {
      Base(nextFree, c) + c.nbytes as real / rate
    }

    predicate Bypass(nextFree: real, c: Call) {
      c.nbytes <= SMALL_WRITE_BYTES && Base(nextFree, c) - c.now <= burst
    }

    function Release(nextFree: real, c: Call): real {
      if Bypass(nextFree, c) then c.now else Max(c.now, Base(nextFree, c))
    }

    /** `nextFree` as call `i` finds it, when the bucket was made at time `made`. */
    ghost function NextFree(made: real, calls: seq<Call>, i: nat): real
      requires rate > 0.0 && i <= |calls|
    {
      if i == 0 then made - burst else Next(NextFree(made, calls, i - 1), calls[i - 1])
    }

    ghost function BaseAt(made: real, calls: seq<Call>, i: nat): real
      requires rate > 0.0 && i < |calls|
    {
      Base(NextFree(made, calls, i), calls[i])
    }

    ghost function ReleaseAt(made: real, calls: seq<Call>, i: nat): real
      requires rate > 0.0 && i < |calls|
    {
      Release(NextFree(made, calls, i), calls[i])
    }

    ghost predicate BypassAt(made: real, calls: seq<Call>, i: nat)
      requires rate > 0.0 && i < |calls|
    {
      Bypass(NextFree(made, calls, i), calls[i])
    }

    ghost predicate InWindow(made: real, calls: seq<Call>, from: real, to: real, i: nat)
      requires rate > 0.0 && i < |calls|
    {
      from <= ReleaseAt(made, calls, i) <= to
    }

    /** Bytes of the first `n` calls that are released within `[from, to]`. */
    ghost function Released(made: real, calls: seq<Call>, from: real, to: real, n: nat): nat
      requires rate > 0.0 && n <= |calls|
    {
      if n == 0 then 0
      else Released(made, calls, from, to, n - 1)
           + if InWindow(made, calls, from, to, n - 1) then calls[n - 1].nbytes else 0
    }
  }

  ghost predicate LockOrder(made: real, calls: seq<Call>) {
    && (forall i :: 0 <= i < |calls| ==> made <= calls[i].now)
    && (forall i, j :: 0 <= i < j < |calls| ==> calls[i].now <= calls[j].now)
  }

  /** Bytes of calls `i`, ..., `j - 1`. */
  ghost function Bytes(calls: seq<Call>, i: nat, j: nat): nat
    requires i <= j <= |calls|
  {
    if i == j then 0 else Bytes(calls, i, j - 1) + calls[j - 1].nbytes
  }

  // ---- the schedule is the max-plus closed form of a token bucket ----

  lemma OneMoreWrite(rate: real, calls: seq<Call>, i: nat, j: nat)
    requires rate > 0.0 && i < j <= |calls|
    ensures Bytes(calls, i, j) as real / rate
         == Bytes(calls, i, j - 1) as real / rate + calls[j - 1].nbytes as real / rate
  {
    var a, b := Bytes(calls, i, j - 1) as real, calls[j - 1].nbytes as real;
    assert (a + b) / rate == a / rate + b / rate;
  }

  lemma {:induction false} BaseAdvances(l: Limiter, made: real, calls: seq<Call>, i: nat, j: nat)
    requires l.Valid() && i <= j < |calls|
    ensures l.BaseAt(made, calls, j) >= l.BaseAt(made, calls, i) + Bytes(calls, i, j) as real / l.rate
    decreases j
  {
    if i < j {
      BaseAdvances(l, made, calls, i, j - 1);
      OneMoreWrite(l.rate, calls, i, j);
    }
  }

  /** The slot of call `i` is never later than the backlog since some earlier call whose burst was full:
      with `BaseAdvances` this makes the slot the maximum over `k` of `now[k] - burst + bytes(k..i)/rate`. */
  lemma {:induction false} SlotIsBacklog(l: Limiter, made: real, calls: seq<Call>, i: nat) returns (k: nat)
    requires l.Valid() && LockOrder(made, calls) && i < |calls|
    ensures k <= i
    ensures l.BaseAt(made, calls, i) == calls[k].now - l.burst + Bytes(calls, k, i) as real / l.rate
    ensures forall m :: 0 <= m <= i ==>
      l.BaseAt(made, calls, i) >= calls[m].now - l.burst + Bytes(calls, m, i) as real / l.rate
    decreases i
  {
    if i == 0 || l.NextFree(made, calls, i) <= calls[i].now - l.burst {
      k := i;
    } else {
      k := SlotIsBacklog(l, made, calls, i - 1);
      OneMoreWrite(l.rate, calls, k, i);
    }
    forall m | 0 <= m <= i
      ensures l.BaseAt(made, calls, i) >= calls[m].now - l.burst + Bytes(calls, m, i) as real / l.rate
    {
      BaseAdvances(l, made, calls, m, i);
    }
  }

  // ---- the rate bound ----

  lemma {:induction false} ReleasedWithin(l: Limiter, made: real, calls: seq<Call>, from: real, to: real, i: nat,
      n: nat)
    requires l.rate > 0.0 && i <= n <= |calls|
    requires forall k :: 0 <= k < i ==> !l.InWindow(made, calls, from, to, k)
    ensures l.Released(made, calls, from, to, n) <= Bytes(calls, i, n)
    decreases n
  {
    if i < n {
      ReleasedWithin(l, made, calls, from, to, i, n - 1);
    } else if n > 0 {
      NothingReleased(l, made, calls, from, to, n);
    }
  }

  lemma {:induction false} NothingReleased(l: Limiter, made: real, calls: seq<Call>, from: real, to: real, n: nat)
    requires l.rate > 0.0 && n <= |calls|
    requires forall k :: 0 <= k < n ==> !l.InWindow(made, calls, from, to, k)
    ensures l.Released(made, calls, from, to, n) == 0
  {
    if n > 0 {
      NothingReleased(l, made, calls, from, to, n - 1);
    }
  }

  lemma {:induction false} SkipTail(l: Limiter, made: real, calls: seq<Call>, from: real, to: real, j: nat, n: nat)
    requires l.rate > 0.0 && j <= n <= |calls|
    requires forall k :: j <= k < n ==> !l.InWindow(made, calls, from, to, k)
    ensures l.Released(made, calls, from, to, n) == l.Released(made, calls, from, to, j)
    decreases n
  {
    if j < n {
      SkipTail(l, made, calls, from, to, j, n - 1);
    }
  }

  /** The first and last calls, in lock order, that are released in the window. */
  lemma WindowEnds(l: Limiter, made: real, calls: seq<Call>, from: real, to: real) returns (first: nat, last: nat)
    requires l.Valid() && from <= to
    requires l.Released(made, calls, from, to, |calls|) > 0
    ensures first <= last < |calls|
    ensures l.InWindow(made, calls, from, to, first) && l.InWindow(made, calls, from, to, last)
    ensures l.Released(made, calls, from, to, |calls|) <= Bytes(calls, first, last) + calls[last].nbytes
  {
    first := 0;
    while first < |calls| && !l.InWindow(made, calls, from, to, first)
      invariant first <= |calls|
      invariant forall k :: 0 <= k < first ==> !l.InWindow(made, calls, from, to, k)
    {
      first := first + 1;
    }
    if first == |calls| {
      NothingReleased(l, made, calls, from, to, |calls|);
      assert false;
    }
    var j := |calls|;
    while !l.InWindow(made, calls, from, to, j - 1)
      invariant first < j <= |calls|
      invariant forall k :: j <= k < |calls| ==> !l.InWindow(made, calls, from, to, k)
      decreases j
    {
      j := j - 1;
    }
    last := j - 1;
    SkipTail(l, made, calls, from, to, j, |calls|);
    ReleasedWithin(l, made, calls, from, to, first, j);
  }

  /** What `rate` gives in `seconds`, plus that many full bursts, in bytes. */
  function Allowance(l: Limiter, seconds: real, bursts: real): real {
    l.rate * seconds + bursts * (l.rate * l.burst)
  }

  /** Over any concurrent run, the bytes released in any window of length `to - from` are at most
      `rate * length + 2 * burst` plus the size of one write that was itself released in the window;
      one `burst` is enough when no write released in the window took the small-write bypass. */
  lemma RateBound(l: Limiter, made: real, calls: seq<Call>, from: real, to: real) returns (last: nat)
    requires l.Valid() && LockOrder(made, calls) && from <= to
    requires l.Released(made, calls, from, to, |calls|) > 0
    ensures last < |calls| && l.InWindow(made, calls, from, to, last)
    ensures l.Released(made, calls, from, to, |calls|) as real
         <= Allowance(l, to - from, 2.0) + calls[last].nbytes as real
    ensures (forall k :: 0 <= k < |calls| && l.InWindow(made, calls, from, to, k) ==> !l.BypassAt(made, calls, k))
      ==> l.Released(made, calls, from, to, |calls|) as real
          <= Allowance(l, to - from, 1.0) + calls[last].nbytes as real
  {
    assert l.rate > 0.0 && l.burst >= 0.0;  // all that the rest needs of `Valid`
    hide *;
    var first;
    first, last := WindowEnds(l, made, calls, from, to);
    SecondsInWindow(l, made, calls, from, to, first, last);
    ScaleUp(l, Bytes(calls, first, last), to - from, l.BypassAt(made, calls, last));
  }

  /** Between the first and the last write released in the window, the schedule holds at most
      the window, one burst of arrears and, for a bypassing last write, one burst ahead. */
  lemma SecondsInWindow(l: Limiter, made: real, calls: seq<Call>, from: real, to: real, i: nat, last: nat)
    requires l.Valid() && i <= last < |calls|
    requires l.InWindow(made, calls, from, to, i) && l.InWindow(made, calls, from, to, last)
    ensures Bytes(calls, i, last) as real / l.rate
         <= (to - from) + (if l.BypassAt(made, calls, last) then 2.0 * l.burst else l.burst)
  {
    BaseAdvances(l, made, calls, i, last);
    StartSlack(l, l.NextFree(made, calls, i), calls[i], from);
    EndSlack(l, l.NextFree(made, calls, last), calls[last], to);
  }

  lemma StartSlack(l: Limiter, nextFree: real, c: Call, from: real)
    requires l.burst >= 0.0 && from <= l.Release(nextFree, c)
    ensures from - l.burst <= l.Base(nextFree, c)
  {
  }

  lemma EndSlack(l: Limiter, nextFree: real, c: Call, to: real)
    requires l.Release(nextFree, c) <= to
    ensures l.Base(nextFree, c) <= to + if l.Bypass(nextFree, c) then l.burst else 0.0
  {
  }

  lemma ScaleUp(l: Limiter, bytes: nat, length: real, bypass: bool)
    requires l.rate > 0.0 && l.burst >= 0.0
    requires bytes as real / l.rate <= length + (if bypass then 2.0 * l.burst else l.burst)
    ensures bytes as real <= Allowance(l, length, 2.0)
    ensures !bypass ==> bytes as real <= Allowance(l, length, 1.0)
  {
    var seconds := length + (if bypass then 2.0 * l.burst else l.burst);
    assert bytes as real == l.rate * (bytes as real / l.rate) <= l.rate * seconds;
    assert l.rate * l.burst >= 0.0;
  }

  /** The price of the bypass: a small write can leave before a large one that took the lock first. */
  lemma SmallMayOvertakeLarge()
    ensures
      var l := Limiter(8192.0, 4.0);
      var calls := [Call(40960, 0.0), Call(16384, 0.0), Call(4096, 0.0)];
      && l.Valid() && LockOrder(0.0, calls)
      && l.ReleaseAt(0.0, calls, 2) == 0.0 < l.ReleaseAt(0.0, calls, 1)
  {
  }
}
