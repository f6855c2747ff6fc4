/** The incremental loop detector of the token report (app/audit_token_report.py:107-125).

  For each call sequence of an agent the code keeps one counter of the last 50 calls, adds the new
  call, drops the call that left the window, and stops at the first full window in which some call
  occurs 20 times. The reference looks at every window of 50 consecutive calls from scratch.
*/
module LoopDetector {

  const WINDOW: nat := 50
  const REPEATS: nat := 20

  /** The calls of the last full or partial window that ends before index `i`. */
  function Last<T>(calls: seq<T>, i: nat): seq<T>
    requires i <= |calls|
  {
    if i <= WINDOW then calls[..i] else calls[i - WINDOW..i]
  }

  ghost function Occurrences<T>(window: seq<T>, call: T): nat { multiset(window)[call] }

  ghost predicate Hot<T(!new)>(window: seq<T>) { exists call :: Occurrences(window, call) >= REPEATS }

  /** The 50 consecutive calls that end at index `end - 1` contain some call at least 20 times. */
  ghost predicate HotWindow<T(!new)>(calls: seq<T>, end: nat) {
    WINDOW <= end <= |calls| && Hot(Last(calls, end))
  }

  ghost predicate Loops<T(!new)>(calls: seq<T>) { exists end :: HotWindow(calls, end) }

  /** The counter holds exactly the calls of the bag, each with its multiplicity. */
  ghost predicate Counts<T(!new)>(counts: map<T, int>, bag: multiset<T>) {
    && (forall c :: c in counts <==> c in bag)
    && (forall c :: c in counts ==> counts[c] == bag[c])
  }

  lemma WindowSlides<T>(calls: seq<T>, i: nat)
    requires i < |calls|
    ensures i < WINDOW ==> multiset(Last(calls, i + 1)) == multiset(Last(calls, i)) + multiset{calls[i]}
    ensures i >= WINDOW ==>
      && multiset(Last(calls, i)) == multiset(calls[i - WINDOW + 1..i]) + multiset{calls[i - WINDOW]}
      && multiset(Last(calls, i + 1)) == multiset(calls[i - WINDOW + 1..i]) + multiset{calls[i]}
  {
    if i < WINDOW {
      assert calls[..i + 1] == calls[..i] + [calls[i]];
    } else {
      var kept := calls[i - WINDOW + 1..i];
      assert calls[i - WINDOW..i] == [calls[i - WINDOW]] + kept;
      assert calls[i + 1 - WINDOW..i + 1] == kept + [calls[i]];
    }
  }

  function Add<T(!new)>(counts: map<T, int>, call: T): (next: map<T, int>)
    ensures forall bag: multiset<T> :: Counts(counts, bag) ==> Counts(next, bag + multiset{call})
  {
    counts[call := (if call in counts then counts[call] else 0) + 1]
  }

  function Drop<T(!new)>(counts: map<T, int>, expired: T): (next: map<T, int>)
    requires expired in counts
    ensures forall bag: multiset<T> :: Counts(counts, bag + multiset{expired}) ==> Counts(next, bag)
  {
    if counts[expired] - 1 == 0 then counts - {expired} else counts[expired := counts[expired] - 1]
  }

  /** The counter after call `i`: add it, then drop the call that left the window. */
  method Advance<T(==, !new)>(counts: map<T, int>, calls: seq<T>, i: nat) returns (next: map<T, int>)
    requires i < |calls| && Tracks(counts, calls, i)
    ensures Tracks(next, calls, i + 1)
  {
    WindowSlides(calls, i);
    next := Add(counts, calls[i]);
    if i >= WINDOW {
      var expired := calls[i - WINDOW];
      ghost var kept := multiset(calls[i - WINDOW + 1..i]) + multiset{calls[i]};
      assert kept + multiset{expired} == multiset(Last(calls, i)) + multiset{calls[i]};
      assert expired in kept + multiset{expired};
      next := Drop(next, expired);
    }
  }

  /** `max(counts.values()) >= 20` on a nonempty counter. */
  predicate AnyRepeated<T>(counts: map<T, int>) { exists c | c in counts :: counts[c] >= REPEATS }

  /** The counter after the first `i` calls holds the multiset of the last 50 of them. */
  ghost predicate Tracks<T(!new)>(counts: map<T, int>, calls: seq<T>, i: nat) {
    i <= |calls| && Counts(counts, multiset(Last(calls, i)))
  }

  lemma CounterSeesHeat<T(!new)>(counts: map<T, int>, window: seq<T>)
    requires Counts(counts, multiset(window))
    ensures Hot(window) <==> AnyRepeated(counts)
  {
    if c :| c in counts && counts[c] >= REPEATS {
      assert Occurrences(window, c) >= REPEATS;
    }
  }

  lemma NothingYet<T(!new)>(calls: seq<T>)
    ensures Tracks(map[], calls, 0) && !HotWindow(calls, 0)
  {
  }

  lemma LoopsByIndex<T(!new)>(calls: seq<T>)
    ensures Loops(calls) <==> exists end :: 0 <= end <= |calls| && HotWindow(calls, end)
  {
  }

  /** One pass over one sequence; the counter always equals the multiset of the last 50 calls. */
  method SequenceLoops<T(==, !new)>(calls: seq<T>) returns (looping: bool)
    ensures looping <==> Loops(calls)
  {
    hide *;
    var counts: map<T, int> := map[];
    looping := false;
    LoopsByIndex(calls);
    NothingYet(calls);
    for i := 0 to |calls|
      invariant !looping
      invariant Tracks(counts, calls, i)
      invariant forall end :: 0 <= end <= i ==> !HotWindow(calls, end)
    {
      counts := Advance(counts, calls, i);
      HotAt(counts, calls, i + 1);
      if i >= WINDOW - 1 && AnyRepeated(counts) {
        return true;
      }
    }
  }

  lemma HotAt<T(!new)>(counts: map<T, int>, calls: seq<T>, end: nat)
    requires Tracks(counts, calls, end)
    ensures HotWindow(calls, end) <==> end - 1 >= WINDOW - 1 && AnyRepeated(counts)
  {
    CounterSeesHeat(counts, Last(calls, end));
  }

  /** An agent loops exactly when one of its sequences does. */
  method AgentLoops<T(==, !new)>(sequences: seq<seq<T>>) returns (looping: bool)
    ensures looping <==> exists k :: 0 <= k < |sequences| && Loops(sequences[k])
  {
    looping := false;
    for k := 0 to |sequences|
      invariant looping <==> exists j :: 0 <= j < k && Loops(sequences[j])
    {
      var found := SequenceLoops(sequences[k]);
      if found {
        looping := true;
      }
    }
  }

  /** Loops are judged per sequence: 49 identical calls are never a loop, and splitting the same
      calls over two sequences can hide one. */
  lemma {:induction false} SplittingHides<T(!new)>(call: T)
    ensures var half := seq(49, _ => call);
      && !Loops(half)
      && Loops(half + half)
  {
    var half := seq(49, _ => call);
    var whole := half + half;
    var window := Last(whole, WINDOW);
    assert window == seq(50, _ => call);
    Uniform(call, 50);
    assert Occurrences(window, call) >= REPEATS;
    assert HotWindow(whole, WINDOW);
  }

  lemma {:induction false} Uniform<T>(call: T, n: nat)
    ensures multiset(seq(n, _ => call))[call] == n
  {
    if n > 0 {
      Uniform(call, n - 1);
      assert seq(n, _ => call) == seq(n - 1, _ => call) + [call];
    }
  }
}
