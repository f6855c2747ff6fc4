/** Integer request counts (app/audit_token_report.py:414-433).

  Splitting leaves fractional request counts. `Counts` rounds each one and gives the difference to
  the target to the largest; `RepairTree` does this level by level from the root down.
*/
module CountRepair {
  import opened Proportion
  import opened RollUp
  import opened TokenReport

  const REQUESTS: string := "requests"

  /** Python's `round`: to the nearest integer, halves to the even one. */
  function Round(x: real): (n: int)
    ensures -0.5 <= x - n as real <= 0.5
    ensures x >= 0.0 ==> n >= 0
    ensures x.Floor as real == x ==> n == x.Floor
    ensures x - n as real == 0.5 || n as real - x == 0.5 ==> n % 2 == 0
  {
    var below := x.Floor;
    var rest := x - below as real;
    if rest < 0.5 then below
    else if rest > 0.5 then below + 1
    else if below % 2 == 0 then below
    else below + 1
  }

  function Sum(counts: seq<int>): int {
    if counts == [] then 0 else counts[0] + Sum(counts[1..])
  }

  function Rounded(values: seq<real>): (counts: seq<int>)
    ensures |counts| == |values|
    ensures forall i :: 0 <= i < |values| ==> counts[i] == Round(values[i])
  {
    seq(|values|, i requires 0 <= i < |values| => Round(values[i]))
  }

  /** Index of the first greatest element. */
  ghost predicate FirstMax(counts: seq<int>, m: nat) {
    && m < |counts|
    && (forall i :: 0 <= i < |counts| ==> counts[i] <= counts[m])
    && (forall i :: 0 <= i < m ==> counts[i] < counts[m])
  }

  method Counts(values: seq<real>, target: int) returns (counts: seq<int>, largest: nat)
    requires values != []
    ensures FirstMax(Rounded(values), largest)
    ensures counts == Rounded(values)[largest := Rounded(values)[largest] + target - Sum(Rounded(values))]
    ensures Sum(counts) == target
  {
    counts := [];
    for i := 0 to |values|
      invariant counts == Rounded(values)[..i]
    {
      counts := counts + [Round(values[i])];
    }
    assert Rounded(values)[..|values|] == Rounded(values);
    largest := 0;
    for i := 1 to |counts|
      invariant 0 <= largest < |counts|
      invariant forall j :: 0 <= j < i ==> counts[j] <= counts[largest]
      invariant forall j :: 0 <= j < largest ==> counts[j] < counts[largest]
    {
      if counts[i] > counts[largest] {
        largest := i;
      }
    }
    SumUpdate(counts, largest, counts[largest] + target - Sum(counts));
    counts := counts[largest := counts[largest] + target - Sum(counts)];
  }

  lemma {:induction false} SumUpdate(counts: seq<int>, i: nat, n: int)
    requires i < |counts|
    ensures Sum(counts[i := n]) == Sum(counts) - counts[i] + n
  {
    if i > 0 {
      SumUpdate(counts[1..], i - 1, n);
      assert counts[i := n][1..] == counts[1..][i - 1 := n];
    } else {
      assert counts[0 := n][1..] == counts[1..];
    }
  }

  /** Rounding moves a total by at most half a request per value. */
  lemma {:induction false} RoundingDrift(values: seq<real>)
    ensures RealSum(values) - |values| as real / 2.0 <= Sum(Rounded(values)) as real
    ensures Sum(Rounded(values)) as real <= RealSum(values) + |values| as real / 2.0
  {
    if values != [] {
      RoundingDrift(values[1..]);
      assert Rounded(values)[1..] == Rounded(values[1..]);
    }
  }

  /** When the shares add up to the target, every count is within half a request of its share, except the
      largest, which is within half a request per value. */
  lemma RepairIsClose(values: seq<real>, target: int, counts: seq<int>, largest: nat)
    requires values != [] && RealSum(values) == target as real
    requires FirstMax(Rounded(values), largest)
    requires counts == Rounded(values)[largest := Rounded(values)[largest] + target - Sum(Rounded(values))]
    ensures forall i :: 0 <= i < |values| && i != largest ==> -0.5 <= counts[i] as real - values[i] <= 0.5
    ensures -(|values| + 1) as real / 2.0 <= counts[largest] as real - values[largest] <= (|values| + 1) as real / 2.0
  {
    RoundingDrift(values);
  }

  /** Whole shares are left alone. */
  lemma {:induction false} WholeSharesUnchanged(values: seq<real>, target: int)
    requires RealSum(values) == target as real
    requires forall i :: 0 <= i < |values| ==> values[i].Floor as real == values[i]
    ensures Sum(Rounded(values)) == target
  {
    if values != [] {
      WholeSharesUnchanged(values[1..], target - values[0].Floor);
      assert Rounded(values)[1..] == Rounded(values[1..]);
    }
  }

  /** The repair can drive the largest count below zero: exactly when rounding overshoots the target by
      more than the largest rounded count. */
  lemma NegativeExactly(values: seq<real>, target: int, counts: seq<int>, largest: nat)
    requires values != [] && forall i :: 0 <= i < |values| ==> values[i] >= 0.0
    requires FirstMax(Rounded(values), largest)
    requires counts == Rounded(values)[largest := Rounded(values)[largest] + target - Sum(Rounded(values))]
    ensures (forall i :: 0 <= i < |counts| ==> counts[i] >= 0)
       <==> (exists i :: 0 <= i < |values| && Sum(Rounded(values)) - target <= Round(values[i]))
  {
    assert counts[largest] == Rounded(values)[largest] + target - Sum(Rounded(values));
    if i :| 0 <= i < |values| && Sum(Rounded(values)) - target <= Round(values[i]) {
      assert Rounded(values)[i] <= Rounded(values)[largest];
    }
    if forall i :: 0 <= i < |counts| ==> counts[i] >= 0 {
      assert Sum(Rounded(values)) - target <= Round(values[largest]);
    }
  }

  /** One share of at least half the number of values keeps every count nonnegative. */
  lemma BigShareIsSafe(values: seq<real>, target: int, counts: seq<int>, largest: nat, big: nat)
    requires RealSum(values) == target as real && forall i :: 0 <= i < |values| ==> values[i] >= 0.0
    requires big < |values| && values[big] >= (|values| + 1) as real / 2.0
    requires FirstMax(Rounded(values), largest)
    requires counts == Rounded(values)[largest := Rounded(values)[largest] + target - Sum(Rounded(values))]
    ensures forall i :: 0 <= i < |counts| ==> counts[i] >= 0
  {
    RoundingDrift(values);
    assert Sum(Rounded(values)) - target <= Round(values[big]);
    NegativeExactly(values, target, counts, largest);
  }

  /** Fifteen requests split evenly over ten agents: every share rounds up to 2 and the first becomes -3. */
  lemma EvenSplitGoesNegative()
    ensures var values := seq(10, _ => 1.5);
      && RealSum(values) == 15.0
      && FirstMax(Rounded(values), 0)
      && Rounded(values)[0] + 15 - Sum(Rounded(values)) == -3
  {
    Uniform(10);
  }

  lemma {:induction false} Uniform(n: nat)
    ensures RealSum(seq(n, _ => 1.5)) == 1.5 * n as real
    ensures Sum(Rounded(seq(n, _ => 1.5))) == 2 * n
  {
    if n > 0 {
      Uniform(n - 1);
      assert seq(n, _ => 1.5)[1..] == seq(n - 1, _ => 1.5);
      assert Rounded(seq(n, _ => 1.5))[1..] == Rounded(seq(n - 1, _ => 1.5));
    }
  }

  // ---- the tree ----

  /** A tree of integer request counts. */
  datatype CountNode = CountNode(name: string, requests: int, children: seq<CountNode>)

  function CountSum(children: seq<CountNode>): int {
    if children == [] then 0 else children[0].requests + CountSum(children[1..])
  }

  /** Every node that has children equals their sum, at every level. */
  ghost predicate Exact(node: CountNode) {
    && (node.children != [] ==> node.requests == CountSum(node.children))
    && forall child :: child in node.children ==> Exact(child)
  }

  /** Same names, same shape. */
  ghost predicate SameShape(node: Node, counted: CountNode) {
    && node.name == counted.name
    && |node.children| == |counted.children|
    && forall i :: 0 <= i < |node.children| ==> SameShape(node.children[i], counted.children[i])
  }

  /** The first children are settled, and what they leave is the sum of the other counts. */
  ghost predicate SettledUpTo(node: Node, counts: seq<int>, children: seq<CountNode>, requests: int) {
    && |children| <= |node.children| == |counts|
    && (forall j :: 0 <= j < |children| ==> Exact(children[j]) && SameShape(node.children[j], children[j]))
    && CountSum(children) + Sum(counts[|children|..]) == requests
  }

  /** A node whose own count is settled settles its children against it, then each child in turn. */
  method RepairTree(node: Node, requests: int) returns (counted: CountNode)
    ensures counted.requests == requests
    ensures Exact(counted) && SameShape(node, counted)
    decreases node
  {
    if node.children == [] {
      return CountNode(node.name, requests, []);
    }
    var shares := seq(|node.children|, i requires 0 <= i < |node.children| => Get(node.children[i].value, REQUESTS));
    var counts, _ := Counts(shares, requests);
    var children: seq<CountNode> := [];
    assert counts[0..] == counts;
    hide *;
    NoneSettled(node, counts, requests);
    for i := 0 to |node.children|
      invariant |children| == i && |counts| == |node.children| && SettledUpTo(node, counts, children, requests)
    {
      var child := RepairTree(node.children[i], counts[i]);
      OneSettled(node, counts, children, requests, child);
      children := children + [child];
    }
    AllSettled(node, counts, children, requests);
    counted := CountNode(node.name, requests, children);
  }

  lemma NoneSettled(node: Node, counts: seq<int>, requests: int)
    requires |counts| == |node.children| && Sum(counts) == requests
    ensures SettledUpTo(node, counts, [], requests)
  {
    assert counts[0..] == counts;
  }

  lemma OneSettled(node: Node, counts: seq<int>, children: seq<CountNode>, requests: int, child: CountNode)
    requires SettledUpTo(node, counts, children, requests) && |children| < |counts|
    requires Exact(child) && SameShape(node.children[|children|], child) && child.requests == counts[|children|]
    ensures SettledUpTo(node, counts, children + [child], requests)
  {
    hide Exact, SameShape, CountSum;
    SumSuffix(counts, |children|);
    CountSumAppend(children, child);
  }

  lemma AllSettled(node: Node, counts: seq<int>, children: seq<CountNode>, requests: int)
    requires SettledUpTo(node, counts, children, requests) && |children| == |node.children|
    ensures Exact(CountNode(node.name, requests, children))
    ensures SameShape(node, CountNode(node.name, requests, children))
  {
    assert counts[|children|..] == [];
  }

  lemma SumSuffix(counts: seq<int>, i: nat)
    requires i < |counts|
    ensures Sum(counts[i..]) == counts[i] + Sum(counts[i + 1..])
  {
    assert counts[i..][1..] == counts[i + 1..];
  }

  lemma {:induction false} CountSumAppend(children: seq<CountNode>, child: CountNode)
    ensures CountSum(children + [child]) == CountSum(children) + child.requests
  {
    if children != [] {
      assert (children + [child])[1..] == children[1..] + [child];
      CountSumAppend(children[1..], child);
    } else {
      assert ([child])[1..] == [];
    }
  }

  // ---- the whole report ----

  ghost function Shares(entries: seq<Entry>): seq<real> {
    seq(|entries|, i requires 0 <= i < |entries| => Get(entries[i].value, REQUESTS))
  }

  lemma {:induction false} SharesAddUp(entries: seq<Entry>)
    ensures RealSum(Shares(entries)) == EntrySum(entries, REQUESTS)
  {
    if entries != [] {
      assert Shares(entries)[1..] == Shares(entries[1..]);
      SharesAddUp(entries[1..]);
    }
  }

  /** The counts of one dimension add up to the report total and stay near their shares. */
  ghost predicate Settled(entries: seq<Entry>, counts: seq<int>, total: int) {
    && |counts| == |entries|
    && (entries != [] ==> Sum(counts) == total)
    && forall i :: 0 <= i < |counts| ==>
         -(|counts| + 1) as real / 2.0 <= counts[i] as real - Shares(entries)[i] <= (|counts| + 1) as real / 2.0
  }

  method RepairGroups(entries: seq<Entry>, total: int) returns (counts: seq<int>)
    requires EntrySum(entries, REQUESTS) == total as real
    ensures Settled(entries, counts, total)
  {
    if entries == [] {
      return [];
    }
    var shares := seq(|entries|, i requires 0 <= i < |entries| => Get(entries[i].value, REQUESTS));
    assert shares == Shares(entries);
    SharesAddUp(entries);
    var largest;
    counts, largest := Counts(shares, total);
    RepairIsClose(shares, total, counts, largest);
  }

  /** The counts of a list without a target of its own add up to its rounded sum. */
  ghost predicate Rounds(entries: seq<Entry>, counts: seq<int>) {
    && |counts| == |entries|
    && (entries != [] ==> Sum(counts) == Round(EntrySum(entries, REQUESTS)))
    && forall i :: 0 <= i < |counts| ==>
         -(|counts| + 2) as real / 2.0 <= counts[i] as real - Shares(entries)[i] <= (|counts| + 2) as real / 2.0
  }

  /** The session list, and the top of each waste list: with whole sums the counts settle as a dimension's do. */
  method RepairList(entries: seq<Entry>) returns (counts: seq<int>)
    ensures Rounds(entries, counts)
    ensures forall total: int :: EntrySum(entries, REQUESTS) == total as real ==> Settled(entries, counts, total)
  {
    if entries == [] {
      return [];
    }
    var shares := seq(|entries|, i requires 0 <= i < |entries| => Get(entries[i].value, REQUESTS));
    assert shares == Shares(entries);
    SharesAddUp(entries);
    var target := Round(RequestSum(entries));
    var largest;
    counts, largest := Counts(shares, target);
    assert Repaired(entries, counts, largest, target);
    hide *;
    RepairRounds(entries, counts, largest);
    forall total: int | EntrySum(entries, REQUESTS) == total as real ensures Settled(entries, counts, total) {
      RepairSettles(entries, counts, largest, total);
    }
  }

  /** What `Counts` leaves of the shares of a list without a target of its own. */
  ghost predicate Repaired(entries: seq<Entry>, counts: seq<int>, largest: nat, target: int) {
    && entries != [] && FirstMax(Rounded(Shares(entries)), largest) && Sum(counts) == target
    && counts ==
       Rounded(Shares(entries))[largest := Rounded(Shares(entries))[largest] + target - Sum(Rounded(Shares(entries)))]
  }

  lemma RepairRounds(entries: seq<Entry>, counts: seq<int>, largest: nat)
    requires Repaired(entries, counts, largest, Round(EntrySum(entries, REQUESTS)))
    ensures Rounds(entries, counts)
  {
    var shares := Shares(entries);
    var sum := RealSum(shares);
    SharesAddUp(entries);
    RoundingDrift(shares);
    assert -0.5 <= Round(sum) as real - sum <= 0.5;
    hide Round, Sum, RealSum, EntrySum;
  }

  lemma RepairSettles(entries: seq<Entry>, counts: seq<int>, largest: nat, total: int)
    requires Repaired(entries, counts, largest, Round(EntrySum(entries, REQUESTS)))
    requires EntrySum(entries, REQUESTS) == total as real
    ensures Settled(entries, counts, total)
  {
    hide Sum, RealSum, EntrySum;
    SharesAddUp(entries);
    RoundWhole(total);
    RepairIsClose(Shares(entries), total, counts, largest);
  }

  lemma RoundWhole(n: int)
    ensures Round(n as real) == n
  {
  }

  function RequestSum(entries: seq<Entry>): (sum: real)
    ensures sum == EntrySum(entries, REQUESTS)
  {
    if entries == [] then 0.0 else Get(entries[0].value, REQUESTS) + RequestSum(entries[1..])
  }

  /** Every dimension and every tree level of a conserved report ends with integers that add up to the total, and the
      sessions shown with integers that add up to their rounded sum. */
  method RepairReport(b: Books, dims: seq<string>, shown: seq<Entry>, total: int)
    returns (groups: map<string, seq<int>>, sessions: seq<int>, tree: CountNode)
    requires Conserved(b, REQUESTS) && Get(b.tree.value, REQUESTS) == total as real
    requires forall dim :: dim in dims ==> dim in b.groups
    ensures forall dim :: dim in dims ==> dim in groups && Settled(b.groups[dim], groups[dim], total)
    ensures Rounds(shown, sessions) && (shown == b.sessions ==> Settled(shown, sessions, total))
    ensures tree.requests == total && Exact(tree) && SameShape(b.tree, tree)
  {
    groups := map[];
    for i := 0 to |dims|
      invariant forall j :: 0 <= j < i ==> dims[j] in groups && Settled(b.groups[dims[j]], groups[dims[j]], total)
    {
      var counts := RepairGroups(b.groups[dims[i]], total);
      groups := groups[dims[i] := counts];
    }
    sessions := RepairList(shown);
    tree := RepairTree(b.tree, total);
  }
}
