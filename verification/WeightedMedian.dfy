/** The weighted median of output sizes (app/audit_routing.py:42-60).

  Each part is a sorted list with an integer weight; the answer is the median of the long list
  that holds every part `weight` times over. The code never builds that list: it searches the
  value range. The long list, sorted, is the reference here.
*/
module WeightedMedian {

  datatype Part = Part(values: seq<int>, weight: nat)

  ghost predicate Sorted(s: seq<int>) { forall i, j :: 0 <= i <= j < |s| ==> s[i] <= s[j] }

  /** Python's `bisect_right` on a sorted list: the number of elements at most `v`. */
  function CountLE(s: seq<int>, v: int): nat {
    if s == [] then 0 else (if s[0] <= v then 1 else 0) + CountLE(s[1..], v)
  }

  function WeightLE(parts: seq<Part>, v: int): nat {
    if parts == [] then 0 else CountLE(parts[0].values, v) * parts[0].weight + WeightLE(parts[1..], v)
  }

  function Total(parts: seq<Part>): nat {
    if parts == [] then 0 else |parts[0].values| * parts[0].weight + Total(parts[1..])
  }

  // ---- the reference: repeat, concatenate, sort, take the middle ----

  ghost function Repeat(values: seq<int>, weight: nat): seq<int> {
    if weight == 0 then [] else values + Repeat(values, weight - 1)
  }

  ghost function Expand(parts: seq<Part>): seq<int> {
    if parts == [] then [] else Repeat(parts[0].values, parts[0].weight) + Expand(parts[1..])
  }

  ghost function Insert(x: int, s: seq<int>): seq<int> {
    if s == [] || x <= s[0] then [x] + s else [s[0]] + Insert(x, s[1..])
  }

  ghost function Sort(s: seq<int>): seq<int> {
    if s == [] then [] else Insert(s[0], Sort(s[1..]))
  }

  ghost function Median(s: seq<int>): real {
    if |s| == 0 then 0.0
    else if |s| % 2 == 1 then s[|s| / 2] as real
    else (s[|s| / 2 - 1] + s[|s| / 2]) as real / 2.0
  }

  lemma {:induction false} InsertAdds(x: int, s: seq<int>)
    ensures multiset(Insert(x, s)) == multiset([x]) + multiset(s)
  {
    if s != [] && s[0] < x {
      InsertAdds(x, s[1..]);
      assert s == [s[0]] + s[1..];
    }
  }

  lemma {:induction false} InsertKeepsOrder(x: int, s: seq<int>)
    requires Sorted(s)
    ensures Sorted(Insert(x, s))
  {
    if s != [] && s[0] < x {
      InsertKeepsOrder(x, s[1..]);
      InsertAdds(x, s[1..]);
      var rest := Insert(x, s[1..]);
      forall j | 0 <= j < |rest| ensures s[0] <= rest[j] {
        assert rest[j] in multiset(rest);
      }
    }
  }

  /** The reference list is a sorted permutation of the expanded parts. */
  lemma {:induction false} SortSorts(s: seq<int>)
    ensures Sorted(Sort(s)) && multiset(Sort(s)) == multiset(s) && |Sort(s)| == |s|
  {
    if s != [] {
      SortSorts(s[1..]);
      InsertKeepsOrder(s[0], Sort(s[1..]));
      InsertAdds(s[0], Sort(s[1..]));
      assert s == [s[0]] + s[1..];
      assert |multiset(Sort(s))| == |multiset(s)|;
    }
  }

  // ---- counting in the parts is counting in the reference list ----

  lemma {:induction false} CountConcat(a: seq<int>, b: seq<int>, v: int)
    ensures CountLE(a + b, v) == CountLE(a, v) + CountLE(b, v)
  {
    if a == [] {
      assert a + b == b;
    } else {
      assert (a + b)[1..] == a[1..] + b;
      CountConcat(a[1..], b, v);
    }
  }

  lemma {:induction false} CountRepeat(values: seq<int>, weight: nat, v: int)
    ensures CountLE(Repeat(values, weight), v) == CountLE(values, v) * weight
    ensures |Repeat(values, weight)| == |values| * weight
    ensures forall x :: x in Repeat(values, weight) ==> x in values
  {
    if weight > 0 {
      CountRepeat(values, weight - 1, v);
      CountConcat(values, Repeat(values, weight - 1), v);
      assert CountLE(values, v) * weight == CountLE(values, v) * (weight - 1) + CountLE(values, v);
      assert |values| * weight == |values| * (weight - 1) + |values|;
    }
  }

  lemma {:induction false} CountExpand(parts: seq<Part>, v: int)
    ensures CountLE(Expand(parts), v) == WeightLE(parts, v)
    ensures |Expand(parts)| == Total(parts)
  {
    if parts != [] {
      CountRepeat(parts[0].values, parts[0].weight, v);
      CountExpand(parts[1..], v);
      CountConcat(Repeat(parts[0].values, parts[0].weight), Expand(parts[1..]), v);
    }
  }

  lemma {:induction false} CountInsert(x: int, s: seq<int>, v: int)
    ensures CountLE(Insert(x, s), v) == CountLE(s, v) + if x <= v then 1 else 0
  {
    if s == [] || x <= s[0] {
      assert ([x] + s)[1..] == s;
    } else {
      CountInsert(x, s[1..], v);
      assert ([s[0]] + Insert(x, s[1..]))[1..] == Insert(x, s[1..]);
    }
  }

  lemma {:induction false} CountSort(s: seq<int>, v: int)
    ensures CountLE(Sort(s), v) == CountLE(s, v)
  {
    if s != [] {
      CountSort(s[1..], v);
      CountInsert(s[0], Sort(s[1..]), v);
    }
  }

  /** In a sorted list, more than `k` elements are at most `v` exactly when element `k` is. */
  lemma {:induction false} RankOfValue(s: seq<int>, k: nat, v: int)
    requires Sorted(s) && k < |s|
    ensures CountLE(s, v) > k <==> s[k] <= v
  {
    if s[0] <= v {
      if k > 0 {
        RankOfValue(s[1..], k - 1, v);
      }
    } else {
      NoneBelow(s, v);
    }
  }

  lemma {:induction false} NoneBelow(s: seq<int>, v: int)
    requires forall i :: 0 <= i < |s| ==> s[i] > v
    ensures CountLE(s, v) == 0
  {
    if s != [] {
      NoneBelow(s[1..], v);
    }
  }

  lemma RankInParts(parts: seq<Part>, k: nat, v: int)
    requires k < Total(parts)
    ensures |Sort(Expand(parts))| == Total(parts)
    ensures WeightLE(parts, v) > k <==> Sort(Expand(parts))[k] <= v
  {
    SortSorts(Expand(parts));
    CountExpand(parts, v);
    CountSort(Expand(parts), v);
    RankOfValue(Sort(Expand(parts)), k, v);
  }

  lemma {:induction false} ExpandedFrom(parts: seq<Part>, x: int)
    requires x in Expand(parts)
    ensures exists p :: p in parts && x in p.values
  {
    CountRepeat(parts[0].values, parts[0].weight, x);
    if x in Repeat(parts[0].values, parts[0].weight) {
      assert parts[0] in parts && x in parts[0].values;
    } else {
      ExpandedFrom(parts[1..], x);
    }
  }

  /** Element `k` of the reference list lies between the least first and the greatest last element. */
  lemma KthInRange(parts: seq<Part>, k: nat, low: int, high: int)
    requires k < Total(parts)
    requires forall p :: p in parts ==> Sorted(p.values)
    requires forall p :: p in parts && p.values != [] ==> low <= p.values[0] && p.values[|p.values| - 1] <= high
    ensures |Sort(Expand(parts))| == Total(parts)
    ensures low <= Sort(Expand(parts))[k] <= high
  {
    var s := Sort(Expand(parts));
    SortSorts(Expand(parts));
    CountExpand(parts, 0);
    assert s[k] in multiset(s);
    ExpandedFrom(parts, s[k]);
  }

  // ---- the code ----

  /** Binary search on the value range for element `k` of the list that is never built. */
  method Kth(parts: seq<Part>, k: nat) returns (low: int)
    requires forall p :: p in parts ==> Sorted(p.values)
    requires k < Total(parts)
    ensures |Sort(Expand(parts))| == Total(parts)
    ensures low == Sort(Expand(parts))[k]
  {
    ghost var s := Sort(Expand(parts));
    var high;
    low, high := Range(parts);
    KthInRange(parts, k, low, high);
    while low < high
      invariant low <= s[k] <= high
      decreases high - low
    {
      var middle := (low + high) / 2;
      RankInParts(parts, k, middle);
      if WeightLE(parts, middle) > k {
        high := middle;
      } else {
        low := middle + 1;
      }
    }
  }

  /** The least first element and the greatest last element of the nonempty parts. */
  method Range(parts: seq<Part>) returns (low: int, high: int)
    requires Total(parts) > 0
    ensures forall p :: p in parts && p.values != [] ==> low <= p.values[0] && p.values[|p.values| - 1] <= high
    ensures exists p :: p in parts && p.values != [] && low == p.values[0]
    ensures exists p :: p in parts && p.values != [] && high == p.values[|p.values| - 1]
  {
    var seen := false;
    low, high := 0, 0;
    ghost var least, greatest := 0, 0;
    for i := 0 to |parts|
      invariant !seen ==> forall j :: 0 <= j < i ==> parts[j].values == []
      invariant seen ==> least < i && parts[least].values != [] && low == parts[least].values[0]
      invariant seen ==>
        greatest < i && parts[greatest].values != [] && high == parts[greatest].values[|parts[greatest].values| - 1]
      invariant seen ==> 0 <= least && 0 <= greatest
      invariant forall j :: 0 <= j < i && parts[j].values != [] ==>
        low <= parts[j].values[0] && parts[j].values[|parts[j].values| - 1] <= high
    {
      var values := parts[i].values;
      if values != [] {
        if !seen || values[0] < low { low := values[0]; least := i; }
        if !seen || values[|values| - 1] > high { high := values[|values| - 1]; greatest := i; }
        seen := true;
      }
    }
    if !seen {
      EmptyTotal(parts);
      assert false;
    }
    assert parts[least] in parts && parts[greatest] in parts;
  }

  lemma {:induction false} EmptyTotal(parts: seq<Part>)
    requires forall j :: 0 <= j < |parts| ==> parts[j].values == []
    ensures Total(parts) == 0
  {
    if parts != [] {
      EmptyTotal(parts[1..]);
    }
  }

  /** The search gives the median of the repeated, concatenated and sorted list, for even and odd totals. */
  method ComputeWeightedMedian(parts: seq<Part>) returns (median: real)
    requires forall p :: p in parts ==> Sorted(p.values)
    ensures median == Median(Sort(Expand(parts)))
  {
    SortSorts(Expand(parts));
    CountExpand(parts, 0);
    var total := Total(parts);
    if total == 0 {
      return 0.0;
    }
    if total % 2 == 1 {
      var middle := Kth(parts, total / 2);
      return middle as real;
    }
    var below := Kth(parts, total / 2 - 1);
    var above := Kth(parts, total / 2);
    return (below + above) as real / 2.0;
  }
}
