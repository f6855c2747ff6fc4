/** Sorting by a key of a time and a text, as Python's `sorted(..., key=lambda e: (ts, id))` orders it. */
module Ordering {
  type Key = (int, string)

  predicate Less(a: string, b: string) {
    if a == "" then b != "" else b != "" && (a[0] < b[0] || (a[0] == b[0] && Less(a[1..], b[1..])))
  }

  predicate Before(a: Key, b: Key) { a.0 < b.0 || (a.0 == b.0 && Less(a.1, b.1)) }

  lemma {:induction false} LessTotal(a: string, b: string)
    ensures a != b ==> Less(a, b) || Less(b, a)
    ensures !(Less(a, b) && Less(b, a)) && !Less(a, a)
  {
    if a != "" && b != "" {
      LessTotal(a[1..], b[1..]);
      LessTotal(a[1..], a[1..]);
      assert a == [a[0]] + a[1..] && b == [b[0]] + b[1..];
    } else if a != "" {
      LessTotal(a[1..], a[1..]);
    }
  }

  lemma {:induction false} LessTransitive(a: string, b: string, c: string)
    requires Less(a, b) && Less(b, c)
    ensures Less(a, c)
  {
    if a != "" && a[0] == b[0] && b[0] == c[0] {
      LessTransitive(a[1..], b[1..], c[1..]);
    }
  }

  lemma BeforeTotal(a: Key, b: Key)
    ensures a != b ==> Before(a, b) || Before(b, a)
    ensures !(Before(a, b) && Before(b, a)) && !Before(a, a)
  {
    LessTotal(a.1, b.1);
    LessTotal(a.1, a.1);
  }

  lemma BeforeTransitive(a: Key, b: Key, c: Key)
    requires Before(a, b) && Before(b, c)
    ensures Before(a, c)
  {
    if a.0 == b.0 == c.0 {
      LessTransitive(a.1, b.1, c.1);
    }
  }

  predicate Ascending<T>(s: seq<T>, key: T -> Key) { forall i, j :: 0 <= i < j < |s| ==> Before(key(s[i]), key(s[j])) }

  function Elements<T(==)>(s: seq<T>): set<T> { set x | x in s }

  /** `s` lists the elements of `items`, each once, in the order of their keys. */
  ghost predicate Sorts<T>(items: set<T>, s: seq<T>, key: T -> Key) { Ascending(s, key) && items == Elements(s) }

  lemma NoElements<T>(s: seq<T>)
    ensures Elements(s) == {} <==> s == []
  {
    if s != [] {
      assert s[0] in Elements(s);
    }
  }

  /** There is only one such list: sorting forgets the order things came in. */
  lemma {:induction false} SortingIsUnique<T>(items: set<T>, s: seq<T>, t: seq<T>, key: T -> Key)
    requires Sorts(items, s, key) && Sorts(items, t, key)
    ensures s == t
    decreases |s|
  {
    if s == [] || t == [] {
      NoElements(s);
      NoElements(t);
    } else {
      FirstIsLeast(items, s, key, t[0]);
      FirstIsLeast(items, t, key, s[0]);
      BeforeTotal(key(s[0]), key(t[0]));
      SortsTail(items, s, key);
      SortsTail(items, t, key);
      SortingIsUnique(items - {s[0]}, s[1..], t[1..], key);
      assert s == [s[0]] + s[1..] && t == [t[0]] + t[1..];
    }
  }

  lemma FirstIsLeast<T>(items: set<T>, s: seq<T>, key: T -> Key, x: T)
    requires Sorts(items, s, key) && s != [] && x in items
    ensures x == s[0] || Before(key(s[0]), key(x))
  {
    assert x in s;
  }

  lemma SortsTail<T>(items: set<T>, s: seq<T>, key: T -> Key)
    requires Sorts(items, s, key) && s != []
    ensures Sorts(items - {s[0]}, s[1..], key)
  {
    BeforeTotal(key(s[0]), key(s[0]));
    assert forall i :: 1 <= i < |s| ==> Before(key(s[0]), key(s[i]));
    assert s == [s[0]] + s[1..];
  }

  lemma PutIn<T>(s: seq<T>, i: nat, x: T, key: T -> Key)
    requires Ascending(s, key) && i <= |s|
    requires forall j :: 0 <= j < i ==> Before(key(s[j]), key(x))
    requires forall j :: i <= j < |s| ==> Before(key(x), key(s[j]))
    ensures Ascending(s[..i] + [x] + s[i..], key)
  {
    hide Before;
  }

  lemma PutElements<T>(s: seq<T>, i: nat, x: T)
    requires i <= |s|
    ensures Elements(s[..i] + [x] + s[i..]) == Elements(s) + {x}
  {
    assert s == s[..i] + s[i..];
  }

  /** What comes before an element before `x` comes before `x`. */
  lemma AllBefore<T>(s: seq<T>, i: nat, x: T, key: T -> Key)
    requires Ascending(s, key) && i <= |s| && (i > 0 ==> Before(key(s[i - 1]), key(x)))
    ensures forall j :: 0 <= j < i ==> Before(key(s[j]), key(x))
  {
    forall j | 0 <= j < i ensures Before(key(s[j]), key(x)) {
      if j < i - 1 {
        BeforeTransitive(key(s[j]), key(s[i - 1]), key(x));
      }
    }
  }

  method Insert<T(==)>(s: seq<T>, x: T, key: T -> Key) returns (r: seq<T>)
    requires Ascending(s, key) && forall y :: y in s ==> key(y) != key(x)
    ensures Ascending(r, key) && Elements(r) == Elements(s) + {x}
  {
    hide Before, Elements;
    var i := |s|;
    while i > 0 && Before(key(x), key(s[i - 1]))
      invariant 0 <= i <= |s| && forall j :: i <= j < |s| ==> Before(key(x), key(s[j]))
    {
      i := i - 1;
    }
    if i > 0 {
      assert s[i - 1] in s;
      BeforeTotal(key(s[i - 1]), key(x));
    }
    AllBefore(s, i, x, key);
    PutIn(s, i, x, key);
    PutElements(s, i, x);
    r := s[..i] + [x] + s[i..];
  }

  method Sort<T(==)>(items: seq<T>, key: T -> Key) returns (s: seq<T>)
    requires forall i, j :: 0 <= i < j < |items| ==> key(items[i]) != key(items[j])
    ensures Sorts(Elements(items), s, key)
  {
    s := [];
    for i := 0 to |items|
      invariant Sorts(Elements(items[..i]), s, key)
    {
      forall y | y in s ensures key(y) != key(items[i]) {
        assert y in Elements(items[..i]);
        var j :| 0 <= j < i && items[j] == y;
      }
      assert items[..i + 1] == items[..i] + [items[i]];
      s := Insert(s, items[i], key);
    }
    assert items[..|items|] == items;
  }
}
