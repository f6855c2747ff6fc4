/**
 * Decisions by id and by job, and the search for the root of a chain of repairs (clients/route_dispatch.py:350-381).
 */
module DecisionIndex {
  import opened Options

  datatype Decision = Decision(id: string, job: string, parent: string, attempt: int, ts: Option<int>, class_: string,
      caller: string)

  datatype Index = Index(byId: map<string, Decision>, byJob: map<string, seq<Decision>>) {
    ghost predicate Valid() {
      && (forall id :: id in byId ==> byId[id].job in byJob)
      && (forall job :: job in byJob ==>
           byJob[job] != [] && forall i :: 0 <= i < |byJob[job]| ==> byJob[job][i].job == job)
    }

    /** A reference is a decision id, or else the name of a job, whose last decision it means. */
    function Lookup(ref: string): (d: Option<Decision>)
      requires Valid()
      ensures d.Some? ==> d.value.job in byJob
    {
      if ref == "" then None
      else if ref in byId then Some(byId[ref])
      else if ref in byJob then Some(byJob[ref][|byJob[ref]| - 1])
      else None
    }

    /** The first decision of the job that a decision repairs. */
    function Parent(d: Decision): (p: Option<Decision>)
      requires Valid()
      ensures p.Some? ==> p.value.job in byJob && p.value.job != d.job && p.value == byJob[p.value.job][0]
    {
      var p := Lookup(d.parent);
      if p.None? || p.value.job == d.job then None else Some(byJob[p.value.job][0])
    }
  }

  /** What a reference means: nothing when empty, the decision of that id, else the last decision of that job. */
  lemma LookupIs(index: Index, ref: string)
    requires index.Valid()
    ensures ref == "" ==> index.Lookup(ref) == None
    ensures ref != "" && ref in index.byId ==> index.Lookup(ref) == Some(index.byId[ref])
    ensures ref != "" && ref !in index.byId && ref in index.byJob ==>
      index.byJob[ref] != [] && index.Lookup(ref) == Some(index.byJob[ref][|index.byJob[ref]| - 1])
    ensures ref !in index.byId && ref !in index.byJob ==> index.Lookup(ref) == None
  {
  }

  /** A decision repairs the first decision of the job its parent reference means, if that is another job. */
  lemma ParentIs(index: Index, d: Decision)
    requires index.Valid()
    ensures match index.Lookup(d.parent)
      case None => index.Parent(d) == None
      case Some(p) => index.Parent(d) == if p.job == d.job then None else Some(index.byJob[p.job][0])
  {
  }

  /** Each decision repairs the next, and no job comes twice. */
  ghost predicate Chain(index: Index, path: seq<Decision>) {
    && index.Valid() && path != []
    && (forall i :: 0 <= i < |path| - 1 ==> index.Parent(path[i]) == Some(path[i + 1]))
    && (forall i, j :: 0 <= i < j < |path| ==> path[i].job != path[j].job)
  }

  /** The chain cannot be followed further: its end repairs nothing, or a job already on the chain. */
  ghost predicate Ended(index: Index, path: seq<Decision>) {
    && Chain(index, path)
    && (index.Parent(path[|path| - 1]).Some? ==>
         exists i :: 0 <= i < |path| && path[i].job == index.Parent(path[|path| - 1]).value.job)
  }

  lemma ChainGrows(index: Index, path: seq<Decision>, next: Decision)
    requires Chain(index, path) && index.Parent(path[|path| - 1]) == Some(next)
    requires forall i :: 0 <= i < |path| ==> path[i].job != next.job
    ensures Chain(index, path + [next])
  {
  }

  /** Ends on any parent links, cyclic ones too. */
  method Root(index: Index, row: Decision) returns (root: Decision)
    requires index.Valid()
    ensures exists path :: Ended(index, path) && path[0] == row && path[|path| - 1] == root
  {
    var seen := {row.job};
    root := row;
    ghost var path := [row];
    while true
      invariant Chain(index, path) && path[0] == row && root == path[|path| - 1]
      invariant seen == set i | 0 <= i < |path| :: path[i].job
      decreases index.byJob.Keys - seen
    {
      var parent := index.Parent(root);
      if parent.None? || parent.value.job in seen {
        assert Ended(index, path);
        return;
      }
      ghost var left := index.byJob.Keys - seen;
      assert parent.value.job in left;
      ChainGrows(index, path, parent.value);
      seen, root, path := seen + {parent.value.job}, parent.value, path + [parent.value];
      assert path[|path| - 1].job == parent.value.job;
      assert forall i :: 0 <= i < |path| - 1 ==> path[i] == path[..|path| - 1][i];
    }
  }

  /** There is one way to follow the links, so the root found is the root. */
  lemma {:induction false} ChainsAgree(index: Index, p: seq<Decision>, q: seq<Decision>, i: nat)
    requires Chain(index, p) && Chain(index, q) && p[0] == q[0] && i < |p| && i < |q|
    ensures p[i] == q[i]
  {
    if i > 0 {
      ChainsAgree(index, p, q, i - 1);
      assert index.Parent(p[i - 1]) == Some(p[i - 1 + 1]) && index.Parent(q[i - 1]) == Some(q[i - 1 + 1]);
    }
  }

  ghost predicate Linked(index: Index, path: seq<Decision>) {
    index.Valid() && forall i :: 0 <= i < |path| - 1 ==> index.Parent(path[i]) == Some(path[i + 1])
  }

  lemma HasNext(index: Index, q: seq<Decision>, n: nat)
    requires Linked(index, q) && 0 < n <= |q|
    ensures n < |q| ==> index.Parent(q[n - 1]).Some?
  {
    if n < |q| {
      assert index.Parent(q[n - 1]) == Some(q[n - 1 + 1]);
    }
  }

  /** An ended chain that agrees with a longer one closes a cycle in it. */
  lemma LongerRepeats(index: Index, q: seq<Decision>, rest: seq<Decision>)
    requires Ended(index, q) && Linked(index, rest) && forall i :: 0 <= i < |q| && i < |rest| ==> q[i] == rest[i]
    ensures |q| < |rest| ==> exists i :: 0 <= i < |q| && rest[i].job == rest[|q|].job
  {
    if |q| < |rest| {
      assert index.Parent(rest[|q| - 1]) == Some(rest[|q| - 1 + 1]);
      var i :| 0 <= i < |q| && q[i].job == index.Parent(q[|q| - 1]).value.job;
      assert rest[i].job == rest[|q|].job;
    }
  }

  /** Every job on a chain that ends at a decision that repairs nothing has the same root. */
  lemma SameRoot(index: Index, p: seq<Decision>, q: seq<Decision>, k: nat)
    requires Ended(index, p) && Ended(index, q) && k < |p| && q[0] == p[k] && index.Parent(p[|p| - 1]).None?
    ensures q == p[k..]
  {
    var rest := p[k..];
    assert Chain(index, rest) by {
      forall i | 0 <= i < |rest| - 1 ensures index.Parent(rest[i]) == Some(rest[i + 1]) {
        assert index.Parent(p[k + i]) == Some(p[k + i + 1]);
      }
    }
    forall i: nat | i < |q| && i < |rest| ensures q[i] == rest[i] {
      ChainsAgree(index, q, rest, i);
    }
    LongerRepeats(index, q, rest);
    assert |q| >= |rest|;
    assert q[|rest| - 1] == p[|p| - 1];
    HasNext(index, q, |rest|);
  }
}
