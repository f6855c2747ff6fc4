/** The token report (app/audit_token_report.py:157-269, 335-378).

  `Report.Build` prices, splits and merges rows into groups, sessions and a tree.
*/
module TokenReport {
  import opened RollUp

  const DIMS: seq<string> :=
    ["account", "purpose", "lane", "seat", "kind", "model", "effort", "provider", "useragent", "pane", "session"]

  /** One priced receipt: its financial key (provider, session, account, model, ...) and its counters. */
  datatype Row = Row(key: string, value: Counters)

  /** The labels are arbitrary: the split and the merge never look inside them. */
  type Labels = (string, string, Agent) -> string

  function Path(labels: Labels, key: string, agent: Agent): (path: seq<string>)
    ensures |path| == |LEVELS|
  {
    seq(|LEVELS|, i requires 0 <= i < |LEVELS| => labels(LEVELS[i], key, agent))
  }

  /** The report's accumulators: one dictionary of groups per dimension, the sessions, the tree. */
  datatype Books = Books(groups: map<string, seq<Entry>>, sessions: seq<Entry>, tree: Node)

  const BLANK := Books(map dim | dim in DIMS :: [], [], Node("all", EMPTY, []))

  /** On counter `c`: every dimension's groups and the sessions add up to the root, and the tree is balanced. */
  ghost predicate Conserved(b: Books, c: string) {
    && (forall dim :: dim in b.groups ==> EntrySum(b.groups[dim], c) == Get(b.tree.value, c))
    && EntrySum(b.sessions, c) == Get(b.tree.value, c)
    && Balanced(b.tree, |LEVELS|, c)
  }

  /** Merges one agent's piece of a row into its group in every dimension, its session and its tree path. */
  function AddPiece(b: Books, labels: Labels, key: string, part: Part): Books {
    Books(map dim | dim in b.groups :: Upsert(b.groups[dim], labels(dim, key, part.agent), part.piece),
          Upsert(b.sessions, labels("sessions", key, part.agent), part.piece),
          Insert(b.tree, Path(labels, key, part.agent), part.piece))
  }

  lemma AddPieceConserves(b: Books, labels: Labels, key: string, part: Part, c: string)
    requires Conserved(b, c)
    ensures Conserved(AddPiece(b, labels, key, part), c)
    ensures Get(AddPiece(b, labels, key, part).tree.value, c) == Get(b.tree.value, c) + Get(part.piece, c)
    ensures AddPiece(b, labels, key, part).groups.Keys == b.groups.Keys
  {
    var after := AddPiece(b, labels, key, part);
    forall dim | dim in b.groups
      ensures EntrySum(after.groups[dim], c) == EntrySum(b.groups[dim], c) + Get(part.piece, c)
    {
      UpsertAdds(b.groups[dim], labels(dim, key, part.agent), part.piece, c);
    }
    UpsertAdds(b.sessions, labels("sessions", key, part.agent), part.piece, c);
    InsertBalanced(b.tree, Path(labels, key, part.agent), part.piece, c);
  }

  ghost predicate AllConserved(b: Books) { forall c :: Conserved(b, c) }

  ghost function RowSum(rows: seq<Row>, c: string): real {
    if rows == [] then 0.0 else RowSum(rows[..|rows| - 1], c) + Get(rows[|rows| - 1].value, c)
  }

  class Report {
    var totals: Counters
    var groups: map<string, seq<Entry>>
    var sessions: seq<Entry>
    var tree: Node

    ghost function State(): Books
      reads this
    {
      Books(groups, sessions, tree)
    }

    constructor ()
      ensures totals == EMPTY && State() == BLANK
    {
      totals := EMPTY;
      groups := map dim | dim in DIMS :: [];
      sessions := [];
      tree := Node("all", EMPTY, []);
    }

    /** Splits one merged row over its agents and merges every piece. */
    method AddEntry(entry: Entry, agents: seq<Agent>, labels: Labels)
      requires AllConserved(State())
      modifies this`groups, this`sessions, this`tree
      ensures AllConserved(State()) && groups.Keys == old(groups.Keys)
      ensures forall c :: Get(tree.value, c) == Get(old(tree.value), c) + Get(entry.value, c)
    {
      hide Conserved, Get, AddPiece;
      var parts := Allocate(entry.value, agents);
      assert parts[..0] == [];
      for j := 0 to |parts|
        invariant AllConserved(State()) && groups.Keys == old(groups.Keys)
        invariant forall c :: Get(tree.value, c) == Get(old(tree.value), c) + PartSum(parts[..j], c)
      {
        assert parts[..j + 1][..j] == parts[..j];
        forall c ensures Conserved(State(), c) { }
        forall c { AddPieceConserves(State(), labels, entry.name, parts[j], c); }
        MergePiece(labels, entry.name, parts[j]);
      }
      assert parts[..|parts|] == parts;
    }

    method MergePiece(labels: Labels, key: string, part: Part)
      modifies this`groups, this`sessions, this`tree
      ensures State() == AddPiece(old(State()), labels, key, part)
      ensures groups.Keys == old(groups.Keys)
    {
      groups := map dim | dim in groups :: Upsert(groups[dim], labels(dim, key, part.agent), part.piece);
      sessions := Upsert(sessions, labels("sessions", key, part.agent), part.piece);
      tree := Insert(tree, Path(labels, key, part.agent), part.piece);
    }

    /** First pass: totals, and the rows merged by financial key. */
    method Price(rows: seq<Row>) returns (financial: seq<Entry>)
      requires totals == EMPTY
      modifies this`totals
      ensures forall c :: Get(totals, c) == RowSum(rows, c) == EntrySum(financial, c)
    {
      financial := [];
      assert rows[..0] == [];
      for i := 0 to |rows|
        invariant forall c :: Get(totals, c) == RowSum(rows[..i], c) == EntrySum(financial, c)
      {
        assert rows[..i + 1][..i] == rows[..i];
        forall c { UpsertAdds(financial, rows[i].key, rows[i].value, c); }
        totals := Merge(totals, rows[i].value);
        financial := Upsert(financial, rows[i].key, rows[i].value);
      }
      assert rows[..|rows|] == rows;
    }

    /**
     * Every counter of every row reaches the totals, every dimension, the sessions and every tree level exactly once.
     */
    method Build(rows: seq<Row>, agentsOf: string -> seq<Agent>, labels: Labels)
      requires totals == EMPTY && State() == BLANK
      modifies this
      ensures groups.Keys == (set dim | dim in DIMS)
      ensures forall c :: Get(totals, c) == RowSum(rows, c) == Get(tree.value, c)
      ensures AllConserved(State())
    {
      var financial := Price(rows);
      for i := 0 to |financial|
        invariant AllConserved(State()) && groups.Keys == (set dim | dim in DIMS)
        invariant forall c :: Get(totals, c) == RowSum(rows, c)
        invariant forall c :: Get(tree.value, c) + EntrySum(financial[i..], c) == Get(totals, c)
      {
        hide *;
        DropFirst(financial, i);
        AddEntry(financial[i], agentsOf(financial[i].name), labels);
      }
    }
  }

  lemma DropFirst(entries: seq<Entry>, i: nat)
    requires i < |entries|
    ensures forall c :: EntrySum(entries[i..], c) == Get(entries[i].value, c) + EntrySum(entries[i + 1..], c)
  {
    assert entries[i..][1..] == entries[i + 1..];
  }
}
