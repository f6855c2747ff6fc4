/** Roll-ups of the token report (app/audit_allocation.py:18-56, app/audit_token_report.py:157-269).

  A value is a bag of counters; a counter that is absent counts zero. Every priced row is split over
  the agents of its session, and each piece is merged into one group per dimension and into every
  node on its path of the tree.
*/
module RollUp {
  import opened Proportion

  type Counters = map<string, real>

  const EMPTY: Counters := map[]

  function Get(v: Counters, c: string): real { if c in v then v[c] else 0.0 }

  /** `merge`: counter-wise addition. */
  function Merge(target: Counters, value: Counters): (merged: Counters)
    ensures forall c :: Get(merged, c) == Get(target, c) + Get(value, c)
  {
    map c | c in target.Keys + value.Keys :: Get(target, c) + Get(value, c)
  }

  // ---- the proportional split ----

  datatype Agent = Agent(key: string, seat: string, weight: real)

  const LEAD := Agent("lead", "lead", 0.0)

  datatype Part = Part(agent: Agent, piece: Counters)

  function Positive(agents: seq<Agent>): (positive: seq<Agent>)
    ensures forall a :: a in positive <==> a in agents && a.weight > 0.0
    ensures forall i :: 0 <= i < |positive| ==> positive[i].weight > 0.0
  {
    if agents == [] then []
    else (if agents[0].weight > 0.0 then [agents[0]] else []) + Positive(agents[1..])
  }

  function Weight(agents: seq<Agent>): real {
    if agents == [] then 0.0 else Weight(agents[..|agents| - 1]) + agents[|agents| - 1].weight
  }

  function PartSum(parts: seq<Part>, c: string): real {
    if parts == [] then 0.0 else PartSum(parts[..|parts| - 1], c) + Get(parts[|parts| - 1].piece, c)
  }

  /** The first agent of greatest weight goes last, the others keep their order. */
  function MoveLast(agents: seq<Agent>, largest: nat): seq<Agent>
    requires largest < |agents|
  {
    agents[..largest] + agents[largest + 1..] + [agents[largest]]
  }

  lemma MoveLastPermutes(agents: seq<Agent>, largest: nat)
    requires largest < |agents|
    ensures multiset(MoveLast(agents, largest)) == multiset(agents)
    ensures |MoveLast(agents, largest)| == |agents|
    ensures Weight(MoveLast(agents, largest)) == Weight(agents)
  {
    var before, chosen, after := agents[..largest], [agents[largest]], agents[largest + 1..];
    assert agents == before + chosen + after;
    WeightConcat(before + chosen, after);
    WeightConcat(before, chosen);
    WeightConcat(before + after, chosen);
    WeightConcat(before, after);
  }

  lemma {:induction false} WeightConcat(a: seq<Agent>, b: seq<Agent>)
    ensures Weight(a + b) == Weight(a) + Weight(b)
  {
    if b == [] {
      assert a + b == a;
    } else {
      assert (a + b)[..|a + b| - 1] == a + b[..|b| - 1];
      WeightConcat(a, b[..|b| - 1]);
    }
  }

  lemma {:induction false} WeightPositive(agents: seq<Agent>)
    requires forall i :: 0 <= i < |agents| ==> agents[i].weight > 0.0
    ensures agents != [] ==> Weight(agents) > 0.0
  {
    if |agents| > 1 {
      WeightPositive(agents[..|agents| - 1]);
    }
  }

  function Share(value: Counters, weight: real, total: real): (piece: Counters)
    requires total > 0.0
    ensures forall c :: Get(piece, c) == Portion(Get(value, c), weight, total)
  {
    map c | c in value :: Portion(value[c], weight, total)
  }

  function Minus(remainder: Counters, piece: Counters): (left: Counters)
    ensures forall c :: Get(left, c) == Get(remainder, c) - Get(piece, c)
  {
    map c | c in remainder.Keys + piece.Keys :: Get(remainder, c) - Get(piece, c)
  }

  function AgentsOf(parts: seq<Part>): seq<Agent> {
    seq(|parts|, i requires 0 <= i < |parts| => parts[i].agent)
  }

  /** Every part holds exactly its agent's share of every counter. */
  ghost predicate Proportional(parts: seq<Part>, value: Counters, total: real) {
    total > 0.0 && forall i, c :: 0 <= i < |parts| ==>
      Get(parts[i].piece, c) == Portion(Get(value, c), parts[i].agent.weight, total)
  }

  lemma AppendPart(parts: seq<Part>, part: Part)
    ensures forall c :: PartSum(parts + [part], c) == PartSum(parts, c) + Get(part.piece, c)
    ensures AgentsOf(parts + [part]) == AgentsOf(parts) + [part.agent]
  {
    assert (parts + [part])[..|parts|] == parts;
  }

  lemma AppendProportional(parts: seq<Part>, part: Part, value: Counters, total: real)
    requires Proportional(parts, value, total)
    requires forall c :: Get(part.piece, c) == Portion(Get(value, c), part.agent.weight, total)
    ensures Proportional(parts + [part], value, total)
  {
    hide Portion, Get;
  }

  /** The first of the agents of greatest weight. */
  ghost predicate FirstHeaviest(agents: seq<Agent>, k: nat) {
    && k < |agents| && (forall i :: 0 <= i < |agents| ==> agents[i].weight <= agents[k].weight)
    && forall i :: 0 <= i < k ==> agents[i].weight < agents[k].weight
  }

  /** Every agent of positive weight gets its exact share, the largest by subtraction, and nothing is lost. */
  method Allocate(value: Counters, agents: seq<Agent>) returns (parts: seq<Part>)
    ensures forall c :: PartSum(parts, c) == Get(value, c)
    ensures if Positive(agents) == [] then parts == [Part(LEAD, value)]
            else multiset(AgentsOf(parts)) == multiset(Positive(agents))
                 && Proportional(parts, value, Weight(Positive(agents)))
    ensures Positive(agents) != [] ==> LargestLast(Positive(agents), AgentsOf(parts))
  {
    var positive := Positive(agents);
    if positive == [] {
      AppendPart([], Part(LEAD, value));
      assert [] + [Part(LEAD, value)] == [Part(LEAD, value)];
      return [Part(LEAD, value)];
    }
    hide FirstHeaviest, LargestLast;
    var largest := Largest(positive);
    MoveLastPermutes(positive, largest);
    WeightPositive(positive);
    LastIsLargest(positive, largest);
    hide *;
    parts := SplitOver(value, MoveLast(positive, largest), Weight(positive));
  }

  /** `max`: the first of the greatest. */
  method Largest(agents: seq<Agent>) returns (largest: nat)
    requires agents != []
    ensures FirstHeaviest(agents, largest)
  {
    largest := 0;
    for i := 1 to |agents|
      invariant largest < i
      invariant forall j :: 0 <= j < i ==> agents[j].weight <= agents[largest].weight
      invariant forall j :: 0 <= j < largest ==> agents[j].weight < agents[largest].weight
    {
      if agents[i].weight > agents[largest].weight {
        largest := i;
      }
    }
  }

  /** The agents in order, but for the largest, which comes last. */
  ghost predicate LargestLast(agents: seq<Agent>, ordered: seq<Agent>) {
    exists k: nat :: FirstHeaviest(agents, k) && ordered == agents[..k] + agents[k + 1..] + [agents[k]]
  }

  lemma LastIsLargest(agents: seq<Agent>, k: nat)
    requires FirstHeaviest(agents, k)
    ensures k < |agents| && LargestLast(agents, MoveLast(agents, k))
  {
  }

  lemma NothingSplit(value: Counters, ordered: seq<Agent>, total: real)
    requires total > 0.0
    ensures AgentsOf([]) == ordered[..0] && Proportional([], value, total)
    ensures forall c :: Get(value, c) == Rest(Get(value, c), Weight(ordered[..0]), total)
    ensures forall c :: PartSum([], c) + Get(value, c) == Get(value, c)
  {
    forall c { RestShrinks(Get(value, c), 0.0, 0.0, total); }
  }

  lemma WeightStep(agents: seq<Agent>, i: nat)
    requires i < |agents|
    ensures Weight(agents[..i + 1]) == Weight(agents[..i]) + agents[i].weight
    ensures agents[..i + 1] == agents[..i] + [agents[i]]
  {
    assert agents[..i + 1][..i] == agents[..i];
  }

  /** Shares for all but the last agent, the running remainder for the last. */
  method SplitOver(value: Counters, ordered: seq<Agent>, total: real) returns (parts: seq<Part>)
    requires ordered != [] && total == Weight(ordered) && total > 0.0
    ensures AgentsOf(parts) == ordered
    ensures Proportional(parts, value, total)
    ensures forall c :: PartSum(parts, c) == Get(value, c)
  {
    hide *;
    var remainder := value;
    parts := [];
    var last := |ordered| - 1;
    NothingSplit(value, ordered, total);
    for i := 0 to last
      invariant AgentsOf(parts) == ordered[..i]
      invariant Proportional(parts, value, total)
      invariant forall c :: Get(remainder, c) == Rest(Get(value, c), Weight(ordered[..i]), total)
      invariant forall c :: PartSum(parts, c) + Get(remainder, c) == Get(value, c)
    {
      var part := Part(ordered[i], Share(value, ordered[i].weight, total));
      WeightStep(ordered, i);
      forall c { RestShrinks(Get(value, c), Weight(ordered[..i]), ordered[i].weight, total); }
      remainder := Minus(remainder, part.piece);
      AppendPart(parts, part);
      AppendProportional(parts, part, value, total);
      parts := parts + [part];
    }
    WeightStep(ordered, last);
    assert ordered[..last + 1] == ordered;
    forall c { RestShrinks(Get(value, c), Weight(ordered[..last]), ordered[last].weight, total); }
    AppendPart(parts, Part(ordered[last], remainder));
    AppendProportional(parts, Part(ordered[last], remainder), value, total);
    parts := parts + [Part(ordered[last], remainder)];
  }

  // ---- groups: dictionaries in insertion order ----

  datatype Entry = Entry(name: string, value: Counters)

  ghost function EntrySum(entries: seq<Entry>, c: string): real {
    if entries == [] then 0.0 else Get(entries[0].value, c) + EntrySum(entries[1..], c)
  }

  /** `setdefault(name, empty())` followed by `merge`. */
  function Upsert(entries: seq<Entry>, name: string, piece: Counters): seq<Entry> {
    if entries == [] then [Entry(name, Merge(EMPTY, piece))]
    else if entries[0].name == name then [Entry(name, Merge(entries[0].value, piece))] + entries[1..]
    else [entries[0]] + Upsert(entries[1..], name, piece)
  }

  lemma {:induction false} UpsertAdds(entries: seq<Entry>, name: string, piece: Counters, c: string)
    ensures EntrySum(Upsert(entries, name, piece), c) == EntrySum(entries, c) + Get(piece, c)
  {
    if entries == [] {
    } else if entries[0].name == name {
      assert Upsert(entries, name, piece)[1..] == entries[1..];
    } else {
      UpsertAdds(entries[1..], name, piece, c);
      assert Upsert(entries, name, piece)[1..] == Upsert(entries[1..], name, piece);
    }
  }

  ghost predicate Distinct(entries: seq<Entry>) {
    forall i, j :: 0 <= i < j < |entries| ==> entries[i].name != entries[j].name
  }

  lemma {:induction false} UpsertDistinct(entries: seq<Entry>, name: string, piece: Counters)
    requires Distinct(entries)
    ensures Distinct(Upsert(entries, name, piece))
    ensures forall e :: e in Upsert(entries, name, piece) ==> e.name == name || e in entries
  {
    if entries != [] && entries[0].name != name {
      UpsertDistinct(entries[1..], name, piece);
    }
  }

  // ---- the tree ----

  datatype Node = Node(name: string, value: Counters, children: seq<Node>)

  const LEVELS: seq<string> := ["provider", "account", "purpose", "lane", "seat", "model"]

  /** Merges the piece into the node and into one node per name of the path below it. */
  function Insert(node: Node, path: seq<string>, piece: Counters): Node
    decreases |path|, 0, 1
  {
    Node(node.name, Merge(node.value, piece), if path == [] then node.children
      else InsertBelow(node.children, path, piece))
  }

  function InsertBelow(children: seq<Node>, path: seq<string>, piece: Counters): seq<Node>
    requires path != []
    decreases |path|, 0, 0, |children|
  {
    if children == [] then [Insert(Node(path[0], EMPTY, []), path[1..], piece)]
    else if children[0].name == path[0] then [Insert(children[0], path[1..], piece)] + children[1..]
    else [children[0]] + InsertBelow(children[1..], path, piece)
  }

  ghost function ChildSum(children: seq<Node>, c: string): real {
    if children == [] then 0.0 else Get(children[0].value, c) + ChildSum(children[1..], c)
  }

  /** Every node above the leaves equals the sum of its children on counter `c`. */
  ghost predicate Balanced(node: Node, depth: nat, c: string)
    decreases depth
  {
    if depth == 0 then node.children == []
    else Get(node.value, c) == ChildSum(node.children, c)
         && forall i :: 0 <= i < |node.children| ==> Balanced(node.children[i], depth - 1, c)
  }

  lemma {:induction false} InsertBalanced(node: Node, path: seq<string>, piece: Counters, c: string)
    requires Balanced(node, |path|, c)
    ensures Balanced(Insert(node, path, piece), |path|, c)
    decreases |path|, 0, 1
  {
    if path != [] {
      InsertBelowBalanced(node.children, path, piece, c);
    }
  }

  lemma {:induction false} InsertBelowBalanced(children: seq<Node>, path: seq<string>, piece: Counters, c: string)
    requires path != []
    requires forall i :: 0 <= i < |children| ==> Balanced(children[i], |path| - 1, c)
    ensures ChildSum(InsertBelow(children, path, piece), c) == ChildSum(children, c) + Get(piece, c)
    ensures var after := InsertBelow(children, path, piece);
      forall i :: 0 <= i < |after| ==> Balanced(after[i], |path| - 1, c)
    decreases |path|, 0, 0, |children|
  {
    if children == [] {
      InsertBalanced(Node(path[0], EMPTY, []), path[1..], piece, c);
    } else if children[0].name == path[0] {
      InsertBalanced(children[0], path[1..], piece, c);
      assert InsertBelow(children, path, piece)[1..] == children[1..];
    } else {
      InsertBelowBalanced(children[1..], path, piece, c);
      assert InsertBelow(children, path, piece)[1..] == InsertBelow(children[1..], path, piece);
    }
  }
}
