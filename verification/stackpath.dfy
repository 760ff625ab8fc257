// The analyser's dynamic program over the call graph: the most expensive call chain.
module StackPath {
  import opened CallGraph
  import opened Sequences

  datatype Caller = Nobody | By(n: Name)

  function Last(p: seq<Name>): Name
    requires p != []
  {
    p[|p| - 1]
  }

  /** `chain[v]` is a most expensive chain ending in `v`, recorded through predecessors. */
  predicate Recorded(frames: map<Name, nat>, g: Adjacency, maxCost: map<Name, nat>, pred: map<Name, Caller>, chain: map<Name, seq<Name>>)
  {
    && pred.Keys == maxCost.Keys == chain.Keys
    && forall v :: v in maxCost ==>
         && IsPath(g, chain[v]) && Last(chain[v]) == v && Cost(frames, chain[v]) == maxCost[v]
         && match pred[v]
            case Nobody => chain[v] == [v]
            case By(u) => u in maxCost && chain[v] == chain[u] + [v]
  }

  /** No chain that ends in a recorded node costs more than recorded. */
  ghost predicate Optimal(frames: map<Name, nat>, g: Adjacency, maxCost: map<Name, nat>)
  {
    forall p :: IsPath(g, p) && Last(p) in maxCost ==> Cost(frames, p) <= maxCost[Last(p)]
  }

  lemma CostSnoc(frames: map<Name, nat>, p: seq<Name>, v: Name)
    ensures Cost(frames, p + [v]) == Cost(frames, p) + Frame(frames, v)
  {
    assert (p + [v])[..|p|] == p;
  }

  /** One of the most expensive members. */
  method BestOf(candidates: set<Name>, maxCost: map<Name, nat>) returns (best: Name)
    requires candidates != {} && forall c :: c in candidates ==> c in maxCost
    ensures best in candidates && forall c :: c in candidates ==> maxCost[c] <= maxCost[best]
  {
    best :| best in candidates;
    var todo := candidates - {best};
    while todo != {}
      invariant todo <= candidates && best in candidates
      invariant forall c :: c in candidates && c !in todo ==> maxCost[c] <= maxCost[best]
    {
      var c :| c in todo;
      todo := todo - {c};
      if maxCost[c] > maxCost[best] { best := c; }
    }
  }

  function Below(maxCost: map<Name, nat>, caller: Caller): nat
  {
    if caller.By? && caller.n in maxCost then maxCost[caller.n] else 0
  }

  function Front(chain: map<Name, seq<Name>>, caller: Caller): seq<Name>
  {
    if caller.By? && caller.n in chain then chain[caller.n] else []
  }

  /** `cs` are the callers of `v`, all recorded, and `caller` is the most expensive one. */
  ghost predicate Chosen(g: Adjacency, maxCost: map<Name, nat>, v: Name, cs: set<Name>, caller: Caller)
  {
    && (forall u :: u in cs <==> v in Adjacent(g, u)) && cs <= maxCost.Keys
    && match caller
       case Nobody => cs == {}
       case By(u) => u in cs && forall c :: c in cs ==> maxCost[c] <= maxCost[u]
  }

  /** Recording one more node. */
  lemma RecordNext(frames: map<Name, nat>, g: Adjacency, maxCost: map<Name, nat>, pred: map<Name, Caller>, chain: map<Name, seq<Name>>,
                   v: Name, cs: set<Name>, caller: Caller)
    requires Recorded(frames, g, maxCost, pred, chain) && v !in maxCost && Chosen(g, maxCost, v, cs, caller)
    ensures Recorded(frames, g, maxCost[v := Below(maxCost, caller) + Frame(frames, v)], pred[v := caller],
                     chain[v := Front(chain, caller) + [v]])
  {
    hide Adjacent, Frame, Cost, IsPath;
    var front := Front(chain, caller);
    CostSnoc(frames, front, v);
    if caller.By? {
      PathSnoc(g, front, v);
    } else {
      OneNode(g, v);
      NoCost(frames);
      assert [] + [v] == [v];
    }
  }

  lemma OptimalNext(frames: map<Name, nat>, g: Adjacency, maxCost: map<Name, nat>, v: Name, cs: set<Name>, caller: Caller)
    requires Optimal(frames, g, maxCost) && v !in maxCost && Chosen(g, maxCost, v, cs, caller)
    ensures Optimal(frames, g, maxCost[v := Below(maxCost, caller) + Frame(frames, v)])
  {
    hide Adjacent, Frame, Cost;
    var below := Below(maxCost, caller);
    var maxCost' := maxCost[v := below + Frame(frames, v)];
    forall p | IsPath(g, p) && Last(p) in maxCost' ensures Cost(frames, p) <= maxCost'[Last(p)] {
      if Last(p) == v { EndsHere(frames, g, maxCost, v, cs, below, p); }
    }
  }

  lemma NoCost(frames: map<Name, nat>)
    ensures Cost(frames, []) == 0
  {
  }

  lemma EndsHere(frames: map<Name, nat>, g: Adjacency, maxCost: map<Name, nat>, v: Name, cs: set<Name>, below: nat, p: seq<Name>)
    requires Optimal(frames, g, maxCost) && IsPath(g, p) && Last(p) == v
    requires forall u :: u in cs <==> v in Adjacent(g, u)
    requires cs <= maxCost.Keys && forall c :: c in cs ==> maxCost[c] <= below
    ensures Cost(frames, p) <= below + Frame(frames, v)
  {
    var q := p[..|p| - 1];
    assert p == q + [v];
    CostSnoc(frames, q, v);
    if q != [] {
      PathSlice(g, p, 0, |p| - 1);
      assert p[0..|p| - 1] == q;
      assert p[|p| - 2 + 1] in Adjacent(g, p[|p| - 2]);
      assert Last(q) in cs;
    }
  }

  /** Callers of the next node of a topological order are the recorded ones. */
  lemma CallersRecorded(callees: Adjacency, callers: Adjacency, nodes: set<Name>, order: seq<Name>, k: nat, u: Name)
    requires Consistent(callees, callers, nodes) && Topological(callees, nodes, order) && k < |order|
    ensures u in Adjacent(callers, order[k]) <==> order[k] in Adjacent(callees, u)
    ensures order[k] in Adjacent(callees, u) ==> u in Elements(order[..k])
  {
    assert Calls(callees, u, order[k]) <==> Calls(callers, order[k], u);
    if order[k] in Adjacent(callees, u) {
      assert u in nodes;
      assert u in order[..k];
      InElements(order[..k]);
    }
  }

  /** The most expensive recorded caller, if there is one. */
  method PickCaller(candidates: set<Name>, maxCost: map<Name, nat>, ghost g: Adjacency, ghost v: Name) returns (caller: Caller)
    requires (forall u :: u in candidates <==> v in Adjacent(g, u)) && candidates <= maxCost.Keys
    ensures Chosen(g, maxCost, v, candidates, caller)
  {
    if candidates == {} { return Nobody; }
    var best := BestOf(candidates, maxCost);
    caller := By(best);
  }

  method Fill(frames: map<Name, nat>, callees: Adjacency, callers: Adjacency, nodes: set<Name>, order: seq<Name>)
    returns (maxCost: map<Name, nat>, pred: map<Name, Caller>, ghost chain: map<Name, seq<Name>>)
    requires Consistent(callees, callers, nodes) && Topological(callees, nodes, order)
    ensures maxCost.Keys == Elements(order)
    ensures Recorded(frames, callees, maxCost, pred, chain) && Optimal(frames, callees, maxCost)
  {
    hide Adjacent, Frame, Cost, IsPath, Consistent, Recorded, Optimal, Chosen, Elements;
    maxCost, pred, chain := map[], map[], map[];
    NothingRecorded(frames, callees);
    assert order[..0] == [];
    for k := 0 to |order|
      invariant maxCost.Keys == Elements(order[..k])
      invariant Recorded(frames, callees, maxCost, pred, chain) && Optimal(frames, callees, maxCost)
    {
      var node := order[k];
      var nodeCallers := set p | p in Adjacent(callers, node) && p in maxCost;
      AllCallers(callees, callers, nodes, order, k, maxCost.Keys);
      NotYet(order, k);
      var caller := PickCaller(nodeCallers, maxCost, callees, node);
      RecordNext(frames, callees, maxCost, pred, chain, node, nodeCallers, caller);
      OptimalNext(frames, callees, maxCost, node, nodeCallers, caller);
      chain := chain[node := Front(chain, caller) + [node]];
      maxCost, pred := maxCost[node := Below(maxCost, caller) + Frame(frames, node)], pred[node := caller];
      assert order[..k + 1] == order[..k] + [node];
      ElementsSnoc(order[..k], node);
    }
    assert order[..|order|] == order;
  }

  lemma AllCallers(callees: Adjacency, callers: Adjacency, nodes: set<Name>, order: seq<Name>, k: nat, recorded: set<Name>)
    requires Consistent(callees, callers, nodes) && Topological(callees, nodes, order) && k < |order| && recorded == Elements(order[..k])
    ensures forall u :: u in Adjacent(callers, order[k]) && u in recorded <==> order[k] in Adjacent(callees, u)
  {
    forall u ensures u in Adjacent(callers, order[k]) && u in recorded <==> order[k] in Adjacent(callees, u) {
      CallersRecorded(callees, callers, nodes, order, k, u);
    }
  }

  lemma NothingRecorded(frames: map<Name, nat>, g: Adjacency)
    ensures Recorded(frames, g, map[], map[], map[]) && Optimal(frames, g, map[]) && Elements([]) == {}
  {
  }

  lemma NotYet(order: seq<Name>, k: nat)
    requires k < |order| && forall i, j :: 0 <= i < j < |order| ==> order[i] != order[j]
    ensures order[k] !in Elements(order[..k])
  {
    InElements(order[..k]);
  }

  /** From every node some leaf costs at least as much. */
  lemma {:induction false} LeafAbove(frames: map<Name, nat>, g: Adjacency, nodes: set<Name>, order: seq<Name>, maxCost: map<Name, nat>,
                                     pred: map<Name, Caller>, chain: map<Name, seq<Name>>, k: nat) returns (leaf: Name)
    requires Closed(g, nodes) && Topological(g, nodes, order) && Elements(order) == nodes && k < |order|
    requires maxCost.Keys == nodes && Recorded(frames, g, maxCost, pred, chain) && Optimal(frames, g, maxCost)
    ensures leaf in nodes && Adjacent(g, leaf) == {} && maxCost[order[k]] <= maxCost[leaf]
    decreases |order| - k
  {
    var v := order[k];
    assert v in nodes;
    if Adjacent(g, v) == {} { return v; }
    var w :| w in Adjacent(g, v);
    EdgeInside(g, nodes, v, w);
    assert w in Elements(order);
    var j :| 0 <= j < |order| && order[j] == w;
    assert v in order[..j];
    Later(order, k, j);
    StepCosts(frames, g, maxCost, pred, chain, v, w);
    leaf := LeafAbove(frames, g, nodes, order, maxCost, pred, chain, j);
  }

  lemma Later(order: seq<Name>, k: nat, j: nat)
    requires k < |order| && j <= |order| && order[k] in order[..j] && forall a, b :: 0 <= a < b < |order| ==> order[a] != order[b]
    ensures k < j
  {
    var i :| 0 <= i < j && order[..j][i] == order[k];
    assert order[i] == order[k];
  }

  /** A callee is at least as expensive as its caller. */
  lemma StepCosts(frames: map<Name, nat>, g: Adjacency, maxCost: map<Name, nat>, pred: map<Name, Caller>, chain: map<Name, seq<Name>>, v: Name, w: Name)
    requires Recorded(frames, g, maxCost, pred, chain) && Optimal(frames, g, maxCost)
    requires v in maxCost && w in maxCost && w in Adjacent(g, v)
    ensures maxCost[v] <= maxCost[w]
  {
    PathSnoc(g, chain[v], w);
    CostSnoc(frames, chain[v], w);
    assert Last(chain[v] + [w]) == w;
  }

  /** The chain recorded for `leaf`, walked back through predecessors and reversed. */
  method WalkPath(frames: map<Name, nat>, ghost g: Adjacency, ghost maxCost: map<Name, nat>, pred: map<Name, Caller>, ghost chain: map<Name, seq<Name>>, leaf: Name)
    returns (path: seq<Name>)
    requires Recorded(frames, g, maxCost, pred, chain) && leaf in maxCost && leaf in chain
    ensures path == chain[leaf]
  {
    hide Recorded, Reverse;
    var backward: seq<Name> := [];
    var node := By(leaf);
    NothingBackward(chain[leaf]);
    while node.By?
      invariant node.By? ==> node.n in maxCost && node.n in chain
      invariant chain[leaf] == (if node.By? then chain[node.n] else []) + Reverse(backward)
      decreases if node.By? then |chain[node.n]| else 0
    {
      OneBack(frames, g, maxCost, pred, chain, node.n);
      ReverseSnoc(backward, node.n);
      ghost var front := if pred[node.n].By? then chain[pred[node.n].n] else [];
      assert front + [node.n] + Reverse(backward) == front + ([node.n] + Reverse(backward));
      backward := backward + [node.n];
      node := pred[node.n];
    }
    path := Reverse(backward);
  }

  lemma NothingBackward(s: seq<Name>)
    ensures s == s + Reverse([])
  {
  }

  /** One step along the recorded predecessors. */
  lemma OneBack(frames: map<Name, nat>, g: Adjacency, maxCost: map<Name, nat>, pred: map<Name, Caller>, chain: map<Name, seq<Name>>, v: Name)
    requires Recorded(frames, g, maxCost, pred, chain) && v in maxCost
    ensures v in chain && v in pred
    ensures var c := pred[v];
            && (c.By? ==> c.n in maxCost && c.n in chain && |chain[c.n]| < |chain[v]|)
            && chain[v] == (if c.By? then chain[c.n] else []) + [v]
  {
  }

  lemma ReverseSnoc(s: seq<Name>, x: Name)
    ensures Reverse(s + [x]) == [x] + Reverse(s)
  {
  }

  /** `path` is a chain of nodes that costs `cost`, and no chain in the graph costs more. */
  ghost predicate MostExpensive(frames: map<Name, nat>, g: Adjacency, nodes: set<Name>, cost: nat, path: seq<Name>)
  {
    && IsPath(g, path) && (forall n :: n in path ==> n in nodes) && Cost(frames, path) == cost
    && forall p :: IsPath(g, p) && Last(p) in nodes ==> Cost(frames, p) <= cost
  }

  /** The most expensive call chain: nothing is found exactly when the graph has a cycle; otherwise the path follows calls,
      its frames add up to the cost, and no chain costs more. */
  method FindMaxStackPath(frames: map<Name, nat>, callees: Adjacency, callers: Adjacency, graphNodes: set<Name>)
    returns (found: bool, cost: nat, path: seq<Name>)
    requires Consistent(callees, callers, graphNodes)
    ensures found <==> !Cyclic(callees)
    ensures found && graphNodes + frames.Keys == {} ==> cost == 0 && path == []
    ensures found && graphNodes + frames.Keys != {} ==> MostExpensive(frames, callees, graphNodes + frames.Keys, cost, path)
  {
    hide Adjacent, Frame, Cost, IsPath, Cyclic, Topological, Recorded, Optimal, Consistent, Closed, MostExpensive;
    var nodes := graphNodes + frames.Keys;
    ConsistentClosed(callees, callers, graphNodes, nodes);
    var ok, order := TopologicalSort(nodes, callees);
    if !ok { return false, 0, []; }
    var maxCost, pred;
    ghost var chain;
    maxCost, pred, chain := Fill(frames, callees, callers, nodes, order);
    if maxCost == map[] { return true, 0, []; }
    var leaves := set n | n in nodes && Adjacent(callees, n) == {};
    LeavesDominate(frames, callees, nodes, order, maxCost, pred, chain, leaves);
    if leaves == {} { leaves := nodes; }
    var worst := BestOf(leaves, maxCost);
    cost := maxCost[worst];
    RecordedKeys(frames, callees, maxCost, pred, chain);
    path := WalkPath(frames, callees, maxCost, pred, chain, worst);
    Concluded(frames, callees, nodes, maxCost, pred, chain, leaves, worst);
    found := true;
  }

  lemma RecordedKeys(frames: map<Name, nat>, g: Adjacency, maxCost: map<Name, nat>, pred: map<Name, Caller>, chain: map<Name, seq<Name>>)
    requires Recorded(frames, g, maxCost, pred, chain)
    ensures chain.Keys == maxCost.Keys
  {
  }

  predicate Dominated(maxCost: map<Name, nat>, leaves: set<Name>, v: Name)
  {
    v in maxCost && exists l :: l in leaves && l in maxCost && maxCost[v] <= maxCost[l]
  }

  lemma Concluded(frames: map<Name, nat>, g: Adjacency, nodes: set<Name>, maxCost: map<Name, nat>, pred: map<Name, Caller>,
                  chain: map<Name, seq<Name>>, leaves: set<Name>, worst: Name)
    requires Recorded(frames, g, maxCost, pred, chain) && Optimal(frames, g, maxCost) && Closed(g, nodes) && maxCost.Keys == nodes
    requires worst in leaves && leaves <= nodes && forall l :: l in leaves ==> maxCost[l] <= maxCost[worst]
    requires forall v :: v in nodes ==> Dominated(maxCost, leaves, v)
    ensures worst in chain && MostExpensive(frames, g, nodes, maxCost[worst], chain[worst])
  {
    hide Adjacent, Frame, Cost, Closed, IsPath, Recorded, Optimal, Dominated;
    ChainFacts(frames, g, nodes, maxCost, pred, chain, worst);
    RecordedKeys(frames, g, maxCost, pred, chain);
    NothingAbove(frames, g, nodes, maxCost, leaves, worst);
  }

  lemma NothingAbove(frames: map<Name, nat>, g: Adjacency, nodes: set<Name>, maxCost: map<Name, nat>, leaves: set<Name>, worst: Name)
    requires Optimal(frames, g, maxCost) && maxCost.Keys == nodes
    requires worst in leaves && leaves <= nodes && forall l :: l in leaves ==> maxCost[l] <= maxCost[worst]
    requires forall v :: v in nodes ==> Dominated(maxCost, leaves, v)
    ensures forall p :: IsPath(g, p) && Last(p) in nodes ==> Cost(frames, p) <= maxCost[worst]
  {
    hide Adjacent, Frame, Cost, Optimal, Dominated;
    forall p | IsPath(g, p) && Last(p) in nodes ensures Cost(frames, p) <= maxCost[worst] {
      ChainBounded(frames, g, maxCost, leaves, worst, p);
    }
  }

  lemma ChainBounded(frames: map<Name, nat>, g: Adjacency, maxCost: map<Name, nat>, leaves: set<Name>, worst: Name, p: seq<Name>)
    requires Optimal(frames, g, maxCost) && IsPath(g, p) && Dominated(maxCost, leaves, Last(p)) && worst in maxCost
    requires leaves <= maxCost.Keys && forall l :: l in leaves ==> maxCost[l] <= maxCost[worst]
    ensures Cost(frames, p) <= maxCost[worst]
  {
  }

  lemma ConsistentClosed(callees: Adjacency, callers: Adjacency, graphNodes: set<Name>, nodes: set<Name>)
    requires Consistent(callees, callers, graphNodes) && graphNodes <= nodes
    ensures Closed(callees, nodes) && Consistent(callees, callers, nodes)
  {
  }

  lemma LeavesDominate(frames: map<Name, nat>, g: Adjacency, nodes: set<Name>, order: seq<Name>, maxCost: map<Name, nat>,
                       pred: map<Name, Caller>, chain: map<Name, seq<Name>>, leaves: set<Name>)
    requires Closed(g, nodes) && Topological(g, nodes, order) && Elements(order) == nodes
    requires maxCost.Keys == nodes != {} && Recorded(frames, g, maxCost, pred, chain) && Optimal(frames, g, maxCost)
    requires leaves == set n | n in nodes && Adjacent(g, n) == {}
    ensures leaves != {} && forall v :: v in nodes ==> Dominated(maxCost, leaves, v)
  {
    hide Topological, Recorded, Optimal, Adjacent, Closed;
    forall v | v in nodes ensures Dominated(maxCost, leaves, v) {
      assert v in Elements(order);
      var k :| 0 <= k < |order| && order[k] == v;
      var l := LeafAbove(frames, g, nodes, order, maxCost, pred, chain, k);
      assert l in leaves;
    }
    var v :| v in nodes;
    assert Dominated(maxCost, leaves, v);
  }

  lemma ChainFacts(frames: map<Name, nat>, g: Adjacency, nodes: set<Name>, maxCost: map<Name, nat>, pred: map<Name, Caller>, chain: map<Name, seq<Name>>, v: Name)
    requires Recorded(frames, g, maxCost, pred, chain) && v in maxCost && Closed(g, nodes) && maxCost.Keys <= nodes
    ensures IsPath(g, chain[v]) && Cost(frames, chain[v]) == maxCost[v] && forall n :: n in chain[v] ==> n in nodes
  {
    var p := chain[v];
    forall n | n in p ensures n in nodes {
      var i :| 0 <= i < |p| && p[i] == n;
      if i < |p| - 1 {
        assert p[i + 1] in Adjacent(g, p[i]);
        EdgeInside(g, nodes, p[i], p[i + 1]);
      }
    }
  }
}
