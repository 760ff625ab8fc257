// The worst-case stack analyser: call graph, Kahn's topological sort, and the longest-path dynamic program.
module CallGraph {
  type Name = string

  type Adjacency = map<Name, set<Name>>

  function Adjacent(g: Adjacency, n: Name): set<Name> { if n in g then g[n] else {} }

  predicate Calls(g: Adjacency, u: Name, v: Name) { v in Adjacent(g, u) }

  /** Both directions agree, and all edges run between nodes. */
  ghost predicate Consistent(callees: Adjacency, callers: Adjacency, nodes: set<Name>)
  {
    && Closed(callees, nodes)
    && forall u, v :: Calls(callees, u, v) <==> Calls(callers, v, u)
  }

  /** All edges run between nodes. */
  ghost predicate Closed(g: Adjacency, nodes: set<Name>)
  {
    forall u, v :: Calls(g, u, v) ==> u in nodes && v in nodes
  }

  /** A call chain. */
  predicate IsPath(g: Adjacency, p: seq<Name>)
  {
    p != [] && forall i :: 0 <= i < |p| - 1 ==> p[i + 1] in Adjacent(g, p[i])
  }

  ghost predicate Cyclic(g: Adjacency)
  {
    exists p :: IsPath(g, p) && |p| >= 2 && p[0] == p[|p| - 1]
  }

  function Frame(frames: map<Name, nat>, n: Name): nat { if n in frames then frames[n] else 0 }

  function Cost(frames: map<Name, nat>, p: seq<Name>): nat
  {
    if p == [] then 0 else Cost(frames, p[..|p| - 1]) + Frame(frames, p[|p| - 1])
  }

  lemma EdgeInside(g: Adjacency, nodes: set<Name>, u: Name, v: Name)
    requires Closed(g, nodes) && v in Adjacent(g, u)
    ensures u in nodes && v in nodes
  {
    assert Calls(g, u, v);
  }

  lemma PathCons(g: Adjacency, u: Name, q: seq<Name>)
    requires IsPath(g, q) && q[0] in Adjacent(g, u)
    ensures IsPath(g, [u] + q)
  {
    var p := [u] + q;
    forall i | 0 <= i < |p| - 1 ensures p[i + 1] in Adjacent(g, p[i]) {
      if i > 0 { assert q[i - 1 + 1] in Adjacent(g, q[i - 1]); }
    }
  }

  lemma PathSnoc(g: Adjacency, p: seq<Name>, v: Name)
    requires IsPath(g, p) && v in Adjacent(g, p[|p| - 1])
    ensures IsPath(g, p + [v])
  {
  }

  lemma PathSlice(g: Adjacency, p: seq<Name>, i: nat, j: nat)
    requires IsPath(g, p) && i < j <= |p|
    ensures IsPath(g, p[i..j])
  {
    var c := p[i..j];
    forall k | 0 <= k < |c| - 1 ensures c[k + 1] in Adjacent(g, c[k]) {
      assert p[i + k + 1] in Adjacent(g, p[i + k]);
    }
  }

  // ----- building -----

  method BuildCallGraph(edges: seq<(Name, Name)>) returns (callees: Adjacency, callers: Adjacency, nodes: set<Name>)
    ensures Consistent(callees, callers, nodes)
    ensures forall u, v :: v in Adjacent(callees, u) <==> (u, v) in edges
    ensures forall n :: n in nodes <==> exists e :: e in edges && (n == e.0 || n == e.1)
  {
    callees, callers, nodes := map[], map[], {};
    for i := 0 to |edges|
      invariant forall u, v :: v in Adjacent(callees, u) <==> (u, v) in edges[..i]
      invariant forall u, v :: u in Adjacent(callers, v) <==> (u, v) in edges[..i]
      invariant forall n :: n in nodes <==> exists e :: e in edges[..i] && (n == e.0 || n == e.1)
    {
      var (caller, callee) := edges[i];
      assert edges[..i + 1] == edges[..i] + [edges[i]];
      callees := callees[caller := Adjacent(callees, caller) + {callee}];
      callers := callers[callee := Adjacent(callers, callee) + {caller}];
      nodes := nodes + {caller, callee};
    }
    assert edges[..|edges|] == edges;
    forall u, v | Calls(callees, u, v) ensures u in nodes && v in nodes { assert (u, v) in edges; }
  }

  // ----- topological sort -----

  /** Callers of `n` within `c`. */
  function CallersIn(g: Adjacency, c: set<Name>, n: Name): set<Name>
  {
    set u | u in c && n in Adjacent(g, u)
  }

  lemma CallersAdd(g: Adjacency, c: set<Name>, u: Name, n: Name)
    requires u !in c
    ensures |CallersIn(g, c + {u}, n)| == |CallersIn(g, c, n)| + (if n in Adjacent(g, u) then 1 else 0)
  {
    if n in Adjacent(g, u) {
      assert CallersIn(g, c + {u}, n) == CallersIn(g, c, n) + {u};
    } else {
      assert CallersIn(g, c + {u}, n) == CallersIn(g, c, n);
    }
  }

  /** Every node once, callers first. */
  predicate Topological(g: Adjacency, nodes: set<Name>, order: seq<Name>)
  {
    && (forall i, j :: 0 <= i < j < |order| ==> order[i] != order[j])
    && (forall i :: 0 <= i < |order| ==> order[i] in nodes)
    && (forall i, u :: 0 <= i < |order| && u in nodes && order[i] in Adjacent(g, u) ==> u in order[..i])
  }

  function Elements(s: seq<Name>): set<Name> { set i | 0 <= i < |s| :: s[i] }

  /** `inDegree` counts the callers in `c`, except that the callees of `u` in `rest` still count `u` too. */
  predicate Degrees(g: Adjacency, inDegree: map<Name, int>, c: set<Name>, u: Name, rest: set<Name>)
  {
    forall n :: n in inDegree ==> inDegree[n] == |CallersIn(g, c, n)| + (if n in rest && n in Adjacent(g, u) then 1 else 0)
  }

  /** One caller of every node counted. */
  method InDegrees(nodes: set<Name>, callees: Adjacency) returns (inDegree: map<Name, int>)
    ensures inDegree.Keys == nodes && forall n :: n in nodes ==> inDegree[n] == |CallersIn(callees, nodes, n)|
  {
    hide Adjacent;
    inDegree := map n | n in nodes :: 0;
    var todo := nodes;
    NoCallers(callees);
    while todo != {}
      invariant todo <= nodes && inDegree.Keys == nodes
      invariant forall n :: n in inDegree ==> inDegree[n] == |CallersIn(callees, nodes - todo, n)|
    {
      var node :| node in todo;
      ghost var c := nodes - todo;
      todo := todo - {node};
      inDegree := CountCallees(callees, inDegree, c, node);
      assert nodes - todo == c + {node};
    }
    assert nodes - todo == nodes;
  }

  lemma NoCallers(g: Adjacency)
    ensures forall n :: |CallersIn(g, {}, n)| == 0
  {
    assert forall n :: CallersIn(g, {}, n) == {};
  }

  method CountCallees(callees: Adjacency, before: map<Name, int>, ghost c: set<Name>, node: Name) returns (inDegree: map<Name, int>)
    requires node !in c && forall n :: n in before ==> before[n] == |CallersIn(callees, c, n)|
    ensures inDegree.Keys == before.Keys && forall n :: n in inDegree ==> inDegree[n] == |CallersIn(callees, c + {node}, n)|
  {
    hide CallersIn, Adjacent;
    inDegree := before;
    var rest := Adjacent(callees, node);
    while rest != {}
      invariant inDegree.Keys == before.Keys && rest <= Adjacent(callees, node)
      invariant forall n :: n in inDegree ==>
                  inDegree[n] == |CallersIn(callees, c, n)| + (if n in Adjacent(callees, node) && n !in rest then 1 else 0)
    {
      var callee :| callee in rest;
      rest := rest - {callee};
      if callee in inDegree { inDegree := inDegree[callee := inDegree[callee] + 1]; }
    }
    forall n | n in inDegree ensures inDegree[n] == |CallersIn(callees, c + {node}, n)| { CallersAdd(callees, c, node, n); }
  }

  // ----- the queue -----

  /** Removed nodes, queued nodes and degrees fit together; `c` is what is left, `rest` the callees of `u` still to visit. */
  ghost predicate Sorting(g: Adjacency, nodes: set<Name>, inDegree: map<Name, int>, order: seq<Name>, queue: seq<Name>, u: Name, rest: set<Name>)
  {
    && inDegree.Keys == nodes
    && (forall n :: n in order + queue ==> n in nodes)
    && (forall i, j :: 0 <= i < j < |order + queue| ==> (order + queue)[i] != (order + queue)[j])
    && Degrees(g, inDegree, nodes - Elements(order), u, rest)
    && (forall n :: n in nodes ==> (n in order + queue <==> inDegree[n] == 0))
    && Topological(g, nodes, order)
  }

  lemma ElementsSnoc(s: seq<Name>, x: Name)
    ensures Elements(s + [x]) == Elements(s) + {x}
  {
    var t := s + [x];
    forall y | y in Elements(s) + {x} ensures y in Elements(t) {
      if y == x { assert t[|s|] == x; } else {
        var i :| 0 <= i < |s| && s[i] == y;
        assert t[i] == y;
      }
    }
  }

  lemma InElements(s: seq<Name>)
    ensures forall x :: x in s <==> x in Elements(s)
  {
  }

  lemma TopologicalSnoc(g: Adjacency, nodes: set<Name>, order: seq<Name>, node: Name)
    requires Topological(g, nodes, order) && node in nodes && node !in order
    requires CallersIn(g, nodes - Elements(order), node) == {}
    ensures Topological(g, nodes, order + [node])
  {
    hide Adjacent;
    var r := order + [node];
    forall i, u | 0 <= i < |r| && u in nodes && r[i] in Adjacent(g, u) ensures u in r[..i] {
      if i < |order| {
        assert r[..i] == order[..i];
      } else {
        assert r[..i] == order && u !in CallersIn(g, nodes - Elements(order), node);
        InElements(order);
      }
    }
  }

  /** Moves the front of the queue to the order: its callees still count it. */
  lemma Popped(g: Adjacency, nodes: set<Name>, inDegree: map<Name, int>, order: seq<Name>, queue: seq<Name>, u: Name)
    requires Sorting(g, nodes, inDegree, order, queue, u, {}) && queue != []
    ensures Sorting(g, nodes, inDegree, order + [queue[0]], queue[1..], queue[0], Adjacent(g, queue[0]))
  {
    hide Adjacent, CallersIn, Topological;
    var node, order' := queue[0], order + [queue[0]];
    assert order' + queue[1..] == order + queue;
    assert (order + queue)[|order|] == node;
    var c := nodes - Elements(order);
    assert inDegree[node] == 0 && |CallersIn(g, c, node)| == 0;
    NotInOrder(order, queue);
    TopologicalSnoc(g, nodes, order, node);
    ElementsSnoc(order, node);
    InElements(order);
    assert nodes - Elements(order') == c - {node} && c == (c - {node}) + {node};
    forall n | n in inDegree ensures inDegree[n] == |CallersIn(g, c - {node}, n)| + (if n in Adjacent(g, node) then 1 else 0) {
      CallersAdd(g, c - {node}, node, n);
    }
  }

  lemma NotInOrder(order: seq<Name>, queue: seq<Name>)
    requires queue != [] && forall i, j :: 0 <= i < j < |order + queue| ==> (order + queue)[i] != (order + queue)[j]
    ensures queue[0] !in order
  {
    assert (order + queue)[|order|] == queue[0];
    assert forall i :: 0 <= i < |order| ==> (order + queue)[i] == order[i];
  }

  /** Takes `node` off its callees' degrees and queues those that reach zero. */
  method Release(nodes: set<Name>, callees: Adjacency, before: map<Name, int>, ghost order: seq<Name>, queued: seq<Name>, node: Name)
    returns (inDegree: map<Name, int>, queue: seq<Name>)
    requires Sorting(callees, nodes, before, order, queued, node, Adjacent(callees, node))
    ensures Sorting(callees, nodes, inDegree, order, queue, node, {})
  {
    hide Adjacent, CallersIn, Topological;
    inDegree, queue := before, queued;
    var rest := Adjacent(callees, node);
    while rest != {}
      invariant rest <= Adjacent(callees, node) && Sorting(callees, nodes, inDegree, order, queue, node, rest)
    {
      var callee :| callee in rest;
      ghost var inDegree0, queue0 := inDegree, queue;
      rest := rest - {callee};
      if callee in inDegree {
        inDegree := inDegree[callee := inDegree[callee] - 1];
        if inDegree[callee] == 0 { queue := queue + [callee]; }
      }
      Visited(callees, nodes, inDegree0, order, queue0, node, rest, callee, inDegree, queue);
    }
  }

  lemma Visited(g: Adjacency, nodes: set<Name>, before: map<Name, int>, order: seq<Name>, queued: seq<Name>, node: Name,
                rest: set<Name>, callee: Name, inDegree: map<Name, int>, queue: seq<Name>)
    requires Sorting(g, nodes, before, order, queued, node, rest + {callee}) && callee !in rest && callee in Adjacent(g, node)
    requires inDegree == if callee in before then before[callee := before[callee] - 1] else before
    requires queue == if callee in before && before[callee] == 1 then queued + [callee] else queued
    ensures Sorting(g, nodes, inDegree, order, queue, node, rest)
  {
    hide Adjacent, CallersIn, Topological, Elements;
    if callee in before {
      assert before[callee] >= 1;
      assert callee !in order + queued;
      if before[callee] == 1 { assert order + queue == (order + queued) + [callee]; }
    }
  }

  // ----- what the order proves -----

  lemma {:induction false} PathRises(g: Adjacency, nodes: set<Name>, order: seq<Name>, p: seq<Name>, i: nat, j: nat)
    requires Topological(g, nodes, order) && Elements(order) == nodes && IsPath(g, p) && |p| >= 2
    requires Closed(g, nodes)
    requires i < |order| && j < |order| && order[i] == p[0] && order[j] == p[|p| - 1]
    ensures i < j
    decreases |p|
  {
    var m := |p| - 2;
    assert p[m + 1] in Adjacent(g, p[m]);
    EdgeInside(g, nodes, p[m], p[m + 1]);
    assert p[m] in order[..j];
    var k :| 0 <= k < j && order[..j][k] == p[m];
    assert order[k] == p[m];
    PathSlice(g, p, 0, |p| - 1);
    assert p[0..|p| - 1] == p[..|p| - 1];
    if |p| > 2 { PathRises(g, nodes, order, p[..|p| - 1], i, k); }
  }

  lemma SortedIsAcyclic(g: Adjacency, nodes: set<Name>, order: seq<Name>)
    requires Topological(g, nodes, order) && Elements(order) == nodes
    requires Closed(g, nodes)
    ensures !Cyclic(g)
  {
    if Cyclic(g) {
      var p :| IsPath(g, p) && |p| >= 2 && p[0] == p[|p| - 1];
      assert p[0 + 1] in Adjacent(g, p[0]);
      EdgeInside(g, nodes, p[0], p[0 + 1]);
      assert p[0] in Elements(order);
      var i :| 0 <= i < |order| && order[i] == p[0];
      PathRises(g, nodes, order, p, i, i);
    }
  }

  predicate AllIn(s: seq<Name>, r: set<Name>) { forall i :: 0 <= i < |s| ==> s[i] in r }

  predicate HasCaller(g: Adjacency, r: set<Name>, v: Name) { exists u :: u in r && v in Adjacent(g, u) }

  /** A backward walk of any length inside a set whose members all have callers in it. */
  lemma {:induction false} WalkBack(g: Adjacency, r: set<Name>, n: nat) returns (p: seq<Name>)
    requires r != {} && forall v :: v in r ==> HasCaller(g, r, v)
    ensures |p| == n + 1 && IsPath(g, p) && AllIn(p, r)
    decreases n
  {
    hide Adjacent, IsPath;
    if n == 0 {
      var v :| v in r;
      OneNode(g, v);
      return [v];
    }
    var q := WalkBack(g, r, n - 1);
    assert q[0] in r;
    assert HasCaller(g, r, q[0]);
    var u :| u in r && q[0] in Adjacent(g, u);
    PathCons(g, u, q);
    p := [u] + q;
  }

  lemma OneNode(g: Adjacency, v: Name)
    ensures IsPath(g, [v])
  {
  }

  /** Pigeonhole: a sequence longer than the set it draws from repeats an element. */
  lemma {:induction false} Repeats(s: seq<Name>, r: set<Name>) returns (i: nat, j: nat)
    requires AllIn(s, r) && |s| > |r|
    ensures i < j < |s| && s[i] == s[j]
    decreases |s|
  {
    var x, rest := s[0], s[1..];
    if x in rest {
      var k :| 0 <= k < |rest| && rest[k] == x;
      return 0, k + 1;
    }
    assert x in r;
    assert forall k :: 0 <= k < |rest| ==> rest[k] == s[k + 1];
    i, j := Repeats(rest, r - {x});
    i, j := i + 1, j + 1;
  }

  lemma StuckIsCyclic(g: Adjacency, r: set<Name>)
    requires r != {} && forall v :: v in r ==> HasCaller(g, r, v)
    ensures Cyclic(g)
  {
    hide Adjacent, IsPath, HasCaller;
    var p := WalkBack(g, r, |r|);
    var i, j := Repeats(p, r);
    PathSlice(g, p, i, j + 1);
    var c := p[i..j + 1];
    assert IsPath(g, c) && |c| >= 2 && c[0] == c[|c| - 1];
  }

  lemma {:induction false} ElementsCount(s: seq<Name>)
    requires forall i, j :: 0 <= i < j < |s| ==> s[i] != s[j]
    ensures |Elements(s)| == |s|
    decreases |s|
  {
    if s != [] {
      var n := |s| - 1;
      ElementsCount(s[..n]);
      assert s == s[..n] + [s[n]];
      ElementsSnoc(s[..n], s[n]);
      InElements(s[..n]);
    }
  }

  /** Kahn's algorithm: a topological order of all nodes exactly when no call chain returns to its start. */
  method TopologicalSort(nodes: set<Name>, callees: Adjacency) returns (ok: bool, order: seq<Name>)
    requires Closed(callees, nodes)
    ensures ok <==> !Cyclic(callees)
    ensures ok ==> Topological(callees, nodes, order) && Elements(order) == nodes
  {
    hide Adjacent, CallersIn, Topological, Cyclic;
    var inDegree := InDegrees(nodes, callees);
    var queue := ZeroDegree(nodes, inDegree);
    order := [];
    Started(callees, nodes, inDegree, queue);
    ghost var last := "";
    while queue != []
      invariant Sorting(callees, nodes, inDegree, order, queue, last, {})
      decreases |nodes| - |order|
    {
      var node := queue[0];
      Popped(callees, nodes, inDegree, order, queue, last);
      OrderFits(callees, nodes, inDegree, order + [node], queue[1..], node, Adjacent(callees, node));
      queue := queue[1..];
      order := order + [node];
      inDegree, queue := Release(nodes, callees, inDegree, order, queue, node);
      last := node;
    }
    ok := |order| == |nodes|;
    Finished(callees, nodes, inDegree, order, last);
  }

  lemma OrderFits(g: Adjacency, nodes: set<Name>, inDegree: map<Name, int>, order: seq<Name>, queue: seq<Name>, u: Name, rest: set<Name>)
    requires Sorting(g, nodes, inDegree, order, queue, u, rest)
    ensures |order| <= |nodes| && |Elements(order)| == |order| && Elements(order) <= nodes
  {
    hide Adjacent, CallersIn, Topological, Degrees;
    var all := order + queue;
    assert forall i :: 0 <= i < |order| ==> all[i] == order[i];
    ElementsCount(order);
    SubsetSize(Elements(order), nodes);
  }

  lemma SubsetSize(a: set<Name>, b: set<Name>)
    requires a <= b
    ensures |a| <= |b| && (|a| == |b| <==> a == b)
  {
    assert b == a + (b - a);
  }

  /** The nodes nobody calls. */
  method ZeroDegree(nodes: set<Name>, inDegree: map<Name, int>) returns (queue: seq<Name>)
    requires inDegree.Keys == nodes
    ensures forall n :: n in queue <==> n in nodes && inDegree[n] == 0
    ensures forall i, j :: 0 <= i < j < |queue| ==> queue[i] != queue[j]
  {
    queue := [];
    var todo := nodes;
    while todo != {}
      invariant todo <= nodes
      invariant forall n :: n in queue <==> n in nodes && n !in todo && inDegree[n] == 0
      invariant forall i, j :: 0 <= i < j < |queue| ==> queue[i] != queue[j]
    {
      var n :| n in todo;
      todo := todo - {n};
      if inDegree[n] == 0 { queue := queue + [n]; }
    }
  }

  lemma Started(g: Adjacency, nodes: set<Name>, inDegree: map<Name, int>, queue: seq<Name>)
    requires inDegree.Keys == nodes && forall n :: n in nodes ==> inDegree[n] == |CallersIn(g, nodes, n)|
    requires forall n :: n in queue <==> n in nodes && inDegree[n] == 0
    requires forall i, j :: 0 <= i < j < |queue| ==> queue[i] != queue[j]
    ensures Sorting(g, nodes, inDegree, [], queue, "", {})
  {
    assert [] + queue == queue && nodes - Elements([]) == nodes;
  }

  lemma Finished(g: Adjacency, nodes: set<Name>, inDegree: map<Name, int>, order: seq<Name>, u: Name)
    requires Sorting(g, nodes, inDegree, order, [], u, {})
    requires Closed(g, nodes)
    ensures |order| == |nodes| <==> !Cyclic(g)
    ensures |order| == |nodes| ==> Topological(g, nodes, order) && Elements(order) == nodes
  {
    hide Adjacent, Cyclic;
    OrderFits(g, nodes, inDegree, order, [], u, {});
    SubsetSize(Elements(order), nodes);
    if Elements(order) == nodes {
      SortedIsAcyclic(g, nodes, order);
    } else {
      var r := nodes - Elements(order);
      InElements(order);
      assert order + [] == order;
      forall v | v in r ensures HasCaller(g, r, v) {
        assert inDegree[v] != 0;
        assert CallersIn(g, r, v) != {};
        var w :| w in CallersIn(g, r, v);
        assert w in r && v in Adjacent(g, w);
      }
      StuckIsCyclic(g, r);
    }
  }
}
