// Intrusive circular doubly linked lists. Nodes are numbers; `next` and `prev` hold each node's links. A list is its
// sentinel followed by its elements.
module Rings {
  import opened Sequences

  const NIL: int := -1

  function Succ(c: seq<nat>, k: nat): nat
    requires k < |c|
  {
    if k + 1 < |c| then c[k + 1] else c[0]
  }

  /** The nodes of `c` are linked in this order, and the last back to the first. */
  predicate Circle(nx: seq<int>, pv: seq<int>, c: seq<nat>)
    requires |nx| == |pv|
  {
    && Distinct(c)
    && (forall k :: 0 <= k < |c| ==> c[k] < |nx|)
    && (forall k :: 0 <= k < |c| ==> nx[c[k]] == Succ(c, k) && pv[Succ(c, k)] == c[k])
  }

  predicate Ring(nx: seq<int>, pv: seq<int>, head: nat, items: seq<nat>)
    requires |nx| == |pv|
  {
    Circle(nx, pv, [head] + items)
  }

  lemma Ends(nx: seq<int>, pv: seq<int>, head: nat, items: seq<nat>)
    requires |nx| == |pv| && Ring(nx, pv, head, items)
    ensures head < |nx| && nx[head] == (if items == [] then head else items[0])
    ensures pv[head] == (if items == [] then head else items[|items| - 1])
    ensures forall k :: 0 <= k < |items| ==> items[k] < |nx| && items[k] != head
  {
    var c := [head] + items;
    assert c[0] == head && Succ(c, |c| - 1) == head;
    assert forall k :: 0 <= k < |items| ==> items[k] == c[k + 1];
    assert nx[c[0]] == Succ(c, 0);
    assert pv[Succ(c, |c| - 1)] == c[|c| - 1];
  }

  lemma Neighbours(nx: seq<int>, pv: seq<int>, head: nat, items: seq<nat>, j: nat)
    requires |nx| == |pv| && Ring(nx, pv, head, items) && j < |items|
    ensures head < |nx| && items[j] < |nx|
    ensures nx[items[j]] == (if j + 1 < |items| then items[j + 1] else head)
    ensures pv[items[j]] == (if j > 0 then items[j - 1] else head)
  {
    var c := [head] + items;
    assert c[j + 1] == items[j] && (j > 0 ==> c[j] == items[j - 1]) && (j + 1 < |items| ==> c[j + 2] == items[j + 1]);
    assert nx[c[j + 1]] == Succ(c, j + 1);
    assert pv[Succ(c, j)] == c[j] && Succ(c, j) == c[j + 1];
    assert c[0] == head;
  }

  /** Links of other nodes do not matter. */
  lemma RingFrame(nx: seq<int>, pv: seq<int>, nx': seq<int>, pv': seq<int>, head: nat, items: seq<nat>)
    requires |nx| == |pv| == |nx'| == |pv'| && Ring(nx, pv, head, items)
    requires forall x :: 0 <= x < |nx| && (x == head || x in items) ==> nx'[x] == nx[x] && pv'[x] == pv[x]
    ensures Ring(nx', pv', head, items)
  {
    var c := [head] + items;
    forall k | 0 <= k < |c| ensures nx'[c[k]] == Succ(c, k) && pv'[Succ(c, k)] == c[k] {
      assert c[k] == head || c[k] in items;
      assert Succ(c, k) == head || Succ(c, k) in items;
      assert Succ(c, k) == c[if k + 1 < |c| then k + 1 else 0];
    }
  }

  /** A new node in front of the sentinel. */
  lemma Added(nx: seq<int>, pv: seq<int>, nx': seq<int>, pv': seq<int>, head: nat, items: seq<nat>, n: nat)
    requires |nx| == |pv| == |nx'| == |pv'| && Ring(nx, pv, head, items) && n < |nx| && head < |nx| && n != head && n !in items
    requires forall x :: 0 <= x < |nx| && (x == head || x in items) ==> nx'[x] == (if x == pv[head] then n else nx[x])
    requires forall x :: 0 <= x < |nx| && (x == head || x in items) ==> pv'[x] == (if x == head then n else pv[x])
    requires nx'[n] == head && pv'[n] == pv[head]
    ensures Ring(nx', pv', head, items + [n])
  {
    Ends(nx, pv, head, items);
    var c, c' := [head] + items, [head] + (items + [n]);
    assert c' == c + [n];
    assert c[|c| - 1] == pv[head];
    forall k | 0 <= k < |c'| ensures nx'[c'[k]] == Succ(c', k) && pv'[Succ(c', k)] == c'[k] {
      if k < |c| {
        assert c'[k] == c[k] && (c[k] == head || c[k] in items);
        if k + 1 < |c| {
          assert c[k + 1] == items[k] && c[k] != c[|c| - 1];
        }
      }
    }
  }

  /** Position `i` (not the sentinel's) taken out of a circle. */
  function Without(c: seq<nat>, i: nat): seq<nat>
    requires i < |c|
  {
    c[..i] + c[i + 1..]
  }

  lemma SuccWithout(c: seq<nat>, i: nat, k: nat)
    requires 0 < i < |c| && k < |c| - 1
    ensures var k0 := if k < i then k else k + 1;
            && Without(c, i)[k] == c[k0] && k0 != i
            && Succ(Without(c, i), k) == Succ(c, if k0 + 1 == i then i else k0)
  {
  }

  /** What unlinking `n` between `p` and `s` does to the links of other nodes. */
  predicate Unlinked(nx: seq<int>, pv: seq<int>, nx': seq<int>, pv': seq<int>, p: nat, n: nat, s: nat)
  {
    && |nx| == |pv| == |nx'| == |pv'|
    && (forall x :: 0 <= x < |nx| && x != n ==> nx'[x] == (if x == p then s else nx[x]))
    && (forall x :: 0 <= x < |nx| && x != n ==> pv'[x] == (if x == s then p else pv[x]))
  }

  lemma CircleWithout(nx: seq<int>, pv: seq<int>, nx': seq<int>, pv': seq<int>, c: seq<nat>, i: nat)
    requires 0 < i < |c| && |nx| == |pv| && Circle(nx, pv, c)
    requires Unlinked(nx, pv, nx', pv', c[i - 1], c[i], Succ(c, i))
    ensures Circle(nx', pv', Without(c, i))
  {
    var c' := Without(c, i);
    forall k | 0 <= k < |c'| ensures c'[k] < |nx| && nx'[c'[k]] == Succ(c', k) && pv'[Succ(c', k)] == c'[k] {
      LinkWithout(nx, pv, nx', pv', c, i, k);
    }
    DistinctWithout(c, i);
  }

  lemma DistinctWithout(c: seq<nat>, i: nat)
    requires Distinct(c) && i < |c|
    ensures Distinct(Without(c, i))
  {
    assert forall k :: 0 <= k < |c| - 1 ==> Without(c, i)[k] == c[if k < i then k else k + 1];
  }

  lemma LinkWithout(nx: seq<int>, pv: seq<int>, nx': seq<int>, pv': seq<int>, c: seq<nat>, i: nat, k: nat)
    requires 0 < i < |c| && k < |c| - 1 && |nx| == |pv| && Circle(nx, pv, c)
    requires Unlinked(nx, pv, nx', pv', c[i - 1], c[i], Succ(c, i))
    ensures var c' := Without(c, i); c'[k] < |nx| && Succ(c', k) < |nx| && nx'[c'[k]] == Succ(c', k) && pv'[Succ(c', k)] == c'[k]
  {
    hide Without, Circle, Distinct, Succ;
    var k0 := if k < i then k else k + 1;
    SuccWithout(c, i, k);
    Link(nx, pv, c, k0);
    Link(nx, pv, c, i);
    Link(nx, pv, c, i - 1);
    NextIs(c, i);
    Differ(nx, pv, c, k0, i);
    if k0 + 1 == i {
      SuccDiffer(nx, pv, c, i, i - 1);
    } else {
      Differ(nx, pv, c, k0, i - 1);
      SuccDiffer(nx, pv, c, k0, i - 1);
      SuccDiffer(nx, pv, c, k0, i);
    }
  }

  lemma NextIs(c: seq<nat>, i: nat)
    requires 0 < i < |c|
    ensures Succ(c, i - 1) == c[i]
  {
  }

  lemma Link(nx: seq<int>, pv: seq<int>, c: seq<nat>, k: nat)
    requires |nx| == |pv| && Circle(nx, pv, c) && k < |c|
    ensures c[k] < |nx| && Succ(c, k) < |nx| && nx[c[k]] == Succ(c, k) && pv[Succ(c, k)] == c[k]
  {
    assert c[if k + 1 < |c| then k + 1 else 0] < |nx|;
  }

  lemma Differ(nx: seq<int>, pv: seq<int>, c: seq<nat>, i: nat, j: nat)
    requires |nx| == |pv| && Circle(nx, pv, c) && i < |c| && j < |c| && i != j
    ensures c[i] != c[j]
  {
  }

  lemma SuccDiffer(nx: seq<int>, pv: seq<int>, c: seq<nat>, i: nat, j: nat)
    requires |nx| == |pv| && Circle(nx, pv, c) && i < |c| && j < |c| && i != j
    ensures Succ(c, i) != Succ(c, j)
  {
    SuccInjective(c, i, j);
  }

  /** Element `j` of a list taken out. */
  lemma Removed(nx: seq<int>, pv: seq<int>, nx': seq<int>, pv': seq<int>, head: nat, items: seq<nat>, j: nat, p: nat, s: nat)
    requires |nx| == |pv| && Ring(nx, pv, head, items) && j < |items| && items[j] < |nx|
    requires p == pv[items[j]] && s == nx[items[j]] && Unlinked(nx, pv, nx', pv', p, items[j], s)
    ensures Ring(nx', pv', head, items[..j] + items[j + 1..])
  {
    hide Circle, Unlinked;
    var c := [head] + items;
    NeighboursInCircle(nx, pv, head, items, j);
    CircleWithout(nx, pv, nx', pv', c, j + 1);
    assert Without(c, j + 1) == [head] + (items[..j] + items[j + 1..]);
  }

  lemma NeighboursInCircle(nx: seq<int>, pv: seq<int>, head: nat, items: seq<nat>, j: nat)
    requires |nx| == |pv| && Ring(nx, pv, head, items) && j < |items| && items[j] < |nx|
    ensures var c := [head] + items; c[j + 1] == items[j] && pv[items[j]] == c[j] && nx[items[j]] == Succ(c, j + 1)
  {
    Neighbours(nx, pv, head, items, j);
  }

  lemma SuccInjective(c: seq<nat>, i: nat, j: nat)
    requires Distinct(c) && i < |c| && j < |c| && i != j
    ensures Succ(c, i) != Succ(c, j)
  {
  }
}
