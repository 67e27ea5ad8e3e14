/** The cluster view: totals over node records, beside the node records themselves.

    `world` is the set of all objects that existed before; the node records live in
    it, may share parts with one another, and are never written. */
module ClusterTotals {
  import opened Basics
  import opened ResourceTotals

  class Status {
    var allocatable: Info?
    var available: Info?
  }

  datatype Node = Node(id: string, status: Status?)

  datatype Side = Allocatable | Available

  ghost predicate InfoWithin(info: Info?, world: set<object>)
    reads world
  {
    info != null ==> info in world && info.footprint <= world && info.Closed()
  }

  ghost predicate Within(node: Node, world: set<object>)
    reads world
  {
    node.status != null ==>
      && node.status in world
      && InfoWithin(node.status.allocatable, world)
      && InfoWithin(node.status.available, world)
  }

  ghost predicate AllWithin(nodes: seq<Node>, world: set<object>)
    reads world
  {
    forall n :: n in nodes ==> Within(n, world)
  }

  /** What one node contributes to a reading. */
  ghost function Share(node: Node, side: Side, r: Reading, world: set<object>): Amount
    requires Within(node, world)
    reads world
  {
    if node.status == null then None
    else
      var info := if side.Allocatable? then node.status.allocatable else node.status.available;
      if info == null then None else info.Read(r)
  }

  ghost function Sum(nodes: seq<Node>, side: Side, r: Reading, world: set<object>): Amount
    requires AllWithin(nodes, world)
    reads world
  {
    if nodes == [] then None
    else Plus(Sum(nodes[..|nodes| - 1], side, r, world), Share(nodes[|nodes| - 1], side, r, world))
  }

  /** A total shows zero CPU and memory even over no node at all. */
  function Start(r: Reading): Amount
  {
    if r.Accelerator? then None else Some(0.0)
  }

  function NodeMap(nodes: seq<Node>): map<string, Status>
  {
    if nodes == [] then map[]
    else
      var last := nodes[|nodes| - 1];
      var front := NodeMap(nodes[..|nodes| - 1]);
      if last.status == null then front else front[last.id := last.status]
  }

  datatype ClusterResources = ClusterResources(allocatable: Info, available: Info, nodes: map<string, Status>)

  lemma SumNext(nodes: seq<Node>, i: nat, side: Side, r: Reading, world: set<object>)
    requires AllWithin(nodes, world) && i < |nodes|
    ensures AllWithin(nodes[..i], world) && AllWithin(nodes[..i + 1], world)
    ensures Sum(nodes[..i + 1], side, r, world)
         == Plus(Sum(nodes[..i], side, r, world), Share(nodes[i], side, r, world))
  {
    assert nodes[..i + 1][..i] == nodes[..i];
  }

  method AddShare(total: Info, node: Node, side: Side, world: set<object>)
    requires total.Valid() && total.footprint !! world && Within(node, world)
    modifies total.footprint
    ensures total.Valid() && fresh(total.footprint - old(total.footprint))
    ensures forall r :: total.Read(r) == Plus(old(total.Read(r)), old(Share(node, side, r, world)))
  {
    if node.status != null {
      var info := if side.Allocatable? then node.status.allocatable else node.status.available;
      if info != null {
        total.Add(info);
      }
    }
  }

  ghost predicate Totals(total: Info, nodes: seq<Node>, side: Side, world: set<object>)
    requires AllWithin(nodes, world)
    reads total, total.footprint, world
  {
    && total.Valid() && total.footprint !! world
    && forall r :: total.Read(r) == Plus(Start(r), Sum(nodes, side, r, world))
  }

  /** One more node on one side. */
  method AddNode(total: Info, nodes: seq<Node>, i: nat, side: Side, world: set<object>)
    requires AllWithin(nodes, world) && i < |nodes| && AllWithin(nodes[..i], world)
    requires Totals(total, nodes[..i], side, world)
    modifies total.footprint
    ensures fresh(total.footprint - old(total.footprint))
    ensures AllWithin(nodes[..i + 1], world) && Totals(total, nodes[..i + 1], side, world)
  {
    AddShare(total, nodes[i], side, world);
    forall r ensures total.Read(r) == Plus(Start(r), Sum(nodes[..i + 1], side, r, world)) {
      SumNext(nodes, i, side, r, world);
    }
  }

  /** Every reading of the two totals is the sum over the nodes, the node map holds
      the nodes' own records, and no existing object is written. */
  method BuildClusterResources(nodes: seq<Node>, world: set<object>) returns (result: ClusterResources)
    requires AllWithin(nodes, world)
    ensures AllWithin(nodes, world)
    ensures fresh(result.allocatable.footprint) && fresh(result.available.footprint)
    ensures Totals(result.allocatable, nodes, Allocatable, world)
    ensures Totals(result.available, nodes, Available, world)
    ensures result.nodes == NodeMap(nodes)
  {
    var allocatable := new Info();
    var available := new Info();
    var records: map<string, Status> := map[];
    for i := 0 to |nodes|
      invariant fresh(allocatable.footprint) && fresh(available.footprint)
      invariant allocatable.footprint !! available.footprint
      invariant AllWithin(nodes[..i], world)
      invariant Totals(allocatable, nodes[..i], Allocatable, world)
      invariant Totals(available, nodes[..i], Available, world)
      invariant records == NodeMap(nodes[..i])
    {
      assert nodes[..i + 1][..i] == nodes[..i];
      AddNode(allocatable, nodes, i, Allocatable, world);
      AddNode(available, nodes, i, Available, world);
      if nodes[i].status != null {
        records := records[nodes[i].id := nodes[i].status];
      }
    }
    assert nodes[..|nodes|] == nodes;
    result := ClusterResources(allocatable, available, records);
  }

  lemma SumAppend(front: seq<Node>, last: Node, side: Side, r: Reading, world: set<object>)
    requires AllWithin(front, world) && Within(last, world)
    ensures AllWithin(front + [last], world)
    ensures Sum(front + [last], side, r, world) == Plus(Sum(front, side, r, world), Share(last, side, r, world))
  {
    assert (front + [last])[..|front|] == front;
  }

  lemma PlusSwap(x: Amount, y: Amount, z: Amount)
    ensures Plus(Plus(x, y), z) == Plus(Plus(x, z), y)
  {
  }

  /** A node may be taken out of a sum wherever it stands. */
  lemma {:induction false} SumWithout(left: seq<Node>, node: Node, right: seq<Node>, side: Side, r: Reading, world: set<object>)
    requires AllWithin(left, world) && Within(node, world) && AllWithin(right, world)
    ensures AllWithin(left + [node] + right, world) && AllWithin(left + right, world)
    ensures Sum(left + [node] + right, side, r, world)
         == Plus(Sum(left + right, side, r, world), Share(node, side, r, world))
    decreases |right|
  {
    if right == [] {
      assert left + right == left && left + [node] + right == left + [node];
      SumAppend(left, node, side, r, world);
    } else {
      var front, last := right[..|right| - 1], right[|right| - 1];
      SumWithout(left, node, front, side, r, world);
      assert left + [node] + right == (left + [node] + front) + [last];
      assert left + right == (left + front) + [last];
      SumAppend(left + [node] + front, last, side, r, world);
      SumAppend(left + front, last, side, r, world);
      PlusSwap(Sum(left + front, side, r, world), Share(node, side, r, world), Share(last, side, r, world));
    }
  }

  /** Totals do not depend on the order of the nodes. */
  lemma {:induction false} SumPermutes(a: seq<Node>, b: seq<Node>, side: Side, r: Reading, world: set<object>)
    requires AllWithin(a, world) && AllWithin(b, world)
    requires multiset(a) == multiset(b)
    ensures Sum(a, side, r, world) == Sum(b, side, r, world)
    decreases |a|
  {
    if a == [] {
      assert |multiset(b)| == 0;
    } else {
      var i := WithoutLast(a, b);
      SumPermutes(a[..|a| - 1], b[..i] + b[i + 1..], side, r, world);
      SumWithout(b[..i], b[i], b[i + 1..], side, r, world);
      assert b == b[..i] + [b[i]] + b[i + 1..];
    }
  }

  /** Two builds over the same nodes, in whatever order, read the same everywhere. */
  lemma TotalsPermute(x: Info, a: seq<Node>, y: Info, b: seq<Node>, side: Side, world: set<object>)
    requires AllWithin(a, world) && AllWithin(b, world) && multiset(a) == multiset(b)
    requires Totals(x, a, side, world) && Totals(y, b, side, world)
    ensures forall r :: x.Read(r) == y.Read(r)
  {
    forall r ensures x.Read(r) == y.Read(r) {
      SumPermutes(a, b, side, r, world);
    }
  }

  lemma WithoutLast(a: seq<Node>, b: seq<Node>) returns (i: nat)
    requires multiset(a) == multiset(b) && a != []
    ensures i < |b| && b[i] == a[|a| - 1]
    ensures multiset(a[..|a| - 1]) == multiset(b[..i] + b[i + 1..])
  {
    var n := |a| - 1;
    assert a[n] in multiset(a);
    i :| 0 <= i < |b| && b[i] == a[n];
    assert a == a[..n] + [a[n]];
    assert b == b[..i] + [b[i]] + b[i + 1..];
    assert multiset(a) == multiset(a[..n]) + multiset{a[n]};
    assert multiset(b) == multiset(b[..i] + b[i + 1..]) + multiset{b[i]};
    assert multiset(a[..n]) == multiset(a) - multiset{a[n]};
    assert multiset(b[..i] + b[i + 1..]) == multiset(b) - multiset{a[n]};
  }

  ghost predicate DistinctIds(nodes: seq<Node>)
  {
    forall i, j :: 0 <= i < j < |nodes| ==> nodes[i].id != nodes[j].id
  }

  /** With distinct IDs the node map holds exactly the nodes that have a record. */
  lemma {:induction false} NodeMapHolds(nodes: seq<Node>, id: string)
    requires DistinctIds(nodes)
    ensures id in NodeMap(nodes) ==> Node(id, NodeMap(nodes)[id]) in nodes
    ensures forall s: Status :: Node(id, s) in nodes ==> id in NodeMap(nodes) && NodeMap(nodes)[id] == s
  {
    if nodes != [] {
      var front, last := nodes[..|nodes| - 1], nodes[|nodes| - 1];
      NodeMapHolds(front, id);
      forall s: Status | Node(id, s) in nodes ensures id in NodeMap(nodes) && NodeMap(nodes)[id] == s {
        var i :| 0 <= i < |nodes| && nodes[i] == Node(id, s);
        if i < |front| {
          assert front[i] == Node(id, s);
        }
      }
    }
  }

  lemma NodeMapPermutes(a: seq<Node>, b: seq<Node>)
    requires DistinctIds(a) && DistinctIds(b) && multiset(a) == multiset(b)
    ensures NodeMap(a) == NodeMap(b)
  {
    forall id ensures id in NodeMap(a) <==> id in NodeMap(b)
              ensures id in NodeMap(a) && id in NodeMap(b) ==> NodeMap(a)[id] == NodeMap(b)[id]
    {
      NodeMapHolds(a, id);
      NodeMapHolds(b, id);
      assert forall n :: n in a <==> n in multiset(a);
      assert forall n :: n in b <==> n in multiset(b);
    }
  }
}
