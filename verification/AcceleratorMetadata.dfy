/** Product metadata of a cluster: the first record that names a product decides its
    memory size (internal/resource/resource_client.go, resource_view_builder.go).

    A record is read as a partial map from accelerator type and product to MiB.  A node
    brings up to three records, always in the same order. */
module AcceleratorMetadata {
  import opened Basics

  type Metadata = map<string, map<string, real>>

  function At(m: Metadata, kind: string, product: string): Option<real>
  {
    if kind in m && product in m[kind] then Some(m[kind][product]) else None
  }

  function First(a: Option<real>, b: Option<real>): Option<real>
  {
    if a.Some? then a else b
  }

  method MergeProducts(target: map<string, real>, source: map<string, real>) returns (r: map<string, real>)
    ensures forall p :: p in r <==> p in target || p in source
    ensures forall p :: p in r ==> r[p] == if p in target then target[p] else source[p]
  {
    r := target;
    var todo := source.Keys;
    while todo != {}
      invariant todo <= source.Keys
      invariant forall p :: p in r <==> p in target || (p in source && p !in todo)
      invariant forall p :: p in r ==> r[p] == if p in target then target[p] else source[p]
      decreases |todo|
    {
      var p :| p in todo;
      if p !in r {
        r := r[p := source[p]];
      }
      todo := todo - {p};
    }
  }

  /** What the target already says stays; everything else is taken over. */
  method MergeMetadata(target: Metadata, source: Metadata) returns (r: Metadata)
    ensures forall t, p :: At(r, t, p) == First(At(target, t, p), At(source, t, p))
  {
    r := target;
    var todo := source.Keys;
    while todo != {}
      invariant todo <= source.Keys
      invariant forall t, p :: At(r, t, p) == if t in todo then At(target, t, p) else First(At(target, t, p), At(source, t, p))
      decreases |todo|
    {
      var kind :| kind in todo;
      ghost var before := r;
      if source[kind] != map[] {
        var products := MergeProducts(if kind in r then r[kind] else map[], source[kind]);
        r := r[kind := products];
        assert forall p :: At(r, kind, p) == First(At(before, kind, p), At(source, kind, p));
      }
      assert forall t, p :: t != kind ==> At(r, t, p) == At(before, t, p);
      todo := todo - {kind};
    }
  }

  /** The records of a node that has a status. */
  datatype Records = Records(allocatable: Option<Metadata>, available: Option<Metadata>, own: Metadata)

  datatype Node = Node(status: Option<Records>)

  function AtOption(m: Option<Metadata>, kind: string, product: string): Option<real>
  {
    if m.None? then None else At(m.value, kind, product)
  }

  /** What a node has to say about a product: the first of its records that names it. */
  function Opinion(n: Node, kind: string, product: string): Option<real>
  {
    match n.status
    case None => None
    case Some(r) =>
      First(First(AtOption(r.allocatable, kind, product), AtOption(r.available, kind, product)), At(r.own, kind, product))
  }

  function Merged(nodes: seq<Node>, kind: string, product: string): Option<real>
  {
    if nodes == [] then None
    else First(Merged(nodes[..|nodes| - 1], kind, product), Opinion(nodes[|nodes| - 1], kind, product))
  }

  method MergeIfAny(target: Metadata, source: Option<Metadata>) returns (r: Metadata)
    ensures forall t, p :: At(r, t, p) == First(At(target, t, p), AtOption(source, t, p))
  {
    r := target;
    if source.Some? {
      r := MergeMetadata(target, source.value);
    }
  }

  /** Merging a node's records one after the other adds the node's opinion. */
  method MergeNode(target: Metadata, n: Node) returns (r: Metadata)
    ensures forall t, p :: At(r, t, p) == First(At(target, t, p), Opinion(n, t, p))
  {
    r := target;
    if n.status.Some? {
      r := MergeIfAny(r, n.status.value.allocatable);
      r := MergeIfAny(r, n.status.value.available);
      r := MergeMetadata(r, n.status.value.own);
    }
  }

  /** The cluster's metadata, node by node. */
  method Collect(nodes: seq<Node>) returns (r: Metadata)
    ensures forall t, p :: At(r, t, p) == Merged(nodes, t, p)
  {
    r := map[];
    for i := 0 to |nodes|
      invariant forall t, p :: At(r, t, p) == Merged(nodes[..i], t, p)
    {
      assert nodes[..i + 1][..i] == nodes[..i];
      r := MergeNode(r, nodes[i]);
    }
    assert nodes[..|nodes|] == nodes;
  }

  /** Detaching leaves the node one record that says what its two said together. */
  method Detach(allocatable: Option<Metadata>, available: Option<Metadata>) returns (n: Node)
    ensures n.status.Some? && n.status.value.allocatable.None? && n.status.value.available.None?
    ensures forall t, p :: Opinion(n, t, p) == Opinion(Node(Some(Records(allocatable, available, map[]))), t, p)
  {
    var own := MergeIfAny(map[], allocatable);
    own := MergeIfAny(own, available);
    n := Node(Some(Records(None, None, own)));
  }

  /** An entry is the opinion of the first node that has one; there is none exactly when
      no node has an opinion. */
  lemma {:induction false} MergedIsFirst(nodes: seq<Node>, kind: string, product: string)
    ensures Merged(nodes, kind, product).None? <==>
              forall i :: 0 <= i < |nodes| ==> Opinion(nodes[i], kind, product).None?
    ensures Merged(nodes, kind, product).Some? ==>
              exists i :: 0 <= i < |nodes| && Opinion(nodes[i], kind, product) == Merged(nodes, kind, product)
                          && forall j :: 0 <= j < i ==> Opinion(nodes[j], kind, product).None?
  {
    if nodes != [] {
      var front := nodes[..|nodes| - 1];
      MergedIsFirst(front, kind, product);
      assert forall j :: 0 <= j < |front| ==> Opinion(nodes[j], kind, product) == Opinion(front[j], kind, product);
      if Merged(front, kind, product).Some? {
        var i :| 0 <= i < |front| && Opinion(front[i], kind, product) == Merged(front, kind, product)
                 && forall j :: 0 <= j < i ==> Opinion(front[j], kind, product).None?;
        assert Opinion(nodes[i], kind, product) == Merged(nodes, kind, product);
      }
    }
  }

  /** No two nodes hold different opinions on a product. */
  ghost predicate Agree(nodes: seq<Node>)
  {
    forall a, b, kind, product ::
      a in nodes && b in nodes && Opinion(a, kind, product).Some? && Opinion(b, kind, product).Some? ==>
        Opinion(a, kind, product) == Opinion(b, kind, product)
  }

  ghost predicate SameEverywhere(a: seq<Node>, b: seq<Node>)
  {
    forall kind, product :: Merged(a, kind, product) == Merged(b, kind, product)
  }

  lemma AgreeingOrderIsFree(a: seq<Node>, b: seq<Node>, kind: string, product: string)
    requires multiset(a) == multiset(b) && Agree(a)
    ensures Merged(a, kind, product) == Merged(b, kind, product)
  {
    MergedIsFirst(a, kind, product);
    MergedIsFirst(b, kind, product);
    if Merged(a, kind, product).Some? {
      var i :| 0 <= i < |a| && Opinion(a[i], kind, product) == Merged(a, kind, product);
      Elsewhere(a, b, i);
    }
    if Merged(b, kind, product).Some? {
      var i :| 0 <= i < |b| && Opinion(b[i], kind, product) == Merged(b, kind, product);
      Elsewhere(b, a, i);
    }
  }

  lemma Elsewhere(a: seq<Node>, b: seq<Node>, i: nat)
    requires multiset(a) == multiset(b) && i < |a|
    ensures exists j :: 0 <= j < |b| && b[j] == a[i]
  {
    assert a[i] in multiset(a);
  }

  lemma {:induction false} FrontDecides(n: Node, rest: seq<Node>, kind: string, product: string)
    requires Opinion(n, kind, product).Some?
    ensures Merged([n] + rest, kind, product) == Opinion(n, kind, product)
    decreases |rest|
  {
    if rest == [] {
      assert [n] + rest == [n];
      assert [n][..0] == [];
    } else {
      assert ([n] + rest)[..|rest|] == [n] + rest[..|rest| - 1];
      FrontDecides(n, rest[..|rest| - 1], kind, product);
    }
  }

  function ToFront(a: seq<Node>, i: nat): seq<Node>
    requires i < |a|
  {
    [a[i]] + (a[..i] + a[i + 1..])
  }

  lemma ToFrontPermutes(a: seq<Node>, i: nat)
    requires i < |a|
    ensures multiset(ToFront(a, i)) == multiset(a)
  {
    assert a == a[..i] + [a[i]] + a[i + 1..];
  }

  /** The collected metadata is the same for every order of the nodes if and only if no
      two nodes hold different opinions on a product. */
  lemma OrderIsFreeIffAgree(a: seq<Node>)
    ensures Agree(a) <==> forall b :: multiset(b) == multiset(a) ==> SameEverywhere(a, b)
  {
    if Agree(a) {
      forall b, kind, product | multiset(b) == multiset(a) ensures Merged(a, kind, product) == Merged(b, kind, product) {
        AgreeingOrderIsFree(a, b, kind, product);
      }
    } else {
      var x, y, kind, product :| x in a && y in a && Opinion(x, kind, product).Some? && Opinion(y, kind, product).Some?
                                 && Opinion(x, kind, product) != Opinion(y, kind, product);
      var i :| 0 <= i < |a| && a[i] == x;
      var j :| 0 <= j < |a| && a[j] == y;
      ToFrontPermutes(a, i);
      ToFrontPermutes(a, j);
      FrontDecides(x, a[..i] + a[i + 1..], kind, product);
      FrontDecides(y, a[..j] + a[j + 1..], kind, product);
      assert !SameEverywhere(a, ToFront(a, i)) || !SameEverywhere(a, ToFront(a, j));
    }
  }

  /** A node whose own records differ does not make the order matter: what it says last
      is never heard. */
  lemma OwnRecordsMayDiffer(t: string, p: string, first: real, last: real)
    requires first != last
    ensures var n := Node(Some(Records(Some(map[t := map[p := first]]), None, map[t := map[p := last]])));
            Agree([n]) && Merged([n], t, p) == Some(first)
  {
    var n := Node(Some(Records(Some(map[t := map[p := first]]), None, map[t := map[p := last]])));
    FrontDecides(n, [], t, p);
    assert [n] + [] == [n];
  }
}
