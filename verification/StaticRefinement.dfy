/** The reconciles of `StaticRows.Storage` are the uninterrupted runs of the interleaved
    machine: for every outcome of a method there is a run of that reconcile's own steps
    that leaves the same rows. */
module StaticRefinement {
  import opened Basics
  import opened StaticRows
  import opened StaticLifecycle

  ghost function SncSteps(c: string, moves: seq<SncMove>): seq<Step>
  {
    seq(|moves|, i requires 0 <= i < |moves| => SncStep(c, moves[i]))
  }

  ghost predicate SncRun(c: string, v: SncView, moves: seq<SncMove>, last: SncView)
    decreases |moves|
  {
    if moves == [] then last == v else SncCan(v, moves[0]) && SncRun(c, SncDo(c, v, moves[0]), moves[1..], last)
  }

  lemma ViewAt(s: State, c: string, v: SncView, w: SncView)
    ensures SncViewOf(WithSnc(s, c, v), c) == v
    ensures WithSnc(WithSnc(s, c, v), c, w) == WithSnc(s, c, w)
    ensures WithSnc(s, c, SncViewOf(s, c)) == s
  {
    PutTwice(s.sncs, c, v.row, w.row);
    PutTwice(s.sctl, c, v.pc, w.pc);
  }

  lemma {:induction false} SncRunIsRun(s: State, c: string, v: SncView, moves: seq<SncMove>, last: SncView)
    requires SncRun(c, v, moves, last)
    ensures Runs(WithSnc(s, c, v), SncSteps(c, moves), WithSnc(s, c, last))
    decreases |moves|
  {
    if moves != [] {
      var next := SncDo(c, v, moves[0]);
      ViewAt(s, c, v, next);
      SncRunIsRun(s, c, next, moves[1..], last);
      assert SncSteps(c, moves)[1..] == SncSteps(c, moves[1..]);
    }
  }

  lemma {:induction false} SncRunJoin(c: string, v: SncView, a: seq<SncMove>, mid: SncView, b: seq<SncMove>, last: SncView)
    requires SncRun(c, v, a, mid) && SncRun(c, mid, b, last)
    ensures SncRun(c, v, a + b, last)
    decreases |a|
  {
    if a == [] {
      assert a + b == b;
    } else {
      assert (a + b)[0] == a[0] && (a + b)[1..] == a[1..] + b;
      SncRunJoin(c, SncDo(c, v, a[0]), a[1..], mid, b, last);
    }
  }

  lemma SncRunOne(c: string, v: SncView, move: SncMove)
    requires SncCan(v, move)
    ensures SncRun(c, v, [move], SncDo(c, v, move))
  {
    assert SncRun(c, SncDo(c, v, move), [], SncDo(c, v, move));
    assert [move][1..] == [];
  }

  // ----- deleting a node -----

  /** The three steps of a node's delete reconcile, cut short where one fails, leave the
      node rows of `ReconcileNodeDelete`. */
  lemma NodeDeleteIsRun(s: State, id: nat, cleanupOk: bool, removeOk: bool) returns (steps: seq<Step>, last: State)
    requires id in s.nodes && s.nodes[id].deleting && id !in s.nctl
    ensures Runs(s, steps, last) && id !in last.nctl && last.sncs == s.sncs
    ensures last.nodes == if removeOk && (s.nodes[id].force || cleanupOk) then s.nodes - {id} else s.nodes
  {
    var s1 := Do(s, NodeStep(id, NFetch));
    var s2 := Do(s1, NodeStep(id, NCleanup(cleanupOk)));
    if s.nodes[id].force || cleanupOk {
      last := Do(s2, NodeStep(id, NRemove(removeOk)));
      steps := [NodeStep(id, NFetch), NodeStep(id, NCleanup(cleanupOk)), NodeStep(id, NRemove(removeOk))];
      assert Runs(last, [], last);
      assert Runs(s2, [NodeStep(id, NRemove(removeOk))], last);
      assert Runs(s1, [NodeStep(id, NCleanup(cleanupOk)), NodeStep(id, NRemove(removeOk))], last);
    } else {
      last := s2;
      steps := [NodeStep(id, NFetch), NodeStep(id, NCleanup(cleanupOk))];
      assert Runs(last, [], last);
      assert Runs(s1, [NodeStep(id, NCleanup(cleanupOk))], last);
    }
  }

  // ----- deleting a StaticNodeCluster -----

  /** The listed nodes still to be visited, as the reconcile read them. */
  ghost predicate Pending(v: SncView, force: bool, listed: seq<nat>)
  {
    && v.pc.Some? && v.pc.value.SMarking? && v.pc.value.force == force
    && (forall id :: id in v.pc.value.todo <==> id in listed)
    && (forall i, j :: 0 <= i < j < |listed| ==> listed[i] != listed[j])
    && (forall id :: id in listed ==> id in v.nodes && v.pc.value.todo[id] == v.nodes[id])
  }

  lemma PendingNext(c: string, v: SncView, force: bool, listed: seq<nat>)
    requires Pending(v, force, listed) && listed != []
    ensures SncCan(v, SMark(listed[0], true))
    ensures Pending(SncDo(c, v, SMark(listed[0], true)), force, listed[1..])
  {
  }

  lemma {:induction false} MarksAreRun(c: string, v: SncView, force: bool, listed: seq<nat>, writesLeft: nat)
    returns (moves: seq<SncMove>, last: SncView)
    requires Pending(v, force, listed)
    ensures SncRun(c, v, moves, last)
    ensures last == SncView(v.row, None, Cascade(v.nodes, listed, force, writesLeft), v.nextId)
    decreases |listed|
  {
    if listed == [] {
      assert v.pc.value.todo == map[];
      moves, last := [SReturn], SncDo(c, v, SReturn);
      SncRunOne(c, v, SReturn);
    } else {
      var mark := Marking(force, v.nodes[listed[0]]);
      if mark.Some? && writesLeft == 0 {
        moves, last := [SMark(listed[0], false)], SncDo(c, v, SMark(listed[0], false));
        SncRunOne(c, v, SMark(listed[0], false));
      } else {
        var next := SncDo(c, v, SMark(listed[0], true));
        PendingNext(c, v, force, listed);
        var rest;
        rest, last := MarksAreRun(c, next, force, listed[1..], if mark.Some? then writesLeft - 1 else writesLeft);
        SncRunOne(c, v, SMark(listed[0], true));
        SncRunJoin(c, v, [SMark(listed[0], true)], next, rest, last);
        moves := [SMark(listed[0], true)] + rest;
      }
    }
  }

  /** Fetching and listing. */
  lemma ListIsRun(c: string, v: SncView)
    requires v.row.Some? && v.pc.None?
    ensures SncRun(c, v, [SFetch, SList], v.(pc := Some(SListed(v.row.value, OwnedRows(v.nodes, c)))))
  {
    var v1 := SncDo(c, v, SFetch);
    SncRunOne(c, v, SFetch);
    SncRunOne(c, v1, SList);
    SncRunJoin(c, v, [SFetch], v1, [SList], SncDo(c, v1, SList));
    assert [SFetch] + [SList] == [SFetch, SList];
  }

  lemma DeleteIsSncRun(c: string, v: SncView, listed: seq<nat>, writesLeft: nat)
    returns (moves: seq<SncMove>, last: SncView)
    requires v.row.Some? && v.row.value.deleting && v.pc.None? && Enumerates(listed, Owned(v.nodes, c))
    ensures SncRun(c, v, moves, last)
    ensures last == SncView(if listed == [] && writesLeft > 0 then None else v.row, None,
                            Cascade(v.nodes, listed, v.row.value.force, writesLeft), v.nextId)
  {
    ListIsRun(c, v);
    var seen := v.(pc := Some(SListed(v.row.value, OwnedRows(v.nodes, c))));
    assert OwnedRows(v.nodes, c).Keys == Owned(v.nodes, c);
    if listed == [] {
      assert OwnedRows(v.nodes, c) == map[];
      last := SncDo(c, seen, SRemove(writesLeft > 0));
      SncRunOne(c, seen, SRemove(writesLeft > 0));
      SncRunJoin(c, v, [SFetch, SList], seen, [SRemove(writesLeft > 0)], last);
      moves := [SFetch, SList] + [SRemove(writesLeft > 0)];
    } else {
      assert listed[0] in Owned(v.nodes, c);
      var begun := SncDo(c, seen, SCascade);
      SncRunOne(c, seen, SCascade);
      SncRunJoin(c, v, [SFetch, SList], seen, [SCascade], begun);
      var rest;
      rest, last := MarksAreRun(c, begun, v.row.value.force, listed, writesLeft);
      SncRunJoin(c, v, [SFetch, SList] + [SCascade], begun, rest, last);
      moves := [SFetch, SList] + [SCascade] + rest;
    }
  }

  /** Whatever order the nodes are listed in and wherever the writes stop, the machine
      has a run of this reconcile alone that leaves the rows of `ReconcileSncDelete`. */
  lemma SncDeleteIsRun(s: State, c: string, listed: seq<nat>, writesLeft: nat) returns (steps: seq<Step>, last: State)
    requires c in s.sncs && s.sncs[c].deleting && c !in s.sctl && Enumerates(listed, Owned(s.nodes, c))
    ensures Runs(s, steps, last) && c !in last.sctl
    ensures last.sncs == if listed == [] && writesLeft > 0 then s.sncs - {c} else s.sncs
    ensures last.nodes == Cascade(s.nodes, listed, s.sncs[c].force, writesLeft)
  {
    var v := SncViewOf(s, c);
    var moves, w := DeleteIsSncRun(c, v, listed, writesLeft);
    SncRunIsRun(s, c, v, moves, w);
    ViewAt(s, c, v, w);
    steps, last := SncSteps(c, moves), WithSnc(s, c, w);
    PutTwice(s.sncs, c, None, v.row);
  }

  // ----- reconciling a StaticNodeCluster -----

  lemma UpsertIsRun(c: string, v: SncView)
    requires v.pc.Some? && v.pc.value.SUpserting? && v.pc.value.left != []
    requires Sound(Fleet(v.nodes, v.nextId))
    requires var held := Holder(v.nodes, v.pc.value.left[0]);
             held.Some? ==> MayAdopt(v.nodes[held.value], c)
    ensures var pc := v.pc.value;
            var put := PutNode(Fleet(v.nodes, v.nextId), pc.left[0], c);
            SncRun(c, v, [SFind(Holder(v.nodes, pc.left[0])), SUpsert(true)],
                   SncView(v.row, Some(SUpserting(pc.plan, pc.left[1..], pc.listed)), put.nodes, put.nextId))
  {
    var find := SFind(Holder(v.nodes, v.pc.value.left[0]));
    var found := SncDo(c, v, find);
    SncRunOne(c, v, find);
    SncRunOne(c, found, SUpsert(true));
    SncRunJoin(c, v, [find], found, [SUpsert(true)], SncDo(c, found, SUpsert(true)));
    assert [find] + [SUpsert(true)] == [find, SUpsert(true)];
  }

  lemma {:induction false} UpsertsAreRun(c: string, v: SncView, plan: seq<string>, k: nat)
    returns (moves: seq<SncMove>, last: SncView)
    requires v.pc.Some? && v.pc.value.SUpserting? && v.pc.value.left == plan && k <= |plan|
    requires Sound(Fleet(v.nodes, v.nextId)) && Adopts(Fleet(v.nodes, v.nextId), plan[..k], c)
    ensures SncRun(c, v, moves, last)
    ensures var put := PutNodes(Fleet(v.nodes, v.nextId), plan[..k], c);
            last == SncView(v.row, Some(SUpserting(v.pc.value.plan, plan[k..], v.pc.value.listed)), put.nodes, put.nextId)
    decreases k
  {
    if k == 0 {
      moves, last := [], v;
      assert plan[0..] == plan && plan[..0] == [];
    } else {
      var f := Fleet(v.nodes, v.nextId);
      assert plan[..k][..k - 1] == plan[..k - 1];
      var front, mid := UpsertsAreRun(c, v, plan, k - 1);
      PutNodesEffect(f, plan[..k - 1], c);
      UpsertIsRun(c, mid);
      assert plan[k - 1..][1..] == plan[k..];
      var more := [SFind(Holder(mid.nodes, plan[k - 1])), SUpsert(true)];
      var put := PutNodes(f, plan[..k], c);
      last := SncView(v.row, Some(SUpserting(v.pc.value.plan, plan[k..], v.pc.value.listed)), put.nodes, put.nextId);
      SncRunJoin(c, v, front, mid, more, last);
      moves := front + more;
    }
  }

  /** The stale nodes among `left` are still to be pruned, as they were read. */
  ghost predicate Stale(v: SncView, plan: seq<string>, left: seq<nat>)
  {
    && v.pc.Some? && v.pc.value.SPruning?
    && (forall i, j :: 0 <= i < j < |left| ==> left[i] != left[j])
    && (forall id :: id in left ==> id in v.nodes)
    && (forall id :: id in v.pc.value.todo <==> id in left && v.nodes[id].name !in plan)
    && (forall id :: id in v.pc.value.todo ==> v.pc.value.todo[id].force == v.nodes[id].force)
  }

  lemma {:induction false} PrunesFromFront(nodes: Nodes, plan: seq<string>, id: nat, rest: seq<nat>)
    requires id in nodes
    ensures Prunes(nodes, plan, [id] + rest)
         == Prunes(if nodes[id].name !in plan then SoftDelete(nodes, id, nodes[id].force) else nodes, plan, rest)
    decreases |rest|
  {
    if rest == [] {
      assert [id] + rest == [id] && [id][..0] == [];
    } else {
      assert ([id] + rest)[..|rest|] == [id] + rest[..|rest| - 1];
      PrunesFromFront(nodes, plan, id, rest[..|rest| - 1]);
    }
  }

  /** Pruning the first `k` of the nodes left. */
  lemma {:induction false} PrunesAreRun(c: string, v: SncView, plan: seq<string>, left: seq<nat>, k: nat)
    returns (moves: seq<SncMove>, last: SncView)
    requires Stale(v, plan, left) && k <= |left|
    ensures SncRun(c, v, moves, last) && Stale(last, plan, left[k..])
    ensures last.row == v.row && last.nextId == v.nextId && last.nodes == Prunes(v.nodes, plan, left[..k])
    decreases k
  {
    if k == 0 {
      moves, last := [], v;
      assert left[0..] == left && left[..0] == [];
    } else {
      var id := left[0];
      assert left[..k] == [id] + left[1..][..k - 1];
      assert left[k..] == left[1..][k - 1..];
      PrunesFromFront(v.nodes, plan, id, left[1..][..k - 1]);
      if id in v.pc.value.todo {
        var next := SncDo(c, v, SPruneOne(id, true));
        SncRunOne(c, v, SPruneOne(id, true));
        assert Stale(next, plan, left[1..]);
        var rest;
        rest, last := PrunesAreRun(c, next, plan, left[1..], k - 1);
        SncRunJoin(c, v, [SPruneOne(id, true)], next, rest, last);
        moves := [SPruneOne(id, true)] + rest;
      } else {
        moves, last := PrunesAreRun(c, v, plan, left[1..], k - 1);
      }
    }
  }

  /** Fetching, listing and planning. */
  lemma PlanIsRun(c: string, v: SncView, plan: seq<string>)
    requires v.row.Some? && !v.row.value.deleting && v.pc.None?
    ensures SncRun(c, v, [SFetch, SList] + [SPlan(plan)],
                   v.(pc := Some(SUpserting((set n | n in plan), plan, OwnedRows(v.nodes, c)))))
  {
    ListIsRun(c, v);
    var seen := v.(pc := Some(SListed(v.row.value, OwnedRows(v.nodes, c))));
    SncRunOne(c, seen, SPlan(plan));
    SncRunJoin(c, v, [SFetch, SList], seen, [SPlan(plan)], SncDo(c, seen, SPlan(plan)));
  }

  /** What `ReconcileSncNormal` leaves after `put` upserts and `pruned` prunings. */
  ghost function NormalRows(f: Fleet, c: string, plan: seq<string>, put: nat, listed: seq<nat>, pruned: nat): Fleet
    requires put <= |plan| && pruned <= |listed|
  {
    var g := PutNodes(f, plan[..put], c);
    g.(nodes := Prunes(g.nodes, plan, listed[..pruned]))
  }

  lemma PruningIsRun(c: string, v: SncView, mid: SncView, plan: seq<string>, listed: seq<nat>, pruned: nat)
    returns (moves: seq<SncMove>, last: SncView)
    requires Sound(Fleet(v.nodes, v.nextId)) && Enumerates(listed, Owned(v.nodes, c)) && pruned <= |listed|
    requires mid.pc == Some(SUpserting((set n | n in plan), [], OwnedRows(v.nodes, c)))
    requires mid.nodes == PutNodes(Fleet(v.nodes, v.nextId), plan, c).nodes
    ensures SncRun(c, mid, moves, last)
    ensures last == SncView(mid.row, None, Prunes(mid.nodes, plan, listed[..pruned]), mid.nextId)
  {
    var begun := SncDo(c, mid, SPrune);
    SncRunOne(c, mid, SPrune);
    PutNodesEffect(Fleet(v.nodes, v.nextId), plan, c);
    assert Stale(begun, plan, listed);
    var rest, done := PrunesAreRun(c, begun, plan, listed, pruned);
    SncRunJoin(c, mid, [SPrune], begun, rest, done);
    last := SncDo(c, done, SFail);
    SncRunOne(c, done, SFail);
    SncRunJoin(c, mid, [SPrune] + rest, done, [SFail], last);
    moves := [SPrune] + rest + [SFail];
    if pruned == |listed| {
      assert done.pc.value.todo == map[];
      SncRunOne(c, done, SReturn);
      SncRunJoin(c, mid, [SPrune] + rest, done, [SReturn], last);
      moves := [SPrune] + rest + [SReturn];
    }
  }

  lemma NormalIsSncRun(c: string, v: SncView, plan: seq<string>, put: nat, listed: seq<nat>, pruned: nat)
    returns (moves: seq<SncMove>, last: SncView)
    requires v.row.Some? && !v.row.value.deleting && v.pc.None? && Enumerates(listed, Owned(v.nodes, c))
    requires Sound(Fleet(v.nodes, v.nextId)) && put <= |plan| && pruned <= |listed| && (pruned > 0 ==> put == |plan|)
    requires Adopts(Fleet(v.nodes, v.nextId), plan[..put], c)
    ensures SncRun(c, v, moves, last)
    ensures var rows := NormalRows(Fleet(v.nodes, v.nextId), c, plan, put, listed, pruned);
            last == SncView(v.row, None, rows.nodes, rows.nextId)
  {
    PlanIsRun(c, v, plan);
    var planned := v.(pc := Some(SUpserting((set n | n in plan), plan, OwnedRows(v.nodes, c))));
    var upserts, mid := UpsertsAreRun(c, planned, plan, put);
    SncRunJoin(c, v, [SFetch, SList] + [SPlan(plan)], planned, upserts, mid);
    var rest;
    if put == |plan| {
      assert plan[put..] == [] && plan[..put] == plan;
      rest, last := PruningIsRun(c, v, mid, plan, listed, pruned);
    } else {
      assert listed[..pruned] == [];
      rest, last := [SFail], SncDo(c, mid, SFail);
      SncRunOne(c, mid, SFail);
    }
    SncRunJoin(c, v, [SFetch, SList] + [SPlan(plan)] + upserts, mid, rest, last);
    moves := [SFetch, SList] + [SPlan(plan)] + upserts + rest;
  }

  /** Wherever it stops, the machine has a run of this reconcile alone that leaves the
      rows of `ReconcileSncNormal`. */
  lemma SncNormalIsRun(s: State, c: string, plan: seq<string>, put: nat, listed: seq<nat>, pruned: nat)
    returns (steps: seq<Step>, last: State)
    requires c in s.sncs && !s.sncs[c].deleting && c !in s.sctl && Enumerates(listed, Owned(s.nodes, c))
    requires Sound(Fleet(s.nodes, s.nextId)) && put <= |plan| && pruned <= |listed| && (pruned > 0 ==> put == |plan|)
    requires Adopts(Fleet(s.nodes, s.nextId), plan[..put], c)
    ensures Runs(s, steps, last) && c !in last.sctl && last.sncs == s.sncs
    ensures Fleet(last.nodes, last.nextId) == NormalRows(Fleet(s.nodes, s.nextId), c, plan, put, listed, pruned)
  {
    var v := SncViewOf(s, c);
    var moves, w := NormalIsSncRun(c, v, plan, put, listed, pruned);
    SncRunIsRun(s, c, v, moves, w);
    ViewAt(s, c, v, w);
    steps, last := SncSteps(c, moves), WithSnc(s, c, w);
    PutTwice(s.sncs, c, v.row, v.row);
  }
}
