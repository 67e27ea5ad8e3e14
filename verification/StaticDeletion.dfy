/** Deletion of a static-node cluster finishes: under the force annotation whatever the
    remote cleanups do, without it if they succeed
    (controllers/static_node_cluster_controller.go: reconcileDelete,
    controllers/static_node_controller.go: reconcileDelete, controllers/static_node_helpers.go).

    This speaks about the interleaved runs of `StaticLifecycle`.  Throughout, `force` says
    which of the two is meant.
 */
module StaticDeletion {
  import opened Basics
  import opened StaticRows
  import opened StaticLifecycle

  // ----- rows are only rewritten by their owner's reconcile -----

  ghost predicate AnchoredRows(c: string, snapshot: Nodes, nodes: Nodes, nextId: nat)
  {
    forall id :: id in snapshot ==> id < nextId && (id in nodes ==> nodes[id].owner == c)
  }

  ghost predicate AnchoredPc(c: string, pc: SncPc, nodes: Nodes, nextId: nat)
  {
    match pc
    case SRead(_) => true
    case SListed(_, listed) => AnchoredRows(c, listed, nodes, nextId)
    case SMarking(_, todo) => AnchoredRows(c, todo, nodes, nextId)
    case SUpserting(_, _, listed) => AnchoredRows(c, listed, nodes, nextId)
    case SFound(_, _, listed, _, found) =>
      && AnchoredRows(c, listed, nodes, nextId)
      && (found.Some? ==> found.value.0 < nextId && found.value.1.owner != "")
      && (found.Some? && found.value.1.owner == c && found.value.0 in nodes ==> nodes[found.value.0].owner == c)
    case SPruning(todo) => AnchoredRows(c, todo, nodes, nextId)
  }

  /** Every node has an owner for life, and no reconcile holds rows of another owner. */
  ghost predicate Anchored(s: State)
  {
    && (forall id :: id in s.nodes ==> s.nodes[id].owner != "" && id < s.nextId)
    && (forall c :: c in s.sncs || c in s.sctl ==> c != "")
    && (forall c :: c in s.cctl || c in s.clusters ==> c != "")
    && (forall c :: c in s.sctl ==> AnchoredPc(c, s.sctl[c], s.nodes, s.nextId))
  }

  /** A reconcile changes only rows its own cluster owns, before and after. */
  lemma AnchoredMove(c: string, v: SncView, move: SncMove)
    requires SncCan(v, move) && c != ""
    requires forall id :: id in v.nodes ==> v.nodes[id].owner != "" && id < v.nextId
    requires v.pc.Some? ==> AnchoredPc(c, v.pc.value, v.nodes, v.nextId)
    ensures var w := SncDo(c, v, move);
      && (forall id :: id in v.nodes ==> id in w.nodes && w.nodes[id].owner == v.nodes[id].owner)
      && (forall id :: id in v.nodes && v.nodes[id].owner != c ==> w.nodes[id] == v.nodes[id])
      && (forall id :: id in w.nodes && id !in v.nodes ==> id == v.nextId && w.nodes[id].owner == c && v.nextId < w.nextId)
      && v.nextId <= w.nextId
      && (w.pc.Some? ==> AnchoredPc(c, w.pc.value, w.nodes, w.nextId))
  {
  }

  lemma AnchoredWithSnc(s: State, c: string, w: SncView)
    requires Anchored(s) && c != "" && w.row in {Get(s.sncs, c), None}
    requires forall id :: id in s.nodes ==> id in w.nodes && w.nodes[id].owner == s.nodes[id].owner
    requires forall id :: id in w.nodes && id !in s.nodes ==> id == s.nextId && w.nodes[id].owner == c && s.nextId < w.nextId
    requires s.nextId <= w.nextId
    requires w.pc.Some? ==> AnchoredPc(c, w.pc.value, w.nodes, w.nextId)
    ensures Anchored(WithSnc(s, c, w))
  {
  }

  lemma AnchoredStep(s: State, step: Step)
    requires Anchored(s) && Enabled(s, step)
    ensures Anchored(Do(s, step))
  {
    match step
    case SncStep(c, move) =>
      AnchoredMove(c, SncViewOf(s, c), move);
      SncMoveRow(c, SncViewOf(s, c), move);
      AnchoredWithSnc(s, c, SncDo(c, SncViewOf(s, c), move));
    case ClusterStep(c, move) =>
      AnchoredWithCluster(s, c, ClusterDo(ClusterViewOf(s, c), move));
    case UserCreates(c) =>
    case UserDeletes(c, force) =>
    case NodeStep(id, move) =>
      AnchoredNode(s, id, move);
  }

  lemma AnchoredWithCluster(s: State, c: string, v: ClusterView)
    requires Anchored(s) && c != ""
    ensures Anchored(WithCluster(s, c, v))
  {
  }

  lemma AnchoredNode(s: State, id: nat, move: NodeMove)
    requires Anchored(s) && Enabled(s, NodeStep(id, move))
    ensures Anchored(Do(s, NodeStep(id, move)))
  {
    if move == NRemove(true) {
      forall c | c in s.sctl ensures AnchoredPc(c, s.sctl[c], s.nodes - {id}, s.nextId) {
        AnchoredWithout(c, s.sctl[c], s.nodes, id, s.nextId);
      }
    }
  }

  lemma AnchoredWithout(c: string, pc: SncPc, nodes: Nodes, id: nat, nextId: nat)
    requires AnchoredPc(c, pc, nodes, nextId)
    ensures AnchoredPc(c, pc, nodes - {id}, nextId)
  {
  }

  // ----- a deletion on its way -----

  /** The nodes that do not carry what the deletion is to put on them. */
  function Unmarked(nodes: Nodes, c: string, force: bool): set<nat>
  {
    set id | id in nodes && nodes[id].owner == c && !(nodes[id].deleting && (force ==> nodes[id].force))
  }

  /** A StaticNodeCluster row that demands deletion. */
  predicate Demands(row: SncRow, force: bool)
  {
    row.deleting && (force ==> row.force)
  }

  /** The row demands deletion, and a Cluster reconcile that has read the row has read the
      demand. */
  ghost predicate Demanded(v: ClusterView, force: bool)
  {
    && v.snc.Some? && Demands(v.snc.value, force)
    && (v.pc.Some? && v.pc.value.CDelete? ==> Demands(v.pc.value.snc, force))
  }

  /** The one step that takes the demand back: a reconcile of a Cluster row created anew
      found the old StaticNodeCluster row and writes it as desired. */
  predicate Undoes(s: State, step: Step, c: string)
  {
    && step == ClusterStep(c, CApply(true))
    && c in s.sncs && c in s.cctl && s.cctl[c].CNormal? && s.cctl[c].found
  }

  /** What was read about the cluster's nodes is no further than what is stored. */
  ghost predicate Behind(snapshot: Nodes, nodes: Nodes, force: bool)
  {
    forall id :: id in snapshot && id in nodes ==>
      (snapshot[id].deleting ==> nodes[id].deleting) && (force && snapshot[id].force ==> nodes[id].force)
  }

  /** The reconcile in flight has read the demand and will not miss an unmarked node. */
  ghost predicate Fresh(c: string, pc: Option<SncPc>, nodes: Nodes, force: bool)
  {
    match pc
    case None => true
    case Some(SRead(row)) => Demands(row, force)
    case Some(SListed(row, listed)) =>
      Demands(row, force) && Behind(listed, nodes, force) && Unmarked(nodes, c, force) <= listed.Keys
    case Some(SMarking(marksForce, todo)) =>
      (force ==> marksForce) && Behind(todo, nodes, force) && Unmarked(nodes, c, force) <= todo.Keys
    case _ => false
  }

  ghost predicate Ordered(s: State, c: string, force: bool)
  {
    Anchored(s) && c != "" && Demanded(ClusterViewOf(s, c), force) && SncOk(c, Get(s.sncs, c), Get(s.sctl, c), s.nodes)
  }

  ghost predicate OnItsWay(s: State, c: string, force: bool)
  {
    Ordered(s, c, force) && Fresh(c, Get(s.sctl, c), s.nodes, force)
  }

  /** The deletion is over: neither the row nor a node of the cluster is left. */
  ghost predicate Finished(s: State, c: string)
  {
    c !in s.sncs && Owned(s.nodes, c) == {}
  }

  lemma DemandedMove(v: ClusterView, move: ClusterMove, force: bool)
    requires Demanded(v, force) && ClusterCan(v, move)
    requires !(move == CApply(true) && v.pc.value.found)
    ensures Demanded(ClusterDo(v, move), force)
  {
  }

  lemma DemandedStep(s: State, step: Step, c: string, force: bool)
    requires Demanded(ClusterViewOf(s, c), force) && Enabled(s, step) && !Undoes(s, step, c)
    ensures c !in Do(s, step).sncs || Demanded(ClusterViewOf(Do(s, step), c), force)
  {
    var t := Do(s, step);
    match step
    case ClusterStep(d, move) =>
      if d == c {
        DemandedMove(ClusterViewOf(s, c), move, force);
        assert ClusterViewOf(t, c) == ClusterDo(ClusterViewOf(s, c), move);
      } else {
        assert ClusterViewOf(t, c) == ClusterViewOf(s, c);
      }
    case SncStep(d, move) =>
      SncMoveRow(d, SncViewOf(s, d), move);
    case UserDeletes(d, force) =>
    case UserCreates(d) =>
    case NodeStep(id, move) =>
  }

  lemma OrderedStep(s: State, step: Step, c: string, force: bool)
    requires Ordered(s, c, force) && Enabled(s, step) && !Undoes(s, step, c)
    ensures Finished(Do(s, step), c) || Ordered(Do(s, step), c, force)
  {
    AnchoredStep(s, step);
    DemandedStep(s, step, c, force);
    SncOkStep(s, step, c);
  }

  /** Steps of other reconciles leave the cluster's nodes alone or remove them. */
  lemma OtherStepKeepsRows(s: State, step: Step, c: string)
    requires Anchored(s) && Enabled(s, step) && c != "" && !(step.SncStep? && step.c == c)
    ensures forall id :: id in Do(s, step).nodes && Do(s, step).nodes[id].owner == c ==>
              id in s.nodes && Do(s, step).nodes[id] == s.nodes[id]
    ensures Get(Do(s, step).sctl, c) == Get(s.sctl, c)
  {
    match step
    case SncStep(d, move) =>
      AnchoredMove(d, SncViewOf(s, d), move);
    case ClusterStep(d, move) =>
    case UserDeletes(d, force) =>
    case UserCreates(d) =>
    case NodeStep(id, move) =>
  }

  /** The cluster's own fresh reconcile only marks. */
  lemma FreshMove(c: string, v: SncView, move: SncMove, force: bool)
    requires SncCan(v, move) && c != "" && Fresh(c, v.pc, v.nodes, force)
    requires v.row.Some? ==> Demands(v.row.value, force)
    requires v.pc.Some? ==> AnchoredPc(c, v.pc.value, v.nodes, v.nextId)
    ensures var w := SncDo(c, v, move);
      && Fresh(c, w.pc, w.nodes, force)
      && Owned(w.nodes, c) == Owned(v.nodes, c)
      && Unmarked(w.nodes, c, force) <= Unmarked(v.nodes, c, force)
      && (move.SReturn? ==> Unmarked(w.nodes, c, force) == {})
  {
  }

  /** A step that does not take the demand back keeps the deletion on its way or finishes
      it; nodes are never added and marks are never lost. */
  lemma WayStep(s: State, step: Step, c: string, force: bool)
    requires OnItsWay(s, c, force) && Enabled(s, step) && !Undoes(s, step, c)
    ensures Finished(Do(s, step), c) || OnItsWay(Do(s, step), c, force)
    ensures Owned(Do(s, step).nodes, c) <= Owned(s.nodes, c)
    ensures Unmarked(Do(s, step).nodes, c, force) <= Unmarked(s.nodes, c, force)
    ensures step == SncStep(c, SReturn) ==> Unmarked(Do(s, step).nodes, c, force) == {}
  {
    AnchoredStep(s, step);
    OrderedStep(s, step, c, force);
    if step.SncStep? && step.c == c {
      FreshMove(c, SncViewOf(s, c), step.smove, force);
      assert Get(Do(s, step).sctl, c) == SncDo(c, SncViewOf(s, c), step.smove).pc;
    } else {
      OtherStepKeepsRows(s, step, c);
      FreshUnderRemovals(c, Get(s.sctl, c), s.nodes, Do(s, step).nodes, Do(s, step).nextId, force);
    }
  }

  lemma FreshUnderRemovals(c: string, pc: Option<SncPc>, before: Nodes, after: Nodes, nextId: nat, force: bool)
    requires Fresh(c, pc, before, force)
    requires forall id :: id in after && after[id].owner == c ==> id in before && after[id] == before[id]
    requires pc.Some? ==> AnchoredPc(c, pc.value, after, nextId)
    ensures Fresh(c, pc, after, force) && Owned(after, c) <= Owned(before, c) && Unmarked(after, c, force) <= Unmarked(before, c, force)
  {
  }

  /** A deletion is lost by that one step and by no other. */
  lemma UndoneExactly(s: State, step: Step, c: string, force: bool)
    requires OnItsWay(s, c, force) && Enabled(s, step)
    ensures Undoes(s, step, c) <==> !(Finished(Do(s, step), c) || OnItsWay(Do(s, step), c, force))
    ensures Undoes(s, step, c) ==>
              c in Do(s, step).sncs && Do(s, step).sncs[c] == SncRow(false, s.cctl[c].row.force)
  {
    if Undoes(s, step, c) {
      assert ClusterViewOf(Do(s, step), c) == ClusterDo(ClusterViewOf(s, c), CApply(true));
    } else {
      WayStep(s, step, c, force);
    }
  }

  // ----- every run, forced or not, can get there -----

  ghost predicate Sane(v: ClusterView)
  {
    && (v.pc.Some? ==> v.row.Some?)
    && (v.pc.Some? && v.pc.value.row.deleting ==> v.row.value.deleting)
    && (v.pc.Some? && v.pc.value.CDelete? ==> v.pc.value.row.deleting && v.snc in {None, Some(v.pc.value.snc)})
    && (v.pc.Some? && v.pc.value.CNormal? ==> !v.pc.value.row.deleting)
  }

  lemma SaneMove(v: ClusterView, move: ClusterMove)
    requires Sane(v) && ClusterCan(v, move)
    ensures Sane(ClusterDo(v, move))
  {
  }

  lemma SaneStep(s: State, step: Step, c: string)
    requires Sane(ClusterViewOf(s, c)) && Enabled(s, step)
    ensures Sane(ClusterViewOf(Do(s, step), c))
  {
    var t := Do(s, step);
    match step
    case ClusterStep(d, move) =>
      if d == c {
        SaneMove(ClusterViewOf(s, c), move);
        assert ClusterViewOf(t, c) == ClusterDo(ClusterViewOf(s, c), move);
      } else {
        assert ClusterViewOf(t, c) == ClusterViewOf(s, c);
      }
    case SncStep(d, move) =>
      SncMoveRow(d, SncViewOf(s, d), move);
    case UserDeletes(d, force) =>
    case UserCreates(d) =>
    case NodeStep(id, move) =>
  }

  lemma {:induction false} SaneRun(s: State, steps: seq<Step>, last: State, c: string)
    requires Anchored(s) && Sane(ClusterViewOf(s, c)) && SncOk(c, Get(s.sncs, c), Get(s.sctl, c), s.nodes)
    requires Runs(s, steps, last)
    ensures Anchored(last) && Sane(ClusterViewOf(last, c)) && SncOk(c, Get(last.sncs, c), Get(last.sctl, c), last.nodes)
    decreases |steps|
  {
    if steps != [] {
      AnchoredStep(s, steps[0]);
      SaneStep(s, steps[0], c);
      SncOkStep(s, steps[0], c);
      SaneRun(Do(s, steps[0]), steps[1..], last, c);
    }
  }

  /** In any run, the Cluster reconcile of a deleted cluster leaves its StaticNodeCluster
      row marked for deletion, forced if the cluster or the row was. */
  lemma OrderTakesHold(s: State, steps: seq<Step>, mid: State, c: string, force: bool)
    requires Init(s) && Runs(s, steps, mid)
    requires Enabled(mid, ClusterStep(c, CMark(true))) && (force ==> mid.cctl[c].row.force) && c in mid.sncs
    ensures Ordered(Do(mid, ClusterStep(c, CMark(true))), c, force)
    ensures var t := Do(mid, ClusterStep(c, CMark(true)));
            c in t.sncs && t.sncs[c] == SncRow(true, mid.sncs[c].force || mid.cctl[c].row.force)
  {
    SaneRun(s, steps, mid, c);
    var t := Do(mid, ClusterStep(c, CMark(true)));
    SaneStep(mid, ClusterStep(c, CMark(true)), c);
    AnchoredStep(mid, ClusterStep(c, CMark(true)));
    SncOkStep(mid, ClusterStep(c, CMark(true)), c);
    assert ClusterViewOf(t, c) == ClusterDo(ClusterViewOf(mid, c), CMark(true));
  }

  // ----- it finishes -----

  /** The step neither takes the demand back nor is a failing storage call of this
      cluster's reconcile or of one of its nodes', nor, unless forced, a failing cleanup
      of one of them. */
  predicate Smooth(s: State, step: Step, c: string, force: bool)
  {
    && !Undoes(s, step, c)
    && !(step.SncStep? && step.c == c && (step.smove.SFail? || step.smove == SRemove(false)
                                         || (step.smove.SMark? && !step.smove.ok)))
    && !(step.NodeStep? && step.id in Owned(s.nodes, c) &&
         (step.nmove == NRemove(false) || (!force && step.nmove == NCleanup(false))))
  }

  /** Every step is smooth, up to the moment the deletion is finished. */
  ghost predicate SmoothRun(s: State, steps: seq<Step>, c: string, force: bool)
    decreases |steps|
  {
    steps != [] && Enabled(s, steps[0]) && !Finished(s, c) ==>
      Smooth(s, steps[0], c, force) && SmoothRun(Do(s, steps[0]), steps[1..], c, force)
  }

  /** The run passes through a state in which the deletion is finished. */
  ghost predicate Finishes(s: State, steps: seq<Step>, c: string)
    decreases |steps|
  {
    Finished(s, c) || (steps != [] && Enabled(s, steps[0]) && Finishes(Do(s, steps[0]), steps[1..], c))
  }

  /** Once fetched, a smooth reconcile of the row ends with every node marked or with
      the deletion finished. */
  lemma {:induction false} CascadeCompletes(s: State, steps: seq<Step>, last: State, c: string, force: bool)
    requires OnItsWay(s, c, force) && Runs(s, steps, last) && SmoothRun(s, steps, c, force)
    requires c in s.sctl || Unmarked(s.nodes, c, force) == {}
    ensures Finishes(s, steps, c) || (OnItsWay(last, c, force) && (c in last.sctl || Unmarked(last.nodes, c, force) == {}))
    decreases |steps|
  {
    if steps != [] {
      var step, next := steps[0], Do(s, steps[0]);
      WayStep(s, step, c, force);
      if !Finished(next, c) {
        if c in s.sctl && c !in next.sctl {
          LeavesOnlyDone(s, step, c, force);
        }
        CascadeCompletes(next, steps[1..], last, c, force);
      }
    }
  }

  lemma LeavesOnlyDone(s: State, step: Step, c: string, force: bool)
    requires OnItsWay(s, c, force) && Enabled(s, step) && Smooth(s, step, c, force)
    requires c in s.sctl && c !in Do(s, step).sctl
    ensures step == SncStep(c, SReturn) || c !in Do(s, step).sncs
  {
    if !(step.SncStep? && step.c == c) {
      OtherStepKeepsRows(s, step, c);
    }
  }

  /** The first fetch after the demand puts the deletion on its way. */
  lemma {:induction false} FetchSetsOut(s: State, steps: seq<Step>, last: State, c: string, force: bool)
    requires Ordered(s, c, force) && Runs(s, steps, last) && SmoothRun(s, steps, c, force)
    requires SncStep(c, SFetch) in steps && c !in last.sctl
    ensures Finishes(s, steps, c) || (OnItsWay(last, c, force) && Unmarked(last.nodes, c, force) == {})
    decreases |steps|
  {
    var next := Do(s, steps[0]);
    OrderedStep(s, steps[0], c, force);
    if !Finished(next, c) {
      if steps[0] == SncStep(c, SFetch) {
        assert Get(next.sctl, c) == Some(SRead(s.sncs[c]));
        CascadeCompletes(next, steps[1..], last, c, force);
      } else {
        FetchSetsOut(next, steps[1..], last, c, force);
      }
    }
  }

  /** A node fetched with its mark on goes, under force whatever its cleanup returns. */
  ghost predicate Doomed(s: State, c: string, id: nat, force: bool)
  {
    id in Owned(s.nodes, c) ==> id in s.nctl && (s.nctl[id].NRead? && force ==> s.nctl[id].row.force)
  }

  lemma DoomedStep(s: State, step: Step, c: string, id: nat, force: bool)
    requires OnItsWay(s, c, force) && Enabled(s, step) && Smooth(s, step, c, force) && Doomed(s, c, id, force)
    ensures Doomed(Do(s, step), c, id, force)
  {
    WayStep(s, step, c, force);
  }

  lemma {:induction false} DoomedStays(s: State, steps: seq<Step>, last: State, c: string, id: nat, force: bool)
    requires OnItsWay(s, c, force) && Runs(s, steps, last) && SmoothRun(s, steps, c, force) && Doomed(s, c, id, force)
    ensures Finishes(s, steps, c) || Doomed(last, c, id, force)
    decreases |steps|
  {
    if steps != [] {
      var next := Do(s, steps[0]);
      WayStep(s, steps[0], c, force);
      if !Finished(next, c) {
        DoomedStep(s, steps[0], c, id, force);
        DoomedStays(next, steps[1..], last, c, id, force);
      }
    }
  }

  lemma {:induction false} FetchedNodeGoes(s: State, steps: seq<Step>, last: State, c: string, id: nat, force: bool)
    requires OnItsWay(s, c, force) && Unmarked(s.nodes, c, force) == {} && Runs(s, steps, last) && SmoothRun(s, steps, c, force)
    requires NodeStep(id, NFetch) in steps && id !in last.nctl
    ensures Finishes(s, steps, c) || id !in Owned(last.nodes, c)
    decreases |steps|
  {
    var next := Do(s, steps[0]);
    WayStep(s, steps[0], c, force);
    if !Finished(next, c) {
      if steps[0] == NodeStep(id, NFetch) {
        assert Doomed(next, c, id, force) by {
          if id in Owned(s.nodes, c) {
            assert id !in Unmarked(s.nodes, c, force);
          }
        }
        DoomedStays(next, steps[1..], last, c, id, force);
      } else {
        FetchedNodeGoes(next, steps[1..], last, c, id, force);
      }
    }
  }

  lemma {:induction false} WayRun(s: State, steps: seq<Step>, last: State, c: string, force: bool)
    requires OnItsWay(s, c, force) && Runs(s, steps, last) && SmoothRun(s, steps, c, force)
    ensures Finishes(s, steps, c) || OnItsWay(last, c, force)
    decreases |steps|
  {
    if steps != [] {
      var next := Do(s, steps[0]);
      WayStep(s, steps[0], c, force);
      if !Finished(next, c) {
        WayRun(next, steps[1..], last, c, force);
      }
    }
  }

  /** A reconcile that finds no nodes removes the row. */
  ghost predicate Closing(s: State, c: string)
  {
    c in s.sctl && (s.sctl[c].SRead? || (s.sctl[c].SListed? && s.sctl[c].listed == map[]))
  }

  lemma ClosingStep(s: State, step: Step, c: string, force: bool)
    requires OnItsWay(s, c, force) && Enabled(s, step) && Smooth(s, step, c, force) && Owned(s.nodes, c) == {} && Closing(s, c)
    ensures Finished(Do(s, step), c) || Closing(Do(s, step), c)
  {
    WayStep(s, step, c, force);
    if step.SncStep? && step.c == c {
      if step.smove.SList? {
        assert OwnedRows(s.nodes, c).Keys == Owned(s.nodes, c);
      }
    } else {
      OtherStepKeepsRows(s, step, c);
    }
  }

  lemma {:induction false} ClosingRun(s: State, steps: seq<Step>, last: State, c: string, force: bool)
    requires OnItsWay(s, c, force) && Owned(s.nodes, c) == {} && Runs(s, steps, last) && SmoothRun(s, steps, c, force)
    requires Closing(s, c) || SncStep(c, SFetch) in steps
    ensures Finishes(s, steps, c) || Closing(last, c)
    decreases |steps|
  {
    if steps != [] {
      var next := Do(s, steps[0]);
      WayStep(s, steps[0], c, force);
      if !Finished(next, c) {
        if Closing(s, c) {
          ClosingStep(s, steps[0], c, force);
        }
        ClosingRun(next, steps[1..], last, c, force);
      }
    }
  }

  /** When every node is marked, reconciling those that remain leaves none. */
  lemma SweepClears(s: State, steps: seq<Step>, last: State, c: string, force: bool)
    requires OnItsWay(s, c, force) && Unmarked(s.nodes, c, force) == {}
    requires Runs(s, steps, last) && SmoothRun(s, steps, c, force)
    requires forall id :: id in Owned(last.nodes, c) ==> NodeStep(id, NFetch) in steps && id !in last.nctl
    ensures Finishes(s, steps, c) || (OnItsWay(last, c, force) && Owned(last.nodes, c) == {})
  {
    WayRun(s, steps, last, c, force);
    if id :| id in Owned(last.nodes, c) {
      FetchedNodeGoes(s, steps, last, c, id, force);
    }
  }

  /** When no node is left, a complete reconcile of the row removes it. */
  lemma CloseRemoves(s: State, steps: seq<Step>, last: State, c: string, force: bool)
    requires OnItsWay(s, c, force) && Owned(s.nodes, c) == {}
    requires Runs(s, steps, last) && SmoothRun(s, steps, c, force)
    requires SncStep(c, SFetch) in steps && c !in last.sctl
    ensures Finishes(s, steps, c)
  {
    ClosingRun(s, steps, last, c, force);
  }

  // ----- cutting a run in two -----

  lemma {:induction false} SmoothSplits(s: State, a: seq<Step>, mid: State, b: seq<Step>, c: string, force: bool)
    requires Runs(s, a, mid) && SmoothRun(s, a + b, c, force)
    ensures SmoothRun(s, a, c, force) && (Finishes(s, a, c) || SmoothRun(mid, b, c, force))
    decreases |a|
  {
    if a == [] {
      assert a + b == b;
    } else if !Finished(s, c) {
      assert (a + b)[0] == a[0] && (a + b)[1..] == a[1..] + b;
      SmoothSplits(Do(s, a[0]), a[1..], mid, b, c, force);
    }
  }

  lemma {:induction false} FinishesJoin(s: State, a: seq<Step>, mid: State, b: seq<Step>, c: string)
    requires Runs(s, a, mid) && (Finishes(s, a, c) || Finishes(mid, b, c))
    ensures Finishes(s, a + b, c)
    decreases |a|
  {
    if a == [] {
      assert a + b == b;
    } else if !Finished(s, c) {
      assert (a + b)[0] == a[0] && (a + b)[1..] == a[1..] + b;
      FinishesJoin(Do(s, a[0]), a[1..], mid, b, c);
    }
  }

  /** Deletion finishes.  Take any state in which the row carries a deletion timestamp,
      and any run through two later states such that, as long as the deletion is not
      finished: the row's reconcile starts and completes before the first; every node the
      cluster still has at the second is reconciled completely between them; and the
      row's reconcile starts and completes after the second.  If no storage call of these
      reconciles fails and no recreated cluster writes the row back in the meantime, the
      run passes through a state in which the row and all its nodes are gone, however all
      other reconciles interleave: with the force annotation whatever every remote cleanup
      returned, without it if the cleanups of its nodes succeed. */
  lemma DeletionFinishes(s: State, cascade: seq<Step>, marked: State, sweep: seq<Step>, swept: State,
                               close: seq<Step>, last: State, c: string, force: bool)
    requires Ordered(s, c, force) && SmoothRun(s, cascade + (sweep + close), c, force)
    requires Runs(s, cascade, marked) && Runs(marked, sweep, swept) && Runs(swept, close, last)
    requires Finishes(s, cascade, c) || (SncStep(c, SFetch) in cascade && c !in marked.sctl)
    requires || Finishes(s, cascade, c) || Finishes(marked, sweep, c)
             || forall id :: id in Owned(swept.nodes, c) ==> NodeStep(id, NFetch) in sweep && id !in swept.nctl
    requires || Finishes(s, cascade, c) || Finishes(marked, sweep, c) || Finishes(swept, close, c)
             || (SncStep(c, SFetch) in close && c !in last.sctl)
    ensures Finishes(s, cascade + (sweep + close), c)
  {
    SmoothSplits(s, cascade, marked, sweep + close, c, force);
    if !Finishes(s, cascade, c) {
      FetchSetsOut(s, cascade, marked, c, force);
      SmoothSplits(marked, sweep, swept, close, c, force);
      if !Finishes(marked, sweep, c) {
        SweepClears(marked, sweep, swept, c, force);
        if !Finishes(swept, close, c) {
          CloseRemoves(swept, close, last, c, force);
        }
      }
      FinishesJoin(marked, sweep, swept, close, c);
    }
    FinishesJoin(s, cascade, marked, sweep + close, c);
  }

  /** A finished deletion stays finished until a cluster of this name is applied again. */
  lemma {:induction false} StaysFinished(s: State, steps: seq<Step>, last: State, c: string)
    requires Finished(s, c) && c != "" && SncOk(c, Get(s.sncs, c), Get(s.sctl, c), s.nodes)
    requires Runs(s, steps, last) && ClusterStep(c, CApply(true)) !in steps
    ensures Finished(last, c)
    decreases |steps|
  {
    if steps != [] {
      SncOkStep(s, steps[0], c);
      NoRowAppears(s, steps[0], c);
      StaysFinished(Do(s, steps[0]), steps[1..], last, c);
    }
  }

  lemma NoRowAppears(s: State, step: Step, c: string)
    requires Enabled(s, step) && c !in s.sncs && step != ClusterStep(c, CApply(true))
    ensures c !in Do(s, step).sncs
  {
    if step.SncStep? {
      SncMoveRow(step.c, SncViewOf(s, step.c), step.smove);
    }
  }

  // ----- how much there is to do -----

  /** Row present, nodes left, nodes not yet marked. */
  function Remaining(s: State, c: string, force: bool): nat
  {
    (if c in s.sncs then 1 else 0) + |Owned(s.nodes, c)| + |Unmarked(s.nodes, c, force)|
  }

  predicate Effective(s: State, t: State, c: string, force: bool)
  {
    (c in s.sncs) != (c in t.sncs) || Owned(s.nodes, c) != Owned(t.nodes, c) || Unmarked(s.nodes, c, force) != Unmarked(t.nodes, c, force)
  }

  lemma SubsetSize<T>(a: set<T>, b: set<T>)
    requires a <= b
    ensures |a| <= |b| && (|a| == |b| ==> a == b)
  {
    assert b == a + (b - a);
  }

  /** What remains never grows, and every effective step makes it smaller. */
  lemma RemainingFalls(s: State, step: Step, c: string, force: bool)
    requires OnItsWay(s, c, force) && Enabled(s, step) && !Undoes(s, step, c)
    ensures Remaining(Do(s, step), c, force) <= Remaining(s, c, force)
    ensures Effective(s, Do(s, step), c, force) ==> Remaining(Do(s, step), c, force) < Remaining(s, c, force)
  {
    WayStep(s, step, c, force);
    SubsetSize(Owned(Do(s, step).nodes, c), Owned(s.nodes, c));
    SubsetSize(Unmarked(Do(s, step).nodes, c, force), Unmarked(s.nodes, c, force));
  }

  /** The demand is not taken back before the deletion is finished. */
  ghost predicate Undisturbed(s: State, steps: seq<Step>, c: string)
    decreases |steps|
  {
    steps != [] && Enabled(s, steps[0]) && !Finished(s, c) ==>
      !Undoes(s, steps[0], c) && Undisturbed(Do(s, steps[0]), steps[1..], c)
  }

  /** The effective steps up to the moment the deletion is finished. */
  ghost function EffectiveSteps(s: State, steps: seq<Step>, c: string, force: bool): nat
    decreases |steps|
  {
    if Finished(s, c) || steps == [] || !Enabled(s, steps[0]) then 0
    else (if Effective(s, Do(s, steps[0]), c, force) then 1 else 0) + EffectiveSteps(Do(s, steps[0]), steps[1..], c, force)
  }

  /** No run, failing storage calls included, has more effective steps than there was
      to do at its start. */
  lemma {:induction false} EffortIsBounded(s: State, steps: seq<Step>, last: State, c: string, force: bool)
    requires OnItsWay(s, c, force) && Runs(s, steps, last) && Undisturbed(s, steps, c)
    ensures EffectiveSteps(s, steps, c, force) <= Remaining(s, c, force)
    ensures Finishes(s, steps, c) || EffectiveSteps(s, steps, c, force) + Remaining(last, c, force) <= Remaining(s, c, force)
    decreases |steps|
  {
    if steps != [] {
      var next := Do(s, steps[0]);
      WayStep(s, steps[0], c, force);
      RemainingFalls(s, steps[0], c, force);
      if !Finished(next, c) {
        EffortIsBounded(next, steps[1..], last, c, force);
      }
    }
  }

  // ----- what undoes it can happen -----

  lemma ViewAt(s: State, c: string, v: ClusterView, w: ClusterView)
    ensures ClusterViewOf(WithCluster(s, c, v), c) == v
    ensures WithCluster(WithCluster(s, c, v), c, w) == WithCluster(s, c, w)
  {
    PutTwice(s.clusters, c, v.row, w.row);
    PutTwice(s.sncs, c, v.snc, w.snc);
    PutTwice(s.cctl, c, v.pc, w.pc);
  }

  /** A Cluster reconcile's move as a step of a state that differs from `s` in this
      cluster's view only. */
  lemma StepAt(s: State, c: string, v: ClusterView, move: ClusterMove)
    requires ClusterCan(v, move)
    ensures Enabled(WithCluster(s, c, v), ClusterStep(c, move))
    ensures Do(WithCluster(s, c, v), ClusterStep(c, move)) == WithCluster(s, c, ClusterDo(v, move))
  {
    ViewAt(s, c, v, ClusterDo(v, move));
  }

  ghost function Moves(c: string, moves: seq<ClusterMove>): seq<Step>
  {
    if moves == [] then [] else [ClusterStep(c, moves[0])] + Moves(c, moves[1..])
  }

  ghost predicate CanAll(v: ClusterView, moves: seq<ClusterMove>, last: ClusterView)
    decreases |moves|
  {
    if moves == [] then last == v else ClusterCan(v, moves[0]) && CanAll(ClusterDo(v, moves[0]), moves[1..], last)
  }

  lemma {:induction false} RunAt(s: State, c: string, v: ClusterView, moves: seq<ClusterMove>, last: ClusterView)
    requires CanAll(v, moves, last)
    ensures Runs(WithCluster(s, c, v), Moves(c, moves), WithCluster(s, c, last))
    decreases |moves|
  {
    if moves != [] {
      StepAt(s, c, v, moves[0]);
      RunAt(s, c, ClusterDo(v, moves[0]), moves[1..], last);
      assert Moves(c, moves)[1..] == Moves(c, moves[1..]);
    }
  }

  lemma {:induction false} RunsJoin(s: State, a: seq<Step>, mid: State, b: seq<Step>, last: State)
    requires Runs(s, a, mid) && Runs(mid, b, last)
    ensures Runs(s, a + b, last)
    decreases |a|
  {
    if a == [] {
      assert a + b == b;
    } else {
      assert (a + b)[0] == a[0] && (a + b)[1..] == a[1..] + b;
      RunsJoin(Do(s, a[0]), a[1..], mid, b, last);
    }
  }

  const CREATION: seq<ClusterMove> := [CFetch, CFind(true), CApply(true), CStatus(true)]
  const REMOVAL: seq<ClusterMove> := [CFetch, CFind(true), CMark(true), CStatus(true), CFetch, CRemove(true)]

  const CREATED := ClusterView(Some(ClusterRow(false, false, Active)), None, None)
  const APPLIED := ClusterView(Some(ClusterRow(false, false, Active)), Some(SncRow(false, false)), None)
  const FORCED := ClusterView(Some(ClusterRow(true, true, Active)), Some(SncRow(false, false)), None)
  const ORPHANED := ClusterView(None, Some(SncRow(true, true)), None)
  const RECREATED := ClusterView(Some(ClusterRow(false, false, Active)), Some(SncRow(true, true)), None)
  const FOUND := ClusterView(Some(ClusterRow(false, false, Active)), Some(SncRow(true, true)),
                             Some(CNormal(ClusterRow(false, false, Active), true)))

  lemma CreationRuns()
    ensures CanAll(CREATED, CREATION, APPLIED)
  {
    var v1 := ClusterDo(CREATED, CFetch);
    var v2 := ClusterDo(v1, CFind(true));
    var v3 := ClusterDo(v2, CApply(true));
    assert CanAll(v3, [CStatus(true)], APPLIED);
    assert CanAll(v2, [CApply(true), CStatus(true)], APPLIED);
    assert CanAll(v1, [CFind(true), CApply(true), CStatus(true)], APPLIED);
  }

  lemma RemovalRuns()
    ensures CanAll(FORCED, REMOVAL, ORPHANED)
  {
    var v1 := ClusterDo(FORCED, CFetch);
    var v2 := ClusterDo(v1, CFind(true));
    var v3 := ClusterDo(v2, CMark(true));
    var v4 := ClusterDo(v3, CStatus(true));
    var v5 := ClusterDo(v4, CFetch);
    assert CanAll(v5, [CRemove(true)], ORPHANED);
    assert CanAll(v4, [CFetch, CRemove(true)], ORPHANED);
    assert CanAll(v3, [CStatus(true), CFetch, CRemove(true)], ORPHANED);
    assert CanAll(v2, [CMark(true), CStatus(true), CFetch, CRemove(true)], ORPHANED);
    assert CanAll(v1, [CFind(true), CMark(true), CStatus(true), CFetch, CRemove(true)], ORPHANED);
  }

  lemma CreationIsReachable(s: State, c: string)
    requires Init(s) && c != ""
    ensures Runs(s, [UserCreates(c)] + Moves(c, CREATION), WithCluster(s, c, APPLIED))
  {
    CreationRuns();
    RunAt(s, c, CREATED, CREATION, APPLIED);
    RunsOne(s, UserCreates(c), WithCluster(s, c, CREATED));
    RunsJoin(s, [UserCreates(c)], WithCluster(s, c, CREATED), Moves(c, CREATION), WithCluster(s, c, APPLIED));
  }

  lemma RemovalIsReachable(s: State, c: string)
    requires Init(s) && c != ""
    ensures Runs(WithCluster(s, c, APPLIED), [UserDeletes(c, true)] + Moves(c, REMOVAL), WithCluster(s, c, ORPHANED))
  {
    RemovalRuns();
    RunAt(s, c, FORCED, REMOVAL, ORPHANED);
    RunsOne(WithCluster(s, c, APPLIED), UserDeletes(c, true), WithCluster(s, c, FORCED));
    RunsJoin(WithCluster(s, c, APPLIED), [UserDeletes(c, true)], WithCluster(s, c, FORCED),
             Moves(c, REMOVAL), WithCluster(s, c, ORPHANED));
  }

  /** Creating a cluster, deleting it by force and letting its reconciles run leads from
      an empty store to a forced deletion whose Cluster row is gone. */
  lemma OrphanIsReachable(s: State, c: string)
    requires Init(s) && c != ""
    ensures Runs(s, [UserCreates(c)] + Moves(c, CREATION) + ([UserDeletes(c, true)] + Moves(c, REMOVAL)),
                 WithCluster(s, c, ORPHANED))
    ensures OnItsWay(WithCluster(s, c, ORPHANED), c, true)
  {
    CreationIsReachable(s, c);
    RemovalIsReachable(s, c);
    RunsJoin(s, [UserCreates(c)] + Moves(c, CREATION), WithCluster(s, c, APPLIED),
             [UserDeletes(c, true)] + Moves(c, REMOVAL), WithCluster(s, c, ORPHANED));
    ViewAt(s, c, ORPHANED, ORPHANED);
  }

  lemma RunsOne(s: State, step: Step, next: State)
    requires Enabled(s, step) && Do(s, step) == next
    ensures Runs(s, [step], next)
  {
    assert Runs(next, [], next);
    assert [step][1..] == [];
  }

  /** From there, a cluster created anew under the same name takes the demand back: its
      first reconcile finds the row and writes it without deletion timestamp and
      annotation. */
  lemma RecreationRevivesRow(s: State, c: string)
    requires Init(s) && c != ""
    ensures Runs(WithCluster(s, c, ORPHANED), [UserCreates(c)] + Moves(c, [CFetch, CFind(true)]), WithCluster(s, c, FOUND))
    ensures Enabled(WithCluster(s, c, FOUND), ClusterStep(c, CApply(true)))
    ensures Undoes(WithCluster(s, c, FOUND), ClusterStep(c, CApply(true)), c)
    ensures Get(Do(WithCluster(s, c, FOUND), ClusterStep(c, CApply(true))).sncs, c) == Some(SncRow(false, false))
  {
    var v1 := ClusterDo(RECREATED, CFetch);
    assert CanAll(v1, [CFind(true)], FOUND);
    assert CanAll(RECREATED, [CFetch, CFind(true)], FOUND);
    RunAt(s, c, RECREATED, [CFetch, CFind(true)], FOUND);
    RunsOne(WithCluster(s, c, ORPHANED), UserCreates(c), WithCluster(s, c, RECREATED));
    RunsJoin(WithCluster(s, c, ORPHANED), [UserCreates(c)], WithCluster(s, c, RECREATED),
             Moves(c, [CFetch, CFind(true)]), WithCluster(s, c, FOUND));
    StepAt(s, c, FOUND, CApply(true));
  }
}
