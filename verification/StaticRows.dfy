/** The stored rows of static-node clusters and the controllers that rewrite them
    (controllers/static_node_cluster_controller.go, controllers/static_node_controller.go,
    controllers/static_node_helpers.go), one reconcile at a time.

    All rows belong to one workspace.  A row keeps what the deletion protocol reads:
    owner, name, deletion timestamp and force annotation.  Node rows have identities
    that are never reused.  Updating or deleting a row that is gone changes nothing.
 */
module StaticRows {
  import opened Basics

  /** A StaticNodeCluster row. */
  datatype SncRow = SncRow(deleting: bool, force: bool)

  /** A StaticNode row. */
  datatype NodeRow = NodeRow(name: string, owner: string, deleting: bool, force: bool)

  type Nodes = map<nat, NodeRow>

  function Owned(nodes: Nodes, c: string): set<nat>
  {
    set id | id in nodes && nodes[id].owner == c
  }

  /** `softDeleteStaticNode`: writes the metadata, with a deletion timestamp. */
  function SoftDelete(nodes: Nodes, id: nat, force: bool): Nodes
  {
    if id in nodes then nodes[id := nodes[id].(deleting := true, force := force)] else nodes
  }

  /** The update half of `upsertStaticNode`: metadata and spec of the plan, so a
      deletion timestamp or annotation on the row is gone afterwards. */
  function WriteDesired(nodes: Nodes, id: nat, name: string, owner: string): Nodes
  {
    if id in nodes then nodes[id := NodeRow(name, owner, false, false)] else nodes
  }

  /** `validateStaticNodeOwner`. */
  predicate MayAdopt(existing: NodeRow, owner: string)
  {
    existing.owner == "" || owner == "" || existing.owner == owner
  }

  /** What `reconcileDelete` writes for a listed node: nothing, or a soft delete with
      the given force annotation. */
  function Marking(force: bool, listed: NodeRow): Option<bool>
  {
    if force && !listed.force then Some(true)
    else if listed.deleting then None
    else Some(listed.force)
  }

  /** The cascade over the listed nodes; `writesLeft` storage writes succeed. */
  function Cascade(nodes: Nodes, listed: seq<nat>, force: bool, writesLeft: nat): Nodes
    requires forall id :: id in listed ==> id in nodes
  {
    if listed == [] then nodes
    else
      var mark := Marking(force, nodes[listed[0]]);
      if mark.None? then Cascade(nodes, listed[1..], force, writesLeft)
      else if writesLeft == 0 then nodes
      else Cascade(SoftDelete(nodes, listed[0], mark.value), listed[1..], force, writesLeft - 1)
  }

  ghost predicate Enumerates(listed: seq<nat>, ids: set<nat>)
  {
    && (forall i, j :: 0 <= i < j < |listed| ==> listed[i] != listed[j])
    && (forall id :: id in listed <==> id in ids)
  }

  /** Every listed node carries the marks its cluster demands. */
  ghost predicate AllMarked(nodes: Nodes, listed: seq<nat>, force: bool)
  {
    forall id :: id in listed ==> id in nodes && nodes[id].deleting && (force ==> nodes[id].force)
  }

  /** Nothing is written for a node exactly when it is already marked as the cluster
      demands; otherwise it keeps its own annotation and gets the cluster's. */
  lemma MarkingExactly(force: bool, listed: NodeRow)
    ensures Marking(force, listed).None? <==> listed.deleting && (force ==> listed.force)
    ensures Marking(force, listed).Some? ==> Marking(force, listed).value == (force || listed.force)
  {
  }

  /** With enough writes every listed node ends up marked for deletion, with the force
      annotation exactly if it or the cluster carried it, and nothing else changes. */
  lemma {:induction false} CascadeMarksAll(nodes: Nodes, listed: seq<nat>, force: bool, writesLeft: nat)
    requires forall id :: id in listed ==> id in nodes
    requires forall i, j :: 0 <= i < j < |listed| ==> listed[i] != listed[j]
    requires |listed| <= writesLeft
    ensures Cascade(nodes, listed, force, writesLeft).Keys == nodes.Keys
    ensures forall id :: id in nodes ==>
      Cascade(nodes, listed, force, writesLeft)[id]
      == if id in listed then NodeRow(nodes[id].name, nodes[id].owner, true, force || nodes[id].force) else nodes[id]
    decreases |listed|
  {
    if listed != [] {
      var id := listed[0];
      var mark := Marking(force, nodes[id]);
      assert id !in listed[1..];
      if mark.None? {
        CascadeMarksAll(nodes, listed[1..], force, writesLeft);
      } else {
        var next := SoftDelete(nodes, id, mark.value);
        CascadeMarksAll(next, listed[1..], force, writesLeft - 1);
      }
    }
  }

  /** A partial cascade only ever marks listed nodes, and keeps names and owners. */
  lemma {:induction false} CascadeFrame(nodes: Nodes, listed: seq<nat>, force: bool, writesLeft: nat)
    requires forall id :: id in listed ==> id in nodes
    ensures var after := Cascade(nodes, listed, force, writesLeft);
      && after.Keys == nodes.Keys
      && (forall id :: id in nodes ==>
            && after[id].name == nodes[id].name && after[id].owner == nodes[id].owner
            && (nodes[id].deleting ==> after[id].deleting)
            && (nodes[id].force ==> after[id].force)
            && (id !in listed ==> after[id] == nodes[id]))
    decreases |listed|
  {
    if listed != [] {
      var mark := Marking(force, nodes[listed[0]]);
      if mark.None? {
        CascadeFrame(nodes, listed[1..], force, writesLeft);
      } else if writesLeft > 0 {
        CascadeFrame(SoftDelete(nodes, listed[0], mark.value), listed[1..], force, writesLeft - 1);
      }
    }
  }

  /** The row that holds a name, if there is one. */
  ghost function Holder(nodes: Nodes, name: string): (h: Option<nat>)
    ensures h.Some? ==> h.value in nodes && nodes[h.value].name == name
    ensures h.None? ==> forall id :: id in nodes ==> nodes[id].name != name
  {
    if exists id :: id in nodes && nodes[id].name == name
    then var id :| id in nodes && nodes[id].name == name; Some(id)
    else None
  }

  datatype Fleet = Fleet(nodes: Nodes, nextId: nat)

  /** A planned node is written over the row that holds its name, or added. */
  ghost function PutNode(f: Fleet, name: string, c: string): Fleet
  {
    match Holder(f.nodes, name)
    case Some(id) => f.(nodes := WriteDesired(f.nodes, id, name, c))
    case None => Fleet(f.nodes[f.nextId := NodeRow(name, c, false, false)], f.nextId + 1)
  }

  ghost function PutNodes(f: Fleet, names: seq<string>, c: string): Fleet
  {
    if names == [] then f else PutNode(PutNodes(f, names[..|names| - 1], c), names[|names| - 1], c)
  }

  /** Every one of the names is free or held by a row the cluster may take. */
  ghost predicate Adopts(f: Fleet, names: seq<string>, c: string)
  {
    names != [] ==>
      var front, name := names[..|names| - 1], names[|names| - 1];
      var held := Holder(PutNodes(f, front, c).nodes, name);
      Adopts(f, front, c) && (held.Some? ==> MayAdopt(PutNodes(f, front, c).nodes[held.value], c))
  }

  /** A node that is there and not planned. */
  predicate Stale(nodes: Nodes, plan: seq<string>, id: nat)
  {
    id in nodes && nodes[id].name !in plan
  }

  /** Listed nodes outside the plan are soft-deleted, one after the other. */
  function Prunes(nodes: Nodes, plan: seq<string>, listed: seq<nat>): Nodes
  {
    if listed == [] then nodes
    else
      var id := listed[|listed| - 1];
      var front := Prunes(nodes, plan, listed[..|listed| - 1]);
      if id in front && front[id].name !in plan then SoftDelete(front, id, front[id].force) else front
  }

  ghost predicate UniqueNames(nodes: Nodes)
  {
    forall i, j :: i in nodes && j in nodes && nodes[i].name == nodes[j].name ==> i == j
  }

  /** What a StaticNodeCluster's stored status says about its last reconcile. */
  datatype SncStatus = SncFailed | SncDeleting | SncAggregated

  /** The rows the three controllers share. */
  class Storage {
    var sncs: map<string, SncRow>
    var nodes: Nodes
    var nextId: nat
    var statuses: map<string, SncStatus>

    ghost function Now(): Fleet
      reads this
    {
      Fleet(nodes, nextId)
    }

    ghost predicate Valid()
      reads this
    {
      && (forall id :: id in nodes ==> id < nextId)
      && UniqueNames(nodes)
    }

    constructor ()
      ensures sncs == map[] && nodes == map[] && statuses == map[] && Valid()
    {
      sncs, nodes, nextId, statuses := map[], map[], 0, map[];
    }

    /** The deferred status write; its failure fails a reconcile that went well. */
    method UpdateStatus(c: string, status: SncStatus, went: bool, statusOk: bool) returns (ok: bool)
      modifies this`statuses
      ensures ok == (went && statusOk)
      ensures statuses == if statusOk then old(statuses)[c := status] else old(statuses)
    {
      if statusOk {
        statuses := statuses[c := status];
      }
      ok := went && statusOk;
    }

    /** `StaticNodeClusterController.reconcileDelete`: an empty list hard-deletes the
        row, otherwise every listed node is marked until a write fails. */
    method ReconcileSncDelete(c: string, listed: seq<nat>, writesLeft: nat, statusOk: bool) returns (ok: bool)
      requires c in sncs && sncs[c].deleting
      requires Enumerates(listed, Owned(nodes, c))
      modifies this`sncs, this`nodes, this`statuses
      ensures forall id :: id in listed ==> id in old(nodes)
      ensures sncs == if listed == [] && writesLeft > 0 then old(sncs) - {c} else old(sncs)
      ensures nodes == Cascade(old(nodes), listed, old(sncs[c].force), writesLeft)
      ensures c !in sncs ==> ok && statuses == old(statuses)
      ensures c in sncs && statusOk ==>
                statuses == old(statuses)[c := if ok then SncDeleting else SncFailed]
      ensures c in sncs && !statusOk ==> !ok && statuses == old(statuses)
      ensures statusOk && writesLeft > |listed| ==> ok
      ensures c in sncs ==> (ok <==> statusOk && listed != [] && AllMarked(nodes, listed, old(sncs[c].force)))
    {
      var went := MarkListed(c, listed, writesLeft);
      if c !in sncs {
        return true;
      }
      ok := UpdateStatus(c, if went then SncDeleting else SncFailed, went, statusOk);
    }

    method MarkListed(c: string, listed: seq<nat>, writesLeft: nat) returns (ok: bool)
      requires c in sncs && sncs[c].deleting
      requires Enumerates(listed, Owned(nodes, c))
      modifies this`sncs, this`nodes
      ensures forall id :: id in listed ==> id in old(nodes)
      ensures sncs == if listed == [] && writesLeft > 0 then old(sncs) - {c} else old(sncs)
      ensures nodes == Cascade(old(nodes), listed, old(sncs[c].force), writesLeft)
      ensures writesLeft > |listed| ==> ok
      ensures c !in sncs ==> ok
      ensures c in sncs ==> (ok <==> listed != [] && AllMarked(nodes, listed, old(sncs[c].force)))
    {
      if listed == [] {
        if writesLeft > 0 {
          sncs := sncs - {c};
        }
        return writesLeft > 0;
      }
      var force := sncs[c].force;
      var snapshot := nodes;
      var left: nat := writesLeft;
      for i := 0 to |listed|
        invariant sncs == old(sncs)
        invariant nodes.Keys == snapshot.Keys && forall id :: id in listed ==> id in nodes
        invariant forall j :: i <= j < |listed| ==> nodes[listed[j]] == snapshot[listed[j]]
        invariant forall j :: 0 <= j < i ==> Marking(force, nodes[listed[j]]).None?
        invariant left <= writesLeft <= left + i
        invariant Cascade(nodes, listed[i..], force, left) == Cascade(old(nodes), listed, force, writesLeft)
      {
        var id := listed[i];
        assert listed[i..][0] == id && listed[i..][1..] == listed[i + 1..];
        var node := snapshot[id];
        var mark := Marking(force, node);
        if mark.Some? {
          if left == 0 {
            return false;
          }
          left := left - 1;
          nodes := SoftDelete(nodes, id, mark.value);
        }
      }
      ok := true;
    }

    /** `StaticNodeController.reconcileDelete`: the row goes after a successful remote
        cleanup, or regardless of it under the force annotation. */
    method ReconcileNodeDelete(id: nat, runnerOk: bool, cleanupOk: bool, removeOk: bool) returns (ok: bool)
      requires id in nodes && nodes[id].deleting
      modifies this`nodes
      ensures nodes == if removeOk && (old(nodes[id].force) || (runnerOk && cleanupOk))
                       then old(nodes) - {id} else old(nodes)
      ensures ok <==> id !in nodes
    {
      var isForceDelete := nodes[id].force;
      if !runnerOk && !isForceDelete {
        return false;
      }
      if runnerOk && !cleanupOk && !isForceDelete {
        return false;
      }
      if removeOk {
        nodes := nodes - {id};
      }
      ok := removeOk;
    }

    /** `upsertStaticNode` with its lookup by name. */
    method UpsertNode(name: string, c: string, writeOk: bool) returns (ok: bool)
      requires Valid()
      modifies this`nodes, this`nextId
      ensures Valid() && old(nextId) <= nextId
      ensures Now() == if ok then PutNode(old(Now()), name, c) else old(Now())
      ensures ok ==> HasLiveRow(nodes, name, c)
      ensures forall id :: id in old(nodes) && old(nodes)[id].name != name ==> id in nodes && nodes[id] == old(nodes)[id]
      ensures ok <==> writeOk && forall id :: id in old(nodes) && old(nodes)[id].name == name ==>
                        MayAdopt(old(nodes)[id], c)
    {
      PutNodeEffect(Now(), name, c);
      if id :| id in nodes && nodes[id].name == name {
        assert Holder(nodes, name) == Some(id);
        if !MayAdopt(nodes[id], c) || !writeOk {
          return false;
        }
        nodes := WriteDesired(nodes, id, name, c);
        return true;
      }
      if !writeOk {
        return false;
      }
      nodes := nodes[nextId := NodeRow(name, c, false, false)];
      nextId := nextId + 1;
      ok := true;
    }

    /** Stops at the first upsert that fails; `done` planned nodes are in place. */
    method UpsertPlanned(c: string, plan: seq<string>, faultAt: Option<nat>) returns (ok: bool, done: nat)
      requires Valid()
      modifies this`nodes, this`nextId
      ensures Valid() && done <= |plan| && (ok <==> done == |plan|)
      ensures Now() == PutNodes(old(Now()), plan[..done], c) && Adopts(old(Now()), plan[..done], c)
      ensures faultAt.Some? ==> done <= faultAt.value || faultAt.value >= |plan|
      ensures !ok ==> faultAt == Some(done) || !Adopts(old(Now()), plan[..done + 1], c)
    {
      assert plan[..0] == [];
      for i := 0 to |plan|
        invariant Valid() && Now() == PutNodes(old(Now()), plan[..i], c) && Adopts(old(Now()), plan[..i], c)
        invariant faultAt.Some? ==> i <= faultAt.value
      {
        assert plan[..i + 1][..i] == plan[..i];
        ok := UpsertNode(plan[i], c, faultAt != Some(i));
        if !ok {
          return false, i;
        }
      }
      assert plan[..|plan|] == plan;
      return true, |plan|;
    }

    method PruneUnplanned(plan: seq<string>, listed: seq<nat>, faultAt: Option<nat>) returns (ok: bool, done: nat)
      modifies this`nodes
      ensures done <= |listed| && (ok <==> done == |listed|)
      ensures nodes == Prunes(old(nodes), plan, listed[..done])
      ensures nodes.Keys == old(nodes.Keys)
      ensures forall id :: id in nodes && (id !in listed || old(nodes)[id].name in plan) ==> nodes[id] == old(nodes)[id]
      ensures ok ==> forall id :: id in nodes && id in listed && nodes[id].name !in plan ==> nodes[id].deleting
      ensures !ok ==> faultAt == Some(done)
      ensures faultAt.Some? && faultAt.value < done ==> !Stale(old(nodes), plan, listed[faultAt.value])
    {
      assert listed[..0] == [];
      for i := 0 to |listed|
        invariant nodes == Prunes(old(nodes), plan, listed[..i])
        invariant faultAt.Some? && faultAt.value < i ==> !Stale(old(nodes), plan, listed[faultAt.value])
      {
        var id := listed[i];
        PrunesEffect(old(nodes), plan, listed[..i]);
        assert listed[..i + 1][..i] == listed[..i];
        if id in nodes && nodes[id].name !in plan {
          if faultAt == Some(i) {
            return false, i;
          }
          nodes := SoftDelete(nodes, id, nodes[id].force);
        }
      }
      assert listed[..|listed|] == listed;
      PrunesEffect(old(nodes), plan, listed);
      return true, |listed|;
    }

    /** `reconcileNormal`: plan, upsert the planned nodes, soft-delete the listed nodes
        that are not planned, list again and store a status.  A plan that fails is
        `None`.  On success the rows of the cluster are one live row per planned name and
        rows that are being deleted. */
    method ReconcileSncNormal(c: string, plan: Option<seq<string>>, listed: seq<nat>, upsertFault: Option<nat>,
                              pruneFault: Option<nat>, relisted: bool, statusOk: bool)
      returns (ok: bool, put: nat, pruned: nat)
      requires Valid()
      requires forall id :: id in listed <==> id in nodes && nodes[id].owner == c
      modifies this`nodes, this`nextId, this`statuses
      ensures Valid()
      ensures plan.None? ==> !ok && Now() == old(Now())
      ensures plan.Some? ==>
                && put <= |plan.value| && pruned <= |listed| && (pruned > 0 ==> put == |plan.value|)
                && Adopts(old(Now()), plan.value[..put], c)
                && nextId == PutNodes(old(Now()), plan.value[..put], c).nextId
                && nodes == Prunes(PutNodes(old(Now()), plan.value[..put], c).nodes, plan.value, listed[..pruned])
      ensures plan.Some? && put < |plan.value| ==>
                upsertFault == Some(put) || !Adopts(old(Now()), plan.value[..put + 1], c)
      ensures plan.Some? && put == |plan.value| && pruned < |listed| ==> pruneFault == Some(pruned)
      ensures ok <==> plan.Some? && put == |plan.value| && pruned == |listed| && relisted && statusOk
      ensures plan.None? ==> put == 0 && pruned == 0
      ensures ok ==> forall name :: name in plan.value ==> HasLiveRow(nodes, name, c)
      ensures ok ==> forall id :: id in nodes && nodes[id].owner == c && nodes[id].name !in plan.value ==> nodes[id].deleting
      ensures forall id :: id in old(nodes) && old(nodes)[id].owner != c && (plan.Some? ==> old(nodes)[id].name !in plan.value) ==>
                id in nodes && nodes[id] == old(nodes)[id]
      ensures statusOk ==> statuses == old(statuses)[c := if ok then SncAggregated else SncFailed]
      ensures !statusOk ==> !ok && statuses == old(statuses)
    {
      put, pruned := 0, 0;
      var went := false;
      if plan.Some? {
        went, put := UpsertPlanned(c, plan.value, upsertFault);
        ghost var upserted := nodes;
        if went {
          went, pruned := PruneUnplanned(plan.value, listed, pruneFault);
        } else {
          assert listed[..0] == [];
        }
        NormalOutcome(old(Now()), c, plan.value, put, listed, pruned);
        went := went && relisted;
      }
      ok := UpdateStatus(c, if went then SncAggregated else SncFailed, went, statusOk);
    }
  }

  ghost predicate HasLiveRow(nodes: Nodes, name: string, c: string)
  {
    exists id :: id in nodes && nodes[id] == NodeRow(name, c, false, false)
  }

  // ----- what putting and pruning amount to -----

  ghost predicate Sound(f: Fleet)
  {
    (forall id :: id in f.nodes ==> id < f.nextId) && UniqueNames(f.nodes)
  }

  lemma PutNodeEffect(f: Fleet, name: string, c: string)
    requires Sound(f)
    ensures Sound(PutNode(f, name, c))
    ensures HasLiveRow(PutNode(f, name, c).nodes, name, c)
    ensures forall id :: id in f.nodes ==>
              id in PutNode(f, name, c).nodes
              && (f.nodes[id].name != name ==> PutNode(f, name, c).nodes[id] == f.nodes[id])
    ensures forall id :: id in PutNode(f, name, c).nodes && id !in f.nodes ==> PutNode(f, name, c).nodes[id].name == name
    ensures forall id :: id in f.nodes ==> PutNode(f, name, c).nodes[id].name == f.nodes[id].name
  {
    var g := PutNode(f, name, c);
    match Holder(f.nodes, name)
    case Some(id) => assert g.nodes[id] == NodeRow(name, c, false, false);
    case None => assert g.nodes[f.nextId] == NodeRow(name, c, false, false);
  }

  /** Planned names get live rows, all other rows stay as they are. */
  lemma {:induction false} PutNodesEffect(f: Fleet, names: seq<string>, c: string)
    requires Sound(f)
    ensures Sound(PutNodes(f, names, c))
    ensures forall name :: name in names ==> HasLiveRow(PutNodes(f, names, c).nodes, name, c)
    ensures forall id :: id in f.nodes ==>
              id in PutNodes(f, names, c).nodes
              && (f.nodes[id].name !in names ==> PutNodes(f, names, c).nodes[id] == f.nodes[id])
    ensures forall id :: id in PutNodes(f, names, c).nodes && id !in f.nodes ==>
              PutNodes(f, names, c).nodes[id].name in names
    ensures forall id :: id in f.nodes ==> PutNodes(f, names, c).nodes[id].name == f.nodes[id].name
  {
    if names != [] {
      var front, name := names[..|names| - 1], names[|names| - 1];
      assert names == front + [name];
      PutNodesEffect(f, front, c);
      var g := PutNodes(f, front, c);
      PutNodeEffect(g, name, c);
      forall n | n in names ensures HasLiveRow(PutNodes(f, names, c).nodes, n, c) {
        if n != name {
          var id :| id in g.nodes && g.nodes[id] == NodeRow(n, c, false, false);
          assert PutNode(g, name, c).nodes[id] == g.nodes[id];
        }
      }
    }
  }

  /** A plan goes through exactly when no row that holds one of its names belongs to
      another cluster. */
  lemma {:induction false} AdoptsIff(f: Fleet, names: seq<string>, c: string)
    requires Sound(f)
    ensures Adopts(f, names, c) <==>
      forall id :: id in f.nodes && f.nodes[id].name in names ==> MayAdopt(f.nodes[id], c)
  {
    if names != [] {
      var front, name := names[..|names| - 1], names[|names| - 1];
      assert names == front + [name];
      AdoptsIff(f, front, c);
      PutNodesEffect(f, front, c);
      var nodes := PutNodes(f, front, c).nodes;
      var held := Holder(nodes, name);
      if name in front {
        var id :| id in nodes && nodes[id] == NodeRow(name, c, false, false);
        assert held == Some(id);
      } else {
        assert held.Some? ==> held.value in f.nodes && nodes[held.value] == f.nodes[held.value];
        assert forall id :: id in f.nodes && f.nodes[id].name == name ==> held == Some(id);
      }
    }
  }

  lemma {:induction false} PrunesEffect(nodes: Nodes, plan: seq<string>, listed: seq<nat>)
    ensures Prunes(nodes, plan, listed).Keys == nodes.Keys
    ensures forall id :: id in nodes ==>
              Prunes(nodes, plan, listed)[id] == if id in listed && nodes[id].name !in plan
                                                 then nodes[id].(deleting := true) else nodes[id]
  {
    if listed != [] {
      var front, id := listed[..|listed| - 1], listed[|listed| - 1];
      assert listed == front + [id];
      PrunesEffect(nodes, plan, front);
    }
  }

  lemma NormalOutcome(f: Fleet, c: string, plan: seq<string>, put: nat, listed: seq<nat>, pruned: nat)
    requires Sound(f) && put <= |plan| && pruned <= |listed|
    requires forall id :: id in listed <==> id in f.nodes && f.nodes[id].owner == c
    ensures var nodes := Prunes(PutNodes(f, plan[..put], c).nodes, plan, listed[..pruned]);
            && UniqueNames(nodes) && (forall id :: id in nodes ==> id < PutNodes(f, plan[..put], c).nextId)
            && (forall id :: id in f.nodes && f.nodes[id].owner != c && f.nodes[id].name !in plan ==>
                  id in nodes && nodes[id] == f.nodes[id])
            && (put == |plan| && pruned == |listed| ==>
                  && (forall name :: name in plan ==> HasLiveRow(nodes, name, c))
                  && forall id :: id in nodes && nodes[id].owner == c && nodes[id].name !in plan ==> nodes[id].deleting)
  {
    var g := PutNodes(f, plan[..put], c);
    PutNodesEffect(f, plan[..put], c);
    PrunesEffect(g.nodes, plan, listed[..pruned]);
    var nodes := Prunes(g.nodes, plan, listed[..pruned]);
    if put == |plan| && pruned == |listed| {
      assert plan[..put] == plan && listed[..pruned] == listed;
      forall name | name in plan ensures HasLiveRow(nodes, name, c) {
        var id :| id in g.nodes && g.nodes[id] == NodeRow(name, c, false, false);
        assert nodes[id] == g.nodes[id];
      }
    }
  }
}
