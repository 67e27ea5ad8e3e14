/** The cluster, static-node-cluster and static-node controllers interleaved at the
    granularity of single storage and remote calls (controllers/cluster_controller.go,
    internal/cluster/static_ray_cluster.go, controllers/static_node_cluster_controller.go,
    controllers/static_node_controller.go).

    Each controller runs any number of workers, but its work queue never hands out a
    key that is being processed, so at most one reconcile per row is in flight
    (controllers/base_controller.go).  In between, every reconcile works on what it has
    read, which other reconciles may have changed since.
 */
module StaticLifecycle {
  import opened Basics
  import opened StaticRows

  datatype Phase = Active | Deleting | Deleted

  /** A Cluster row of the static flow; `Active` stands for every phase of a cluster
      that is not being deleted. */
  datatype ClusterRow = ClusterRow(deleting: bool, force: bool, phase: Phase)

  // ----- one Cluster reconcile -----

  /** Where it is, with the row it read. */
  datatype ClusterPc =
    | CRead(row: ClusterRow)
    | CNormal(row: ClusterRow, found: bool)
    | CDelete(row: ClusterRow, snc: SncRow)
    | CReturn(row: ClusterRow, ok: bool)

  /** Its next call; `ok` is false when that call fails. */
  datatype ClusterMove =
    | CFetch
    | CReject
    | CFind(ok: bool)
    | CApply(ok: bool)
    | CMark(ok: bool)
    | CStatus(ok: bool)
    | CRemove(ok: bool)

  /** What concerns one cluster name: its Cluster row, its StaticNodeCluster row and
      the Cluster reconcile in flight. */
  datatype ClusterView = ClusterView(row: Option<ClusterRow>, snc: Option<SncRow>, pc: Option<ClusterPc>)

  predicate Gone(row: ClusterRow)
  {
    row.deleting && row.phase == Deleted
  }

  predicate ClusterCan(v: ClusterView, move: ClusterMove)
  {
    match move
    case CFetch => v.row.Some? && v.pc.None?
    case CReject => v.pc.Some? && v.pc.value.CRead? && !Gone(v.pc.value.row)
    case CFind(_) => v.pc.Some? && v.pc.value.CRead? && !Gone(v.pc.value.row)
    case CApply(_) => v.pc.Some? && v.pc.value.CNormal?
    case CMark(_) => v.pc.Some? && v.pc.value.CDelete?
    case CStatus(_) => v.pc.Some? && v.pc.value.CReturn?
    case CRemove(_) => v.pc.Some? && v.pc.value.CRead? && Gone(v.pc.value.row)
  }

  /** `DetermineClusterDeletePhase`, for the row the reconcile read. */
  function NextPhase(row: ClusterRow, ok: bool): Phase
  {
    if !row.deleting then Active else if ok || row.force then Deleted else Deleting
  }

  function ClusterDo(v: ClusterView, move: ClusterMove): ClusterView
    requires ClusterCan(v, move)
  {
    match move
    case CFetch => v.(pc := Some(CRead(v.row.value)))
    case CReject => v.(pc := Some(CReturn(v.pc.value.row, false)))
    case CFind(ok) =>
      var row := v.pc.value.row;
      v.(pc := Some(
        if !ok then CReturn(row, false)
        else if !row.deleting then CNormal(row, v.snc.Some?)
        else if v.snc.Some? then CDelete(row, v.snc.value)
        else CReturn(row, true)))
    case CApply(ok) =>
      var pc := v.pc.value;
      ClusterView(v.row, if ok && pc.found == v.snc.Some? then Some(SncRow(false, pc.row.force)) else v.snc,
                  Some(CReturn(pc.row, false)))
    case CMark(ok) =>
      var pc := v.pc.value;
      var changed := !pc.snc.deleting || (pc.row.force && !pc.snc.force);
      ClusterView(v.row, if ok && v.snc.Some? && changed then Some(SncRow(true, pc.snc.force || pc.row.force)) else v.snc,
                  Some(CReturn(pc.row, false)))
    case CStatus(ok) =>
      var pc := v.pc.value;
      ClusterView(if ok && v.row.Some? then Some(v.row.value.(phase := NextPhase(pc.row, pc.ok))) else v.row, v.snc, None)
    case CRemove(ok) => ClusterView(if ok then None else v.row, v.snc, None)
  }

  // ----- one StaticNodeCluster reconcile -----

  datatype SncPc =
    | SRead(row: SncRow)
    | SListed(row: SncRow, listed: Nodes)
    | SMarking(force: bool, todo: Nodes)
    | SUpserting(plan: set<string>, left: seq<string>, listed: Nodes)
    | SFound(plan: set<string>, left: seq<string>, listed: Nodes, name: string, found: Option<(nat, NodeRow)>)
    | SPruning(todo: Nodes)

  datatype SncMove =
    | SFetch
    | SList
    | SRemove(ok: bool)
    | SCascade
    | SMark(id: nat, ok: bool)
    | SPlan(names: seq<string>)
    | SFind(hit: Option<nat>)
    | SUpsert(ok: bool)
    | SPrune
    | SPruneOne(id: nat, ok: bool)
    | SReturn
    | SFail

  /** Its own row, where it is, and the node rows. */
  datatype SncView = SncView(row: Option<SncRow>, pc: Option<SncPc>, nodes: Nodes, nextId: nat)

  predicate NameFree(nodes: Nodes, name: string)
  {
    forall id :: id in nodes ==> nodes[id].name != name
  }

  predicate SncCan(v: SncView, move: SncMove)
  {
    match move
    case SFetch => v.row.Some? && v.pc.None?
    case SList => v.pc.Some? && v.pc.value.SRead?
    case SRemove(_) =>
      v.pc.Some? && v.pc.value.SListed? && v.pc.value.row.deleting && v.pc.value.listed == map[]
    case SCascade =>
      v.pc.Some? && v.pc.value.SListed? && v.pc.value.row.deleting && v.pc.value.listed != map[]
    case SMark(id, _) => v.pc.Some? && v.pc.value.SMarking? && id in v.pc.value.todo
    case SPlan(_) => v.pc.Some? && v.pc.value.SListed? && !v.pc.value.row.deleting
    case SFind(found) =>
      && v.pc.Some? && v.pc.value.SUpserting? && v.pc.value.left != []
      && (match found
          case Some(id) => id in v.nodes && v.nodes[id].name == v.pc.value.left[0]
          case None => NameFree(v.nodes, v.pc.value.left[0]))
    case SUpsert(_) => v.pc.Some? && v.pc.value.SFound?
    case SPrune => v.pc.Some? && v.pc.value.SUpserting? && v.pc.value.left == []
    case SPruneOne(id, _) => v.pc.Some? && v.pc.value.SPruning? && id in v.pc.value.todo
    case SReturn =>
      v.pc.Some? && (v.pc.value.SMarking? || v.pc.value.SPruning?) && v.pc.value.todo == map[]
    case SFail => v.pc.Some?
  }

  function OwnedRows(nodes: Nodes, c: string): Nodes
  {
    map id | id in nodes && nodes[id].owner == c :: nodes[id]
  }

  /** `SReturn` ends a reconcile that ran through, `SFail` one that met an error. */
  function SncDo(c: string, v: SncView, move: SncMove): SncView
    requires SncCan(v, move)
  {
    match move
    case SFetch => v.(pc := Some(SRead(v.row.value)))
    case SList => v.(pc := Some(SListed(v.pc.value.row, OwnedRows(v.nodes, c))))
    case SRemove(ok) => v.(pc := None, row := if ok then None else v.row)
    case SCascade => v.(pc := Some(SMarking(v.pc.value.row.force, v.pc.value.listed)))
    case SMark(id, ok) =>
      var pc := v.pc.value;
      var mark := Marking(pc.force, pc.todo[id]);
      if mark.Some? && !ok then v.(pc := None)
      else v.(pc := Some(SMarking(pc.force, pc.todo - {id})),
              nodes := if mark.Some? then SoftDelete(v.nodes, id, mark.value) else v.nodes)
    case SPlan(names) => v.(pc := Some(SUpserting((set n | n in names), names, v.pc.value.listed)))
    case SFind(found) =>
      var pc := v.pc.value;
      v.(pc := Some(SFound(pc.plan, pc.left[1..], pc.listed, pc.left[0],
                           match found case Some(id) => Some((id, v.nodes[id])) case None => None)))
    case SUpsert(ok) => Upserted(c, v, ok)
    case SPrune =>
      var pc := v.pc.value;
      v.(pc := Some(SPruning(map id | id in pc.listed && pc.listed[id].name !in pc.plan :: pc.listed[id])))
    case SPruneOne(id, ok) =>
      var pc := v.pc.value;
      if ok then v.(pc := Some(SPruning(pc.todo - {id})), nodes := SoftDelete(v.nodes, id, pc.todo[id].force))
      else v.(pc := None)
    case SReturn => v.(pc := None)
    case SFail => v.(pc := None)
  }

  /** Names are unique in storage, so a create may lose a race it did not see. */
  function Upserted(c: string, v: SncView, ok: bool): SncView
    requires SncCan(v, SUpsert(ok))
  {
    var pc := v.pc.value;
    var next := v.(pc := Some(SUpserting(pc.plan, pc.left, pc.listed)));
    match pc.found
    case None =>
      if ok && NameFree(v.nodes, pc.name)
      then next.(nodes := v.nodes[v.nextId := NodeRow(pc.name, c, false, false)], nextId := v.nextId + 1)
      else v.(pc := None)
    case Some(existing) =>
      if ok && MayAdopt(existing.1, c)
      then next.(nodes := WriteDesired(v.nodes, existing.0, pc.name, c))
      else v.(pc := None)
  }

  // ----- one StaticNode delete reconcile -----

  datatype NodePc = NRead(row: NodeRow) | NRemoving

  datatype NodeMove = NFetch | NCleanup(ok: bool) | NRemove(ok: bool)

  // ----- all together -----

  /** `cleaned` records the nodes whose latest delete reconcile had its remote cleanup
      succeed, `removed` those whose row was hard-deleted. */
  datatype State = State(
    clusters: map<string, ClusterRow>,
    sncs: map<string, SncRow>,
    nodes: Nodes,
    nextId: nat,
    cctl: map<string, ClusterPc>,
    sctl: map<string, SncPc>,
    nctl: map<nat, NodePc>,
    cleaned: set<nat>,
    removed: set<nat>)

  datatype Step =
    | UserCreates(c: string)
    | UserDeletes(c: string, force: bool)
    | ClusterStep(c: string, cmove: ClusterMove)
    | SncStep(c: string, smove: SncMove)
    | NodeStep(id: nat, nmove: NodeMove)

  function Get<K, V>(m: map<K, V>, k: K): Option<V>
  {
    if k in m then Some(m[k]) else None
  }

  function Put<K, V>(m: map<K, V>, k: K, v: Option<V>): map<K, V>
  {
    if v.Some? then m[k := v.value] else m - {k}
  }

  lemma PutTwice<K, V>(m: map<K, V>, k: K, a: Option<V>, b: Option<V>)
    ensures Put(Put(m, k, a), k, b) == Put(m, k, b)
    ensures Get(Put(m, k, a), k) == a
    ensures Put(m, k, Get(m, k)) == m
  {
  }

  function ClusterViewOf(s: State, c: string): ClusterView
  {
    ClusterView(Get(s.clusters, c), Get(s.sncs, c), Get(s.cctl, c))
  }

  function SncViewOf(s: State, c: string): SncView
  {
    SncView(Get(s.sncs, c), Get(s.sctl, c), s.nodes, s.nextId)
  }

  function WithCluster(s: State, c: string, v: ClusterView): State
  {
    s.(clusters := Put(s.clusters, c, v.row), sncs := Put(s.sncs, c, v.snc), cctl := Put(s.cctl, c, v.pc))
  }

  function WithSnc(s: State, c: string, v: SncView): State
  {
    s.(sncs := Put(s.sncs, c, v.row), sctl := Put(s.sctl, c, v.pc), nodes := v.nodes, nextId := v.nextId)
  }

  predicate Enabled(s: State, step: Step)
  {
    match step
    case UserCreates(c) => c != "" && c !in s.clusters
    case UserDeletes(c, _) => c in s.clusters
    case ClusterStep(c, move) => ClusterCan(ClusterViewOf(s, c), move)
    case SncStep(c, move) => SncCan(SncViewOf(s, c), move)
    case NodeStep(id, NFetch) => id in s.nodes && id !in s.nctl && s.nodes[id].deleting
    case NodeStep(id, NCleanup(_)) => id in s.nctl && s.nctl[id].NRead?
    case NodeStep(id, NRemove(_)) => id in s.nctl && s.nctl[id].NRemoving?
  }

  function Do(s: State, step: Step): State
    requires Enabled(s, step)
  {
    match step
    case UserCreates(c) => s.(clusters := s.clusters[c := ClusterRow(false, false, Active)])
    case UserDeletes(c, force) =>
      s.(clusters := s.clusters[c := s.clusters[c].(deleting := true, force := s.clusters[c].force || force)])
    case ClusterStep(c, move) => WithCluster(s, c, ClusterDo(ClusterViewOf(s, c), move))
    case SncStep(c, move) => WithSnc(s, c, SncDo(c, SncViewOf(s, c), move))
    case NodeStep(id, NFetch) => s.(nctl := s.nctl[id := NRead(s.nodes[id])], cleaned := s.cleaned - {id})
    case NodeStep(id, NCleanup(ok)) =>
      s.(cleaned := if ok then s.cleaned + {id} else s.cleaned,
         nctl := if ok || s.nctl[id].row.force then s.nctl[id := NRemoving] else s.nctl - {id})
    case NodeStep(id, NRemove(ok)) =>
      if ok then s.(nctl := s.nctl - {id}, nodes := s.nodes - {id}, removed := s.removed + {id})
      else s.(nctl := s.nctl - {id})
  }

  // ----- what every step keeps -----

  /** A cluster name in good order: deletion timestamps stay, a reconcile in flight
      either read one or its cluster is not marked Deleted, and neither the Deleted mark
      nor a finished deletion coexists with a StaticNodeCluster row. */
  ghost predicate ClusterOk(v: ClusterView)
  {
    && (v.pc.Some? ==> v.row.Some?)
    && (v.row.Some? && v.row.value.phase == Deleted ==> v.row.value.deleting && v.snc.None?)
    && (v.pc.Some? && v.pc.value.row.deleting ==> v.row.value.deleting)
    && (v.pc.Some? && !v.pc.value.row.deleting ==> v.row.value.phase != Deleted && v.pc.value.row.phase != Deleted)
    && (v.pc.Some? && v.pc.value.CNormal? ==> !v.pc.value.row.deleting)
    && (v.pc.Some? && v.pc.value.CReturn? && v.pc.value.row.deleting && v.pc.value.ok ==> v.snc.None?)
  }

  /** A StaticNodeCluster name in good order: a reconcile in flight or an owned node
      means the row exists, and a listing covers the nodes owned now. */
  ghost predicate SncOk(c: string, row: Option<SncRow>, pc: Option<SncPc>, nodes: Nodes)
  {
    && (pc.Some? ==> row.Some?)
    && (row.None? ==> forall id :: id in nodes ==> nodes[id].owner != c)
    && (pc.Some? && pc.value.SListed? ==> forall id :: id in nodes && nodes[id].owner == c ==> id in pc.value.listed)
  }

  ghost predicate Inv(s: State)
  {
    && (forall c :: ClusterOk(ClusterViewOf(s, c)))
    && (forall c :: c != "" ==> SncOk(c, Get(s.sncs, c), Get(s.sctl, c), s.nodes))
  }

  lemma ClusterMoveOk(v: ClusterView, move: ClusterMove)
    requires ClusterOk(v) && ClusterCan(v, move)
    requires move.CStatus? ==> !v.pc.value.row.force
    ensures ClusterOk(ClusterDo(v, move))
  {
  }

  lemma SncMoveOk(c: string, v: SncView, move: SncMove)
    requires SncCan(v, move) && SncOk(c, v.row, v.pc, v.nodes)
    ensures var w := SncDo(c, v, move); SncOk(c, w.row, w.pc, w.nodes)
  {
  }

  /** A StaticNodeCluster reconcile gives no other cluster a node. */
  lemma SncMoveOthers(c: string, v: SncView, move: SncMove, id: nat)
    requires SncCan(v, move)
    ensures var w := SncDo(c, v, move);
      id in w.nodes && w.nodes[id].owner != c ==> id in v.nodes && v.nodes[id].owner == w.nodes[id].owner
  {
  }

  lemma InvStep(s: State, step: Step)
    requires Inv(s) && Enabled(s, step)
    requires step.ClusterStep? && step.cmove.CStatus? ==> !s.cctl[step.c].row.force
    ensures Inv(Do(s, step))
  {
    var t := Do(s, step);
    forall c ensures ClusterOk(ClusterViewOf(t, c)) {
      assert ClusterOk(ClusterViewOf(s, c));
      ClusterOkStep(s, step, c);
    }
    forall c | c != "" ensures SncOk(c, Get(t.sncs, c), Get(t.sctl, c), t.nodes) {
      assert SncOk(c, Get(s.sncs, c), Get(s.sctl, c), s.nodes);
      SncOkStep(s, step, c);
    }
  }

  lemma ClusterOkStep(s: State, step: Step, c: string)
    requires Enabled(s, step) && ClusterOk(ClusterViewOf(s, c))
    requires step.ClusterStep? && step.cmove.CStatus? ==> !s.cctl[step.c].row.force
    ensures ClusterOk(ClusterViewOf(Do(s, step), c))
  {
    var t := Do(s, step);
    match step
    case ClusterStep(d, move) =>
      if d == c {
        ClusterMoveOk(ClusterViewOf(s, c), move);
        assert ClusterViewOf(t, c) == ClusterDo(ClusterViewOf(s, c), move);
      } else {
        assert ClusterViewOf(t, c) == ClusterViewOf(s, c);
      }
    case SncStep(d, move) =>
      SncMoveRow(d, SncViewOf(s, d), move);
    case _ =>
  }

  /** A StaticNodeCluster reconcile keeps its row as it is, or removes it. */
  lemma SncMoveRow(c: string, v: SncView, move: SncMove)
    requires SncCan(v, move)
    ensures SncDo(c, v, move).row in {v.row, None}
  {
  }

  lemma SncOkStep(s: State, step: Step, c: string)
    requires Enabled(s, step) && SncOk(c, Get(s.sncs, c), Get(s.sctl, c), s.nodes)
    ensures var t := Do(s, step); SncOk(c, Get(t.sncs, c), Get(t.sctl, c), t.nodes)
  {
    var t := Do(s, step);
    match step
    case ClusterStep(d, move) =>
      ClusterMoveSnc(ClusterViewOf(s, d), move);
    case SncStep(d, move) =>
      if d == c {
        SncMoveOk(c, SncViewOf(s, c), move);
      } else {
        forall id | id in t.nodes && t.nodes[id].owner == c ensures id in s.nodes && s.nodes[id].owner == c {
          SncMoveOthers(d, SncViewOf(s, d), move, id);
        }
      }
    case _ =>
  }

  /** A Cluster reconcile never removes a StaticNodeCluster row. */
  lemma ClusterMoveSnc(v: ClusterView, move: ClusterMove)
    requires ClusterCan(v, move)
    ensures v.snc.Some? ==> ClusterDo(v, move).snc.Some?
  {
  }

  // ----- runs without the force annotation -----

  ghost predicate UnforcedRows(nodes: Nodes)
  {
    forall id :: id in nodes ==> !nodes[id].force
  }

  ghost predicate UnforcedPc(pc: SncPc)
  {
    match pc
    case SRead(row) => !row.force
    case SListed(row, listed) => !row.force && UnforcedRows(listed)
    case SMarking(force, todo) => !force && UnforcedRows(todo)
    case SUpserting(_, _, listed) => UnforcedRows(listed)
    case SFound(_, _, listed, _, _) => UnforcedRows(listed)
    case SPruning(todo) => UnforcedRows(todo)
  }

  ghost predicate UnforcedCluster(v: ClusterView)
  {
    && (v.row.Some? ==> !v.row.value.force)
    && (v.snc.Some? ==> !v.snc.value.force)
    && (v.pc.Some? ==> !v.pc.value.row.force && (v.pc.value.CDelete? ==> !v.pc.value.snc.force))
  }

  /** No row, and nothing read from a row, carries the force annotation. */
  ghost predicate Unforced(s: State)
  {
    && (forall c :: UnforcedCluster(ClusterViewOf(s, c)))
    && (forall c :: c in s.sctl ==> UnforcedPc(s.sctl[c]))
    && UnforcedRows(s.nodes)
    && (forall id :: id in s.nctl && s.nctl[id].NRead? ==> !s.nctl[id].row.force)
  }

  lemma UnforcedClusterMove(v: ClusterView, move: ClusterMove)
    requires UnforcedCluster(v) && ClusterCan(v, move)
    ensures UnforcedCluster(ClusterDo(v, move))
  {
  }

  lemma UnforcedSncMove(c: string, v: SncView, move: SncMove)
    requires SncCan(v, move) && UnforcedRows(v.nodes)
    requires (v.row.Some? ==> !v.row.value.force) && (v.pc.Some? ==> UnforcedPc(v.pc.value))
    ensures var w := SncDo(c, v, move);
      UnforcedRows(w.nodes) && (w.pc.Some? ==> UnforcedPc(w.pc.value))
  {
  }

  lemma UnforcedWithCluster(s: State, c: string, v: ClusterView)
    requires Unforced(s) && UnforcedCluster(v)
    ensures Unforced(WithCluster(s, c, v))
  {
    var t := WithCluster(s, c, v);
    forall d ensures UnforcedCluster(ClusterViewOf(t, d)) {
      assert UnforcedCluster(ClusterViewOf(s, d));
      assert d == c ==> ClusterViewOf(t, d) == v;
    }
  }

  lemma UnforcedWithSnc(s: State, c: string, v: SncView)
    requires Unforced(s) && v.row in {Get(s.sncs, c), None}
    requires UnforcedRows(v.nodes) && (v.pc.Some? ==> UnforcedPc(v.pc.value))
    ensures Unforced(WithSnc(s, c, v))
  {
    var t := WithSnc(s, c, v);
    forall d ensures UnforcedCluster(ClusterViewOf(t, d)) {
      assert UnforcedCluster(ClusterViewOf(s, d));
    }
  }

  lemma UnforcedStep(s: State, step: Step)
    requires Unforced(s) && Enabled(s, step) && (step.UserDeletes? ==> !step.force)
    ensures Unforced(Do(s, step))
  {
    match step
    case ClusterStep(c, move) =>
      UnforcedClusterMove(ClusterViewOf(s, c), move);
      UnforcedWithCluster(s, c, ClusterDo(ClusterViewOf(s, c), move));
    case SncStep(c, move) =>
      assert UnforcedCluster(ClusterViewOf(s, c));
      UnforcedSncMove(c, SncViewOf(s, c), move);
      SncMoveRow(c, SncViewOf(s, c), move);
      UnforcedWithSnc(s, c, SncDo(c, SncViewOf(s, c), move));
    case UserDeletes(c, force) =>
      UnforcedRest(s, step);
    case UserCreates(c) =>
      UnforcedRest(s, step);
    case NodeStep(id, move) =>
      UnforcedRest(s, step);
  }

  lemma UnforcedRest(s: State, step: Step)
    requires Unforced(s) && Enabled(s, step) && (step.UserDeletes? ==> !step.force)
    requires !step.ClusterStep? && !step.SncStep?
    ensures Unforced(Do(s, step))
  {
    var t := Do(s, step);
    forall d ensures UnforcedCluster(ClusterViewOf(t, d)) {
      assert UnforcedCluster(ClusterViewOf(s, d));
    }
  }

  /** Identities are handed out once: rows and removed rows are told apart by them. */
  ghost predicate Numbered(s: State)
  {
    && (forall id :: id in s.nodes || id in s.nctl ==> id < s.nextId)
    && (forall id :: id in s.removed ==> id < s.nextId && id !in s.nodes)
  }

  lemma SncMoveNumbers(c: string, v: SncView, move: SncMove)
    requires SncCan(v, move)
    ensures var w := SncDo(c, v, move);
      && v.nextId <= w.nextId
      && forall id :: id in w.nodes ==> id in v.nodes || (id == v.nextId && v.nextId < w.nextId)
  {
  }

  lemma NumberedStep(s: State, step: Step)
    requires Numbered(s) && Enabled(s, step)
    ensures Numbered(Do(s, step))
  {
    if step.SncStep? {
      SncMoveNumbers(step.c, SncViewOf(s, step.c), step.smove);
    }
  }

  /** A node is about to be removed, or was removed, only by a reconcile in which its
      cleanup succeeded. */
  ghost predicate CleanedFirst(s: State)
  {
    && Numbered(s)
    && (forall id :: id in s.nctl && s.nctl[id].NRemoving? ==> id in s.cleaned)
    && s.removed <= s.cleaned
  }

  lemma CleanedStep(s: State, step: Step)
    requires Unforced(s) && CleanedFirst(s) && Enabled(s, step)
    ensures CleanedFirst(Do(s, step))
  {
    NumberedStep(s, step);
  }

  ghost predicate Runs(s: State, steps: seq<Step>, last: State)
    decreases |steps|
  {
    if steps == [] then last == s
    else Enabled(s, steps[0]) && Runs(Do(s, steps[0]), steps[1..], last)
  }

  ghost predicate NeverForced(steps: seq<Step>)
  {
    forall i :: 0 <= i < |steps| && steps[i].UserDeletes? ==> !steps[i].force
  }

  lemma {:induction false} RunInvariant(s: State, steps: seq<Step>, last: State)
    requires Inv(s) && Unforced(s) && CleanedFirst(s) && Runs(s, steps, last) && NeverForced(steps)
    ensures Inv(last) && Unforced(last) && CleanedFirst(last)
    decreases |steps|
  {
    if steps != [] {
      if steps[0].ClusterStep? {
        assert UnforcedCluster(ClusterViewOf(s, steps[0].c));
      }
      InvStep(s, steps[0]);
      UnforcedStep(s, steps[0]);
      CleanedStep(s, steps[0]);
      RunInvariant(Do(s, steps[0]), steps[1..], last);
    }
  }

  /** No rows, no reconciles, no history. */
  ghost predicate Init(s: State)
  {
    s.clusters == map[] && s.sncs == map[] && s.nodes == map[]
    && s.cctl == map[] && s.sctl == map[] && s.nctl == map[] && s.cleaned == {} && s.removed == {}
  }

  /** In every run in which the force annotation is never set, a cluster is marked
      Deleted only when it has neither a StaticNodeCluster row nor a StaticNode row, and
      every node row that was removed was removed by a reconcile in which its remote
      cleanup had succeeded. */
  lemma DeletedMeansCleanedUp(s: State, steps: seq<Step>, last: State)
    requires Init(s) && Runs(s, steps, last) && NeverForced(steps)
    ensures forall c :: c != "" && c in last.clusters && last.clusters[c].phase == Deleted ==>
              c !in last.sncs && Owned(last.nodes, c) == {}
    ensures last.removed <= last.cleaned
  {
    RunInvariant(s, steps, last);
    forall c | c != "" && c in last.clusters && last.clusters[c].phase == Deleted
      ensures c !in last.sncs && Owned(last.nodes, c) == {}
    {
      assert ClusterOk(ClusterViewOf(last, c));
      assert SncOk(c, Get(last.sncs, c), Get(last.sctl, c), last.nodes);
    }
  }

  /** The call the step makes fails. */
  predicate Fails(step: Step)
  {
    match step
    case UserCreates(_) => false
    case UserDeletes(_, _) => false
    case ClusterStep(_, move) =>
      (match move
       case CFetch => false
       case CReject => true
       case CFind(ok) => !ok
       case CApply(ok) => !ok
       case CMark(ok) => !ok
       case CStatus(ok) => !ok
       case CRemove(ok) => !ok)
    case SncStep(_, move) =>
      (match move
       case SRemove(ok) => !ok
       case SMark(_, ok) => !ok
       case SUpsert(ok) => !ok
       case SPruneOne(_, ok) => !ok
       case _ => move.SFail?)
    case NodeStep(_, move) => (match move case NFetch => false case NCleanup(ok) => !ok case NRemove(ok) => !ok)
  }

  /** A call that fails changes no row. */
  lemma FailureChangesNoRow(s: State, step: Step)
    requires Enabled(s, step) && Fails(step)
    ensures var t := Do(s, step); t.clusters == s.clusters && t.sncs == s.sncs && t.nodes == s.nodes
  {
    if step.ClusterStep? {
      PutTwice(s.clusters, step.c, None, None);
      PutTwice(s.sncs, step.c, None, None);
    } else if step.SncStep? {
      PutTwice(s.sncs, step.c, None, None);
    }
  }

  // ----- what the history variables stand for -----

  lemma {:induction false} CleanedHistory(s: State, steps: seq<Step>, last: State, id: nat)
    requires Runs(s, steps, last) && id in last.cleaned
    ensures || (id in s.cleaned && NodeStep(id, NFetch) !in steps)
            || exists i :: 0 <= i < |steps| && steps[i] == NodeStep(id, NCleanup(true))
                           && NodeStep(id, NFetch) !in steps[i..]
    decreases |steps|
  {
    if steps != [] {
      var next, rest := Do(s, steps[0]), steps[1..];
      CleanedHistory(next, rest, last, id);
      if id in next.cleaned && NodeStep(id, NFetch) !in rest {
        assert steps == [steps[0]] + rest && steps[0..] == steps;
      } else {
        var i :| 0 <= i < |rest| && rest[i] == NodeStep(id, NCleanup(true)) && NodeStep(id, NFetch) !in rest[i..];
        assert steps[i + 1] == rest[i] && steps[i + 1..] == rest[i..];
      }
    }
  }

  lemma {:induction false} RunsTo(s: State, steps: seq<Step>, last: State, j: nat) returns (mid: State)
    requires Runs(s, steps, last) && j < |steps|
    ensures Runs(s, steps[..j], mid) && Enabled(mid, steps[j])
    decreases |steps|
  {
    if j == 0 {
      return s;
    }
    mid := RunsTo(Do(s, steps[0]), steps[1..], last, j - 1);
    assert steps[..j][1..] == steps[1..][..j - 1];
  }

  /** In every run without the force annotation, every removal of a node row follows a
      successful cleanup of that node in the same reconcile. */
  lemma RemovedAfterCleanup(s: State, steps: seq<Step>, last: State, id: nat, j: nat)
    requires Init(s) && Runs(s, steps, last) && NeverForced(steps)
    requires j < |steps| && steps[j] == NodeStep(id, NRemove(true))
    ensures exists i :: 0 <= i < j && steps[i] == NodeStep(id, NCleanup(true))
                        && NodeStep(id, NFetch) !in steps[i..j]
  {
    var mid := RunsTo(s, steps, last, j);
    RunInvariant(s, steps[..j], mid);
    CleanedHistory(s, steps[..j], mid, id);
    var i :| 0 <= i < j && steps[..j][i] == NodeStep(id, NCleanup(true)) && NodeStep(id, NFetch) !in steps[..j][i..];
    assert steps[..j][i..] == steps[i..j];
  }

  /** The node rows that are gone are the ones that were removed. */
  lemma {:induction false} RemovedIsRecorded(s: State, steps: seq<Step>, last: State, id: nat)
    requires Runs(s, steps, last)
    ensures id in last.removed <==> id in s.removed || NodeStep(id, NRemove(true)) in steps
    ensures id in s.nodes && id !in last.nodes ==> NodeStep(id, NRemove(true)) in steps
    decreases |steps|
  {
    if steps != [] {
      var next := Do(s, steps[0]);
      if steps[0].SncStep? {
        SncMoveKeepsRows(steps[0].c, SncViewOf(s, steps[0].c), steps[0].smove);
      }
      RemovedIsRecorded(next, steps[1..], last, id);
      assert steps == [steps[0]] + steps[1..];
    }
  }

  lemma SncMoveKeepsRows(c: string, v: SncView, move: SncMove)
    requires SncCan(v, move)
    ensures v.nodes.Keys <= SncDo(c, v, move).nodes.Keys
  {
  }

  // ----- the end of the Cluster row -----

  /** What is left for a deleted cluster to do once its StaticNodeCluster row is gone. */
  function Farewell(c: string, phase: Phase): seq<Step>
  {
    var remove := [ClusterStep(c, CFetch), ClusterStep(c, CRemove(true))];
    if phase == Deleted then remove
    else [ClusterStep(c, CFetch), ClusterStep(c, CFind(true)), ClusterStep(c, CStatus(true))] + remove
  }

  /** The Cluster row follows its StaticNodeCluster row: two reconciles, or one if Deleted
      is already stored, remove it and touch nothing else. */
  lemma ClusterFollows(s: State, c: string)
    requires c in s.clusters && s.clusters[c].deleting && c !in s.sncs && c !in s.cctl
    ensures Runs(s, Farewell(c, s.clusters[c].phase), s.(clusters := s.clusters - {c}))
  {
    if s.clusters[c].phase == Deleted {
      RemovesCluster(s, c);
    } else {
      var row := s.clusters[c];
      var marked := s.(clusters := s.clusters[c := row.(phase := Deleted)]);
      RemovesCluster(marked, c);
      assert marked.clusters - {c} == s.clusters - {c};
      var read := s.(cctl := s.cctl[c := CRead(row)]);
      var found := s.(cctl := s.cctl[c := CReturn(row, true)]);
      ClusterCalls(s, c, read, found, marked);
      var steps := Farewell(c, row.phase);
      assert steps[1..][1..][1..] == Farewell(c, Deleted);
      assert Runs(found, steps[1..][1..], s.(clusters := s.clusters - {c}));
      assert Runs(read, steps[1..], s.(clusters := s.clusters - {c}));
    }
  }

  lemma ClusterCalls(s: State, c: string, read: State, found: State, marked: State)
    requires c in s.clusters && s.clusters[c].deleting && c !in s.sncs && c !in s.cctl && s.clusters[c].phase != Deleted
    requires read == s.(cctl := s.cctl[c := CRead(s.clusters[c])])
    requires found == s.(cctl := s.cctl[c := CReturn(s.clusters[c], true)])
    requires marked == s.(clusters := s.clusters[c := s.clusters[c].(phase := Deleted)])
    ensures Enabled(s, ClusterStep(c, CFetch)) && Do(s, ClusterStep(c, CFetch)) == read
    ensures Enabled(read, ClusterStep(c, CFind(true))) && Do(read, ClusterStep(c, CFind(true))) == found
    ensures Enabled(found, ClusterStep(c, CStatus(true))) && Do(found, ClusterStep(c, CStatus(true))) == marked
  {
    assert s.sncs - {c} == s.sncs;
    assert s.cctl[c := CReturn(s.clusters[c], true)] - {c} == s.cctl;
    PutTwice(s.clusters, c, None, None);
  }

  lemma RemovesCluster(s: State, c: string)
    requires c in s.clusters && Gone(s.clusters[c]) && c !in s.sncs && c !in s.cctl
    ensures Runs(s, Farewell(c, Deleted), s.(clusters := s.clusters - {c}))
  {
    var read := s.(cctl := s.cctl[c := CRead(s.clusters[c])]);
    assert s.sncs - {c} == s.sncs;
    PutTwice(s.clusters, c, None, None);
    assert Do(s, ClusterStep(c, CFetch)) == read;
    assert read.cctl - {c} == s.cctl;
    assert Do(read, ClusterStep(c, CRemove(true))) == s.(clusters := s.clusters - {c});
    var steps := Farewell(c, Deleted);
    assert steps[1..][1..] == [];
    assert Runs(read, steps[1..], s.(clusters := s.clusters - {c}));
  }
}
