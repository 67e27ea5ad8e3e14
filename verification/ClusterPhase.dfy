/** The cluster phase machine: what one cluster row's status can go through.

    A reconcile works on a copy fetched from storage.  The reconcilers write the
    copy's status back early, during recovery and with every progress message, and
    the controller writes it once more at the end; each write replaces the stored
    status and may fail.  Users edit the spec at any time.  `ran` is history: the
    effective spec of the last Running that reached storage.
 */
module ClusterPhase {
  import opened Basics

  datatype Phase = Unset | Initializing | Running | Updating | Upgrading | Failed | Deleting | Deleted

  datatype Kubernetes = Kubernetes(kubeconfig: string, settings: string)
  datatype Ssh = Ssh(privateKey: string, settings: string)
  datatype Config = Config(kubernetes: Option<Kubernetes>, ssh: Option<Ssh>, settings: string)
  datatype Spec = Spec(version: string, config: Option<Config>, settings: string)

  datatype Status = Status(phase: Phase, initialized: bool, version: string, observedSpecHash: string)

  datatype Cluster = Cluster(spec: Spec, status: Option<Status>, deleting: bool, force: bool)

  const NO_STATUS := Status(Unset, false, "", "")

  /** The spec without its connection credentials. */
  function Clean(s: Spec): Spec
  {
    match s.config
    case None => s
    case Some(c) =>
      var kubernetes := if c.kubernetes.Some? then Some(c.kubernetes.value.(kubeconfig := "")) else None;
      var ssh := if c.ssh.Some? then Some(c.ssh.value.(privateKey := "")) else None;
      s.(config := Some(c.(kubernetes := kubernetes, ssh := ssh)))
  }

  /** `t` is `s` with other credentials in the places where `s` holds credentials. */
  ghost predicate Rotated(s: Spec, t: Spec)
  {
    || t == s
    || exists kubeconfig, privateKey :: t == WithCredentials(s, kubeconfig, privateKey)
  }

  function WithCredentials(s: Spec, kubeconfig: string, privateKey: string): Spec
  {
    match s.config
    case None => s
    case Some(c) =>
      var kubernetes := if c.kubernetes.Some? then Some(c.kubernetes.value.(kubeconfig := kubeconfig)) else None;
      var ssh := if c.ssh.Some? then Some(c.ssh.value.(privateKey := privateKey)) else None;
      s.(config := Some(c.(kubernetes := kubernetes, ssh := ssh)))
  }

  /** Cleaning forgets the credentials and nothing else. */
  lemma CleanForgetsCredentialsOnly(s: Spec, t: Spec)
    ensures Clean(s) == Clean(t) <==> Rotated(s, t)
  {
    if Clean(s) == Clean(t) && s.config.Some? {
      var c := t.config.value;
      var kubeconfig := if c.kubernetes.Some? then c.kubernetes.value.kubeconfig else "";
      var privateKey := if c.ssh.Some? then c.ssh.value.privateKey else "";
      assert t == WithCredentials(s, kubeconfig, privateKey);
    }
  }

  function SpecHash(hash: Spec -> string, s: Spec): string
  {
    hash(Clean(s))
  }

  predicate IsInitialized(c: Cluster)
  {
    c.status.Some? && c.status.value.initialized
  }

  predicate NeedsVersionUpgrade(c: Cluster)
  {
    c.status.Some? && c.status.value.version != "" && c.spec.version != "" && c.status.value.version != c.spec.version
  }

  function DeterminePhase(hash: Spec -> string, ready: bool, c: Cluster): Phase
  {
    if ready then Running
    else if !IsInitialized(c) then Initializing
    else if NeedsVersionUpgrade(c) then Upgrading
    else if c.status.value.observedSpecHash != "" && c.status.value.observedSpecHash != SpecHash(hash, c.spec) then Updating
    else Failed
  }

  function DetermineDeletePhase(completed: bool, c: Cluster): Phase
  {
    if completed || c.force then Deleted else Deleting
  }

  /** Each phase of a cluster that is not being deleted, with its exact condition. */
  lemma PhaseIff(hash: Spec -> string, ready: bool, c: Cluster)
    ensures var phase := DeterminePhase(hash, ready, c);
            var initialized := c.status.Some? && c.status.value.initialized;
            var upgrading := initialized && c.status.value.version != "" && c.spec.version != ""
                             && c.status.value.version != c.spec.version;
            var changed := initialized && c.status.value.observedSpecHash != ""
                           && c.status.value.observedSpecHash != hash(Clean(c.spec));
            && (phase == Running <==> ready)
            && (phase == Initializing <==> !ready && !initialized)
            && (phase == Upgrading <==> !ready && upgrading)
            && (phase == Updating <==> !ready && !upgrading && changed)
            && (phase == Failed <==> !ready && initialized && !upgrading && !changed)
  {
  }

  datatype State = State(row: Option<Cluster>, obj: Option<Cluster>, ran: Option<Spec>)

  datatype Move =
    | Edit(spec: Spec)
    | Mark(force: bool)
    | Fetch(defaultVersion: string)
    | Early(stored: bool)
    | Begin(stored: bool)
    | Recover(stored: bool)
    | Progress(stored: bool)
    | EarlyDeleting(stored: bool)
    | Report(version: string)
    | Ready
    | Finish(success: bool, stored: bool)
    | Forget(removed: bool)

  /** A reconciler reports success only after it marked the cluster initialized; a
      copy fetched as Deleted is only ever removed. */
  predicate Enabled(s: State, m: Move)
  {
    match m
    case Edit(_) => s.row.Some?
    case Mark(_) => s.row.Some?
    case Fetch(_) => s.row.Some? && s.obj.None?
    case Begin(_) => Live(s.obj) && !IsInitialized(s.obj.value)
    case Early(_) => Live(s.obj)
    case Recover(_) => Live(s.obj)
    case Report(_) => Live(s.obj)
    case Ready => Live(s.obj)
    case Progress(_) => s.obj.Some? && !Gone(s.obj.value)
    case EarlyDeleting(_) => s.obj.Some? && s.obj.value.deleting && !Gone(s.obj.value)
    case Finish(success, _) =>
      s.obj.Some? && !Gone(s.obj.value) && (success && Live(s.obj) ==> IsInitialized(s.obj.value))
    case Forget(_) => s.obj.Some? && Gone(s.obj.value)
  }

  predicate Live(c: Option<Cluster>)
  {
    c.Some? && !c.value.deleting
  }

  predicate Gone(c: Cluster)
  {
    c.deleting && StatusOf(c).phase == Deleted
  }

  function StatusOf(c: Cluster): Status
  {
    c.status.GetOr(NO_STATUS)
  }

  function WithPhase(c: Cluster, phase: Phase): Cluster
  {
    c.(status := Some(StatusOf(c).(phase := phase)))
  }

  /** Fetching fills in the default version and backfills the status version of
      clusters initialized before versions were tracked. */
  function Fetched(row: Cluster, defaultVersion: string): Cluster
  {
    var c := if row.spec.version == "" then row.(spec := row.spec.(version := defaultVersion)) else row;
    if IsInitialized(c) && c.status.value.version == ""
    then c.(status := Some(c.status.value.(version := c.spec.version)))
    else c
  }

  function EarlyPhase(hash: Spec -> string, c: Cluster): Option<Phase>
  {
    var phase := DeterminePhase(hash, false, c);
    if phase == Failed || (c.status.Some? && c.status.value.phase == phase) then None else Some(phase)
  }

  function Closed(hash: Spec -> string, c: Cluster, success: bool): Cluster
  {
    if c.deleting then WithPhase(c, DetermineDeletePhase(success, c))
    else if success then
      c.(status := Some(StatusOf(c).(phase := Running, observedSpecHash := SpecHash(hash, c.spec))))
    else WithPhase(c, DeterminePhase(hash, false, c))
  }

  /** The copy a move sends to storage, if it sends one. */
  function Sent(hash: Spec -> string, c: Cluster, m: Move): Option<Cluster>
  {
    match m
    case Early(_) =>
      var phase := EarlyPhase(hash, c);
      if phase.None? then None else Some(WithPhase(c, phase.value))
    case Begin(_) => Some(WithPhase(c, Initializing))
    case Recover(_) => if StatusOf(c).phase == Running then Some(WithPhase(c, Failed)) else None
    case Progress(_) =>
      if c.status.Some? && (!c.status.value.initialized || c.status.value.phase == Upgrading) then Some(c) else None
    case EarlyDeleting(_) => if StatusOf(c).phase == Deleting then None else Some(WithPhase(c, Deleting))
    case Finish(success, _) => Some(Closed(hash, c, success))
    case _ => None
  }

  /** What was sent replaces the stored status, if the write succeeds. */
  function Write(row: Option<Cluster>, sent: Option<Cluster>, stored: bool): Option<Cluster>
  {
    if stored && row.Some? && sent.Some? then Some(row.value.(status := sent.value.status)) else row
  }

  predicate StoresRunning(s: State, m: Move)
  {
    m.Finish? && m.success && m.stored && s.row.Some? && Live(s.obj)
  }

  function Do(hash: Spec -> string, s: State, m: Move): State
    requires Enabled(s, m)
  {
    match m
    case Edit(spec) => s.(row := Some(s.row.value.(spec := spec)))
    case Mark(force) => s.(row := Some(s.row.value.(deleting := true, force := force)))
    case Fetch(version) => s.(obj := Some(Fetched(s.row.value, version)))
    case Report(version) =>
      s.(obj := Some(s.obj.value.(status := Some(StatusOf(s.obj.value).(version := version)))))
    case Ready =>
      s.(obj := Some(s.obj.value.(status := Some(StatusOf(s.obj.value).(initialized := true)))))
    case Finish(_, stored) =>
      State(Write(s.row, Sent(hash, s.obj.value, m), stored), None,
            if StoresRunning(s, m) then Some(s.obj.value.spec) else s.ran)
    case Forget(removed) => s.(row := if removed then None else s.row, obj := None)
    case _ =>
      var sent := Sent(hash, s.obj.value, m);
      s.(row := Write(s.row, sent, m.stored), obj := if sent.Some? then sent else s.obj)
  }

  ghost predicate Init(s: State)
  {
    && s.obj.None? && s.ran.None?
    && s.row.Some? && (s.row.value.status.Some? ==> Sane(s.row.value.status.value) && s.row.value.status.value.observedSpecHash == "")
  }

  /** Running and Updating are only ever shown on an initialized cluster. */
  predicate Sane(t: Status)
  {
    (t.phase == Running || t.phase == Updating ==> t.initialized)
  }

  /** No hash, or the hash of the spec that last ran. */
  predicate Backed(hash: Spec -> string, t: Status, ran: Option<Spec>)
  {
    t.observedSpecHash == match ran { case None => "" case Some(spec) => SpecHash(hash, spec) }
  }

  ghost predicate CopyOk(hash: Spec -> string, c: Cluster, ran: Option<Spec>)
  {
    Sane(StatusOf(c)) && Backed(hash, StatusOf(c), ran)
  }

  ghost predicate Inv(hash: Spec -> string, s: State)
  {
    && (s.row.Some? ==> CopyOk(hash, s.row.value, s.ran))
    && (s.obj.Some? ==> CopyOk(hash, s.obj.value, s.ran))
    && (s.row.Some? && s.obj.Some? && IsInitialized(s.row.value) ==> IsInitialized(s.obj.value))
  }

  predicate ReportsRunning(s: State, m: Move)
  {
    m.Finish? && m.success && Live(s.obj)
  }

  /** What a move sends keeps the copy's initialized flag and shows Initializing only
      without it; Updating is sent only when the credential-free spec differs from
      the one that last ran. */
  lemma SentIsSound(hash: Spec -> string, s: State, m: Move, sent: Cluster)
    requires Inv(hash, s) && Enabled(s, m) && s.obj.Some? && Sent(hash, s.obj.value, m) == Some(sent)
    ensures IsInitialized(sent) == IsInitialized(s.obj.value)
    ensures Sane(StatusOf(sent))
    ensures Backed(hash, StatusOf(sent), if ReportsRunning(s, m) then Some(s.obj.value.spec) else s.ran)
    ensures StatusOf(sent).phase == Initializing ==> !IsInitialized(s.obj.value)
    ensures StatusOf(sent).phase == Updating ==> s.ran.Some? && Clean(s.obj.value.spec) != Clean(s.ran.value)
  {
  }

  lemma StepInv(hash: Spec -> string, s: State, m: Move)
    requires Inv(hash, s) && Enabled(s, m)
    ensures Inv(hash, Do(hash, s, m))
    ensures var t := Do(hash, s, m);
            s.row.Some? && t.row.Some? && IsInitialized(s.row.value) ==> IsInitialized(t.row.value)
    ensures s.row.None? ==> Do(hash, s, m).row.None?
  {
    if s.obj.Some? {
      var sent := Sent(hash, s.obj.value, m);
      if sent.Some? {
        SentIsSound(hash, s, m, sent.value);
      }
    }
  }

  ghost predicate Run(hash: Spec -> string, states: seq<State>, moves: seq<Move>)
  {
    && |states| == |moves| + 1
    && Init(states[0])
    && forall i :: 0 <= i < |moves| ==>
         Enabled(states[i], moves[i]) && states[i + 1] == Do(hash, states[i], moves[i])
  }

  lemma {:induction false} RunInv(hash: Spec -> string, states: seq<State>, moves: seq<Move>, n: nat)
    requires Run(hash, states, moves) && n <= |moves|
    ensures Inv(hash, states[n])
  {
    if n > 0 {
      RunInv(hash, states, moves, n - 1);
      StepInv(hash, states[n - 1], moves[n - 1]);
    }
  }

  predicate RowInitialized(s: State)
  {
    s.row.Some? && IsInitialized(s.row.value)
  }

  /** In every run a stored Initialized never reverts while the row exists. */
  lemma {:induction false} InitializedNeverReverts(hash: Spec -> string, states: seq<State>, moves: seq<Move>, i: nat, j: nat)
    requires Run(hash, states, moves) && i <= j <= |moves|
    requires RowInitialized(states[i])
    ensures states[j].row.None? || RowInitialized(states[j])
  {
    if i < j {
      InitializedNeverReverts(hash, states, moves, i, j - 1);
      RunInv(hash, states, moves, j - 1);
      StepInv(hash, states[j - 1], moves[j - 1]);
    }
  }

  ghost predicate Writes(hash: Spec -> string, s: State, m: Move, phase: Phase)
  {
    s.row.Some? && s.obj.Some? && exists c :: Sent(hash, s.obj.value, m) == Some(c) && StatusOf(c).phase == phase
  }

  /** In every run nothing sends Initializing once Initialized has been stored. */
  lemma InitializingComesFirst(hash: Spec -> string, states: seq<State>, moves: seq<Move>, i: nat, j: nat)
    requires Run(hash, states, moves) && i <= j < |moves|
    requires Writes(hash, states[j], moves[j], Initializing)
    ensures !RowInitialized(states[i])
  {
    RunInv(hash, states, moves, j);
    SentIsSound(hash, states[j], moves[j], Sent(hash, states[j].obj.value, moves[j]).value);
    if RowInitialized(states[i]) {
      InitializedNeverReverts(hash, states, moves, i, j);
    }
  }

  /** The effective spec of the last Running stored in the first `n` steps. */
  function LastRunning(states: seq<State>, moves: seq<Move>, n: nat): Option<Spec>
    requires n <= |moves| < |states|
  {
    if n == 0 then None
    else if StoresRunning(states[n - 1], moves[n - 1]) then Some(states[n - 1].obj.value.spec)
    else LastRunning(states, moves, n - 1)
  }

  lemma {:induction false} HistoryIsLastRunning(hash: Spec -> string, states: seq<State>, moves: seq<Move>, n: nat)
    requires Run(hash, states, moves) && n <= |moves|
    ensures states[n].ran == LastRunning(states, moves, n)
  {
    if n > 0 {
      HistoryIsLastRunning(hash, states, moves, n - 1);
    }
  }

  /** In every run the stored hash is empty if no Running was stored yet, and else
      the hash of the effective spec at the last one. */
  lemma ObservedHashIsLastRunning(hash: Spec -> string, states: seq<State>, moves: seq<Move>, n: nat)
    requires Run(hash, states, moves) && n <= |moves| && states[n].row.Some?
    ensures StatusOf(states[n].row.value).observedSpecHash
         == match LastRunning(states, moves, n) { case None => "" case Some(spec) => SpecHash(hash, spec) }
  {
    RunInv(hash, states, moves, n);
    HistoryIsLastRunning(hash, states, moves, n);
  }

  /** In every run Updating is sent only for a spec that differs from the one that
      last ran in more than its credentials. */
  lemma UpdatingMeansChanged(hash: Spec -> string, states: seq<State>, moves: seq<Move>, j: nat)
    requires Run(hash, states, moves) && j < |moves|
    requires Writes(hash, states[j], moves[j], Updating)
    ensures LastRunning(states, moves, j).Some?
    ensures !Rotated(LastRunning(states, moves, j).value, states[j].obj.value.spec)
  {
    RunInv(hash, states, moves, j);
    HistoryIsLastRunning(hash, states, moves, j);
    SentIsSound(hash, states[j], moves[j], Sent(hash, states[j].obj.value, moves[j]).value);
    CleanForgetsCredentialsOnly(states[j].ran.value, states[j].obj.value.spec);
  }

  /** In every run a reconcile that fails on an initialized cluster with nothing to upgrade
      sends Updating if the hash of its spec differs from that of the spec that last ran,
      and Failed if it does not. */
  lemma ChangedSpecIsUpdating(hash: Spec -> string, states: seq<State>, moves: seq<Move>, j: nat)
    requires Run(hash, states, moves) && j < |moves| && moves[j].Finish? && !moves[j].success
    requires states[j].row.Some? && Live(states[j].obj) && IsInitialized(states[j].obj.value)
    requires !NeedsVersionUpgrade(states[j].obj.value)
    ensures var ran := LastRunning(states, moves, j);
            var changed := ran.Some? && SpecHash(hash, ran.value) != ""
                           && SpecHash(hash, ran.value) != SpecHash(hash, states[j].obj.value.spec);
            Writes(hash, states[j], moves[j], if changed then Updating else Failed)
  {
    RunInv(hash, states, moves, j);
    HistoryIsLastRunning(hash, states, moves, j);
    PhaseIff(hash, false, states[j].obj.value);
    var sent := Sent(hash, states[j].obj.value, moves[j]);
    assert sent.Some?;
  }

  /** In every run, Running is sent only by a reconcile that succeeded, Upgrading is
      decided only when the reported version differs from the wanted one, and Deleted
      only when cleanup succeeded or was forced. */
  lemma PhasesAreEarned(hash: Spec -> string, states: seq<State>, moves: seq<Move>, j: nat)
    requires Run(hash, states, moves) && j < |moves|
    ensures Writes(hash, states[j], moves[j], Running) ==> ReportsRunning(states[j], moves[j])
    ensures Writes(hash, states[j], moves[j], Upgrading) && !moves[j].Progress? ==>
              NeedsVersionUpgrade(states[j].obj.value)
    ensures Writes(hash, states[j], moves[j], Deleted) && !moves[j].Progress? ==>
              moves[j].Finish? && states[j].obj.value.deleting && (moves[j].success || states[j].obj.value.force)
  {
    RunInv(hash, states, moves, j);
  }

  /** A deletion ends exactly with a reconcile that cleaned up or was forced to: once its
      status is stored, the next fetch leads to nothing but removal, and otherwise to
      another reconcile. */
  lemma DeletionIsRemoved(hash: Spec -> string, s: State, success: bool, version: string, again: bool, stored: bool)
    requires Enabled(s, Finish(success, true)) && s.obj.value.deleting && s.row.Some? && s.row.value.deleting
    ensures var closed := Do(hash, s, Finish(success, true));
            && Enabled(closed, Fetch(version))
            && var next := Do(hash, closed, Fetch(version));
               && (Enabled(next, Forget(true)) <==> success || s.obj.value.force)
               && (Enabled(next, Finish(again, stored)) <==> !success && !s.obj.value.force)
               && (Enabled(next, Forget(true)) ==>
                     Do(hash, next, Forget(true)).row.None? && Do(hash, next, Forget(false)).row == closed.row)
  {
  }

  /** Which moves a copy admits, seen from the copy: without one the row can only be
      fetched, a live copy admits every step of a reconcile, initialization only until
      it is over and success only after it, a copy being deleted the steps of a deletion,
      and one whose deletion is over its removal. */
  lemma MovesOfCopy(s: State, m: Move)
    requires !m.Edit? && !m.Mark?
    ensures Enabled(s, m) <==>
      if s.obj.None? then s.row.Some? && m.Fetch?
      else if !s.obj.value.deleting then
        || m.Early? || m.Recover? || m.Report? || m.Ready? || m.Progress?
        || (m.Begin? && !IsInitialized(s.obj.value))
        || (m.Finish? && (m.success ==> IsInitialized(s.obj.value)))
      else if s.obj.value.status.Some? && s.obj.value.status.value.phase == Deleted then m.Forget?
      else m.Progress? || m.EarlyDeleting? || m.Finish?
  {
  }

  /** Users may edit or delete the row at any time, and the next reconcile works on what
      they wrote and on the status as it was. */
  lemma UsersAreFree(hash: Spec -> string, s: State, spec: Spec, force: bool, version: string)
    requires s.row.Some?
    ensures Enabled(s, Edit(spec)) && Enabled(s, Mark(force))
    ensures s.obj.None? ==>
            var c := Do(hash, Do(hash, s, Edit(spec)), Fetch(version)).obj.value;
            && Clean(c.spec.(version := "")) == Clean(spec.(version := ""))
            && c.deleting == s.row.value.deleting && StatusOf(c).phase == StatusOf(s.row.value).phase
    ensures s.obj.None? ==>
            var c := Do(hash, Do(hash, s, Mark(force)), Fetch(version)).obj.value;
            c.deleting && c.force == force && StatusOf(c).phase == StatusOf(s.row.value).phase
  {
  }

  /** A cluster from before versions were tracked does not look like one in need of
      an upgrade: the backfill takes its present version. */
  lemma BackfillIsNoUpgrade(row: Cluster, defaultVersion: string)
    requires IsInitialized(row) && row.status.value.version == ""
    ensures !NeedsVersionUpgrade(Fetched(row, defaultVersion))
    ensures IsInitialized(Fetched(row, defaultVersion))
  {
  }

  /** One cluster's row in storage and the copy its reconcile works on. */
  class Controller {
    var row: Option<Cluster>
    var obj: Option<Cluster>
    ghost var ran: Option<Spec>

    ghost function Now(): State
      reads this
    {
      State(row, obj, ran)
    }

    method Store(stored: bool)
      requires obj.Some?
      modifies this`row
      ensures row == Write(old(row), obj, stored)
    {
      if stored && row.Some? {
        row := Some(row.value.(status := obj.value.status));
      }
    }

    method SetPhase(phase: Phase)
      requires obj.Some?
      modifies this`obj
      ensures obj == Some(WithPhase(old(obj.value), phase))
    {
      if obj.value.status.None? {
        obj := Some(obj.value.(status := Some(NO_STATUS)));
      }
      obj := Some(obj.value.(status := Some(obj.value.status.value.(phase := phase))));
    }

    method BeginSync(defaultVersion: string, hash: Spec -> string)
      requires Enabled(Now(), Fetch(defaultVersion))
      modifies this
      ensures Now() == Do(hash, old(Now()), Fetch(defaultVersion))
      ensures row == old(row) && obj.Some? && IsInitialized(obj.value) == IsInitialized(row.value)
      ensures StatusOf(obj.value).phase == StatusOf(row.value).phase
      ensures StatusOf(obj.value).observedSpecHash == StatusOf(row.value).observedSpecHash
      ensures obj.value.spec.version == (if row.value.spec.version == "" then defaultVersion else row.value.spec.version)
      ensures IsInitialized(obj.value) && obj.value.spec.version != "" ==> obj.value.status.value.version != ""
    {
      var c := row.value;
      if c.spec.version == "" {
        c := c.(spec := c.spec.(version := defaultVersion));
      }
      if IsInitialized(c) && c.status.value.version == "" {
        c := c.(status := Some(c.status.value.(version := c.spec.version)));
      }
      obj := Some(c);
    }

    method WriteEarlyStatus(hash: Spec -> string, stored: bool)
      requires Enabled(Now(), Early(stored))
      modifies this
      ensures Now() == Do(hash, old(Now()), Early(stored))
    {
      var phase := DeterminePhase(hash, false, obj.value);
      if phase != Initializing && phase != Updating && phase != Upgrading {
        return;
      }
      if obj.value.status.Some? && obj.value.status.value.phase == phase {
        return;
      }
      SetPhase(phase);
      Store(stored);
    }

    method WriteRecoveryStatus(hash: Spec -> string, stored: bool)
      requires Enabled(Now(), Recover(stored))
      modifies this
      ensures Now() == Do(hash, old(Now()), Recover(stored))
    {
      if obj.value.status.None? || obj.value.status.value.phase != Running {
        return;
      }
      SetPhase(Failed);
      Store(stored);
    }

    method WriteEarlyDeleting(hash: Spec -> string, stored: bool)
      requires Enabled(Now(), EarlyDeleting(stored))
      modifies this
      ensures Now() == Do(hash, old(Now()), EarlyDeleting(stored))
    {
      if obj.value.status.Some? && obj.value.status.value.phase == Deleting {
        return;
      }
      SetPhase(Deleting);
      Store(stored);
    }

    /** The start of initialization, before the head node is touched. */
    method Initialize(hash: Spec -> string, stored: bool)
      requires Enabled(Now(), Begin(stored))
      modifies this
      ensures Now() == Do(hash, old(Now()), Begin(stored))
      ensures obj.Some? && obj.value.status.Some? && !IsInitialized(obj.value)
      ensures obj.value.status.value.phase == Initializing && obj.value.spec == old(obj.value.spec)
      ensures StatusOf(obj.value).observedSpecHash == old(StatusOf(obj.value).observedSpecHash)
      ensures row.Some? ==> row.value.spec == old(row.value.spec) && (stored ==> row.value.status == obj.value.status)
    {
      SetPhase(Initializing);
      Store(stored);
    }

    method LogProgress(hash: Spec -> string, stored: bool)
      requires Enabled(Now(), Progress(stored))
      modifies this
      ensures Now() == Do(hash, old(Now()), Progress(stored))
    {
      if obj.value.status.None? {
        return;
      }
      if !obj.value.status.value.initialized || obj.value.status.value.phase == Upgrading {
        Store(stored);
      }
    }

    method UpdateStatus(phase: Phase, stored: bool)
      requires obj.Some?
      modifies this`row
      ensures row == Write(old(row), Some(WithPhase(obj.value, phase)), stored)
    {
      var status := Status(phase, false, "", "");
      if obj.value.status.Some? {
        var was := obj.value.status.value;
        status := status.(initialized := was.initialized, version := was.version, observedSpecHash := was.observedSpecHash);
      }
      if stored && row.Some? {
        row := Some(row.value.(status := Some(status)));
      }
    }

    method UpdateClusterStatus(hash: Spec -> string, success: bool, stored: bool)
      requires Enabled(Now(), Finish(success, stored))
      modifies this
      ensures Now() == Do(hash, old(Now()), Finish(success, stored))
    {
      ghost var before := Now();
      if obj.value.deleting {
        UpdateStatus(DetermineDeletePhase(success, obj.value), stored);
      } else {
        var phase := DeterminePhase(hash, success, obj.value);
        if phase == Running {
          if obj.value.status.None? {
            obj := Some(obj.value.(status := Some(NO_STATUS)));
          }
          obj := Some(obj.value.(status := Some(
            obj.value.status.value.(observedSpecHash := SpecHash(hash, obj.value.spec)))));
        }
        UpdateStatus(phase, stored);
      }
      if StoresRunning(before, Finish(success, stored)) {
        ran := Some(obj.value.spec);
      }
      obj := None;
    }
  }
}
