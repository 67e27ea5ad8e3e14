/** Any number of workers editing the application lists of any number of clusters
    (internal/orchestrator/ray_orchestrator.go: getClusterLock, createOrUpdate,
    deleteEndpoint), interleaved with the servers finishing teardowns. */
module RayProtocol {
  import opened Basics
  import opened RayApplications

  type Worker = nat
  type Mutex = nat

  /** Where a worker is in `createOrUpdate` or `deleteEndpoint`. */
  datatype Pc =
    | Waiting(cluster: string, mutex: Mutex, op: Op)
    | Locked(cluster: string, mutex: Mutex, op: Op)
    | Fetched(cluster: string, mutex: Mutex, op: Op, snapshot: Server)
    | Returning(cluster: string, mutex: Mutex, op: Op, ok: bool)

  /** `pcs` holds the busy workers, `log` the operations committed on each cluster. */
  datatype State = State(
    locks: map<string, Mutex>,
    holder: map<Mutex, Worker>,
    servers: map<string, Server>,
    pcs: map<Worker, Pc>,
    log: map<string, seq<Op>>)

  datatype Step =
    | Begin(w: Worker, cluster: string, mutex: Mutex, op: Op)
    | Acquire(w: Worker)
    | Get(w: Worker, ok: bool)
    | ConvertFails(w: Worker)
    | Commit(w: Worker, decision: Decision, delivered: bool, ok: bool)
    | Release(w: Worker)
    | Teardown(cluster: string, name: string)

  /** `sync.Map.LoadOrStore`: the stored mutex, or a new one nobody else has. */
  predicate LoadsOrStores(locks: map<string, Mutex>, cluster: string, mutex: Mutex)
  {
    if cluster in locks then locks[cluster] == mutex else mutex !in locks.Values
  }

  ghost predicate Enabled(s: State, step: Step)
  {
    match step
    case Begin(w, c, m, op) => w !in s.pcs && c in s.servers && c in s.log && LoadsOrStores(s.locks, c, m)
    case Acquire(w) => w in s.pcs && s.pcs[w].Waiting? && s.pcs[w].mutex !in s.holder
    case Get(w, _) => w in s.pcs && s.pcs[w].Locked? && s.pcs[w].cluster in s.servers
    case ConvertFails(w) => w in s.pcs && s.pcs[w].Fetched? && s.pcs[w].op.Upsert?
    case Commit(w, d, delivered, ok) =>
      && w in s.pcs && s.pcs[w].Fetched?
      && s.pcs[w].cluster in s.servers && s.pcs[w].cluster in s.log
      && Decides(s.pcs[w].snapshot, s.pcs[w].op, d)
      && (d.Skip? ==> delivered && ok)
      && (ok ==> delivered)
    case Release(w) => w in s.pcs && s.pcs[w].Returning?
    case Teardown(c, n) => c in s.servers && n in s.servers[c] && s.servers[c][n].None?
  }

  /** A PUT that fails may or may not have reached the server (`delivered`). */
  function Do(s: State, step: Step): State
    requires Enabled(s, step)
  {
    match step
    case Begin(w, c, m, op) => s.(locks := s.locks[c := m], pcs := s.pcs[w := Waiting(c, m, op)])
    case Acquire(w) =>
      var pc := s.pcs[w];
      s.(holder := s.holder[pc.mutex := w], pcs := s.pcs[w := Locked(pc.cluster, pc.mutex, pc.op)])
    case Get(w, ok) =>
      var pc := s.pcs[w];
      s.(pcs := s.pcs[w := if ok then Fetched(pc.cluster, pc.mutex, pc.op, s.servers[pc.cluster])
                           else Returning(pc.cluster, pc.mutex, pc.op, false)])
    case ConvertFails(w) =>
      var pc := s.pcs[w];
      s.(pcs := s.pcs[w := Returning(pc.cluster, pc.mutex, pc.op, false)])
    case Commit(w, d, delivered, ok) =>
      var pc := s.pcs[w];
      var next := s.(pcs := s.pcs[w := Returning(pc.cluster, pc.mutex, pc.op, ok)]);
      if !delivered then next else
        next.(log := s.log[pc.cluster := s.log[pc.cluster] + [pc.op]],
              servers := if d.Skip? then s.servers
                         else s.servers[pc.cluster := PutAll(s.servers[pc.cluster], d.apps)])
    case Release(w) => s.(holder := s.holder - {s.pcs[w].mutex}, pcs := s.pcs - {w})
    case Teardown(c, n) => s.(servers := s.servers[c := s.servers[c] - {n}])
  }

  // ----- invariants -----

  ghost predicate LocksAreApart(s: State)
  {
    forall c, d :: c in s.locks && d in s.locks && s.locks[c] == s.locks[d] ==> c == d
  }

  ghost predicate HoldersMatch(s: State)
  {
    && (forall w :: w in s.pcs ==> s.pcs[w].cluster in s.locks && s.locks[s.pcs[w].cluster] == s.pcs[w].mutex)
    && (forall w :: w in s.pcs && !s.pcs[w].Waiting? ==>
          s.pcs[w].mutex in s.holder && s.holder[s.pcs[w].mutex] == w)
    && (forall m :: m in s.holder ==>
          s.holder[m] in s.pcs && s.pcs[s.holder[m]].mutex == m && !s.pcs[s.holder[m]].Waiting?)
  }

  ghost predicate SnapshotsHold(s: State)
  {
    && (forall c :: c in s.servers ==> Keyed(s.servers[c]))
    && (forall w :: w in s.pcs ==> s.pcs[w].cluster in s.servers && s.pcs[w].cluster in s.log)
    && (forall w :: w in s.pcs && s.pcs[w].Fetched? ==>
          && Keyed(s.pcs[w].snapshot)
          && TargetOf(s.pcs[w].snapshot) == TargetOf(s.servers[s.pcs[w].cluster]))
  }

  /** A worker that returns success is the last to have committed. */
  ghost predicate SuccessIsCommitted(s: State)
  {
    forall w :: w in s.pcs && s.pcs[w].Returning? && s.pcs[w].ok ==>
      s.pcs[w].cluster in s.log && EndsWith(s.log[s.pcs[w].cluster], s.pcs[w].op)
  }

  predicate EndsWith(ops: seq<Op>, op: Op)
  {
    ops != [] && ops[|ops| - 1] == op
  }

  ghost predicate Linearized(s: State, first: map<string, Target>)
  {
    forall c :: c in s.servers ==>
      c in first && c in s.log && TargetOf(s.servers[c]) == Replay(first[c], s.log[c])
  }

  ghost predicate Inv(s: State, first: map<string, Target>)
  {
    && LocksAreApart(s)
    && HoldersMatch(s)
    && SnapshotsHold(s)
    && Linearized(s, first)
    && SuccessIsCommitted(s)
  }

  ghost predicate Init(s: State)
  {
    && s.locks == map[] && s.holder == map[] && s.pcs == map[]
    && (forall c :: c in s.servers ==> Keyed(s.servers[c]) && c in s.log && s.log[c] == [])
  }

  function Targets(s: State): map<string, Target>
  {
    map c | c in s.servers :: TargetOf(s.servers[c])
  }

  /** Two workers past `Lock` on one cluster would hold one mutex, so they are one. */
  lemma OneInside(s: State, w: Worker, v: Worker)
    requires HoldersMatch(s)
    requires w in s.pcs && v in s.pcs && !s.pcs[w].Waiting? && !s.pcs[v].Waiting?
    requires s.pcs[w].cluster == s.pcs[v].cluster
    ensures w == v
  {
  }

  lemma BeginKeepsLocks(s: State, step: Step)
    requires LocksAreApart(s) && HoldersMatch(s) && Enabled(s, step) && step.Begin?
    ensures LocksAreApart(Do(s, step)) && HoldersMatch(Do(s, step))
  {
    assert forall c :: c in s.locks ==> s.locks[c] in s.locks.Values;
  }

  lemma MutexKeepsLocks(s: State, step: Step)
    requires LocksAreApart(s) && HoldersMatch(s) && Enabled(s, step) && (step.Acquire? || step.Release?)
    ensures LocksAreApart(Do(s, step)) && HoldersMatch(Do(s, step))
  {
  }

  /** No lock changes hands and every worker stays on its side of its lock. */
  ghost predicate SameStanding(s: State, next: State)
  {
    && next.locks == s.locks && next.holder == s.holder && next.pcs.Keys == s.pcs.Keys
    && forall w :: w in s.pcs ==>
         && next.pcs[w].cluster == s.pcs[w].cluster
         && next.pcs[w].mutex == s.pcs[w].mutex
         && next.pcs[w].Waiting? == s.pcs[w].Waiting?
  }

  lemma WorkStands(s: State, step: Step)
    requires Enabled(s, step) && !step.Begin? && !step.Acquire? && !step.Release?
    ensures SameStanding(s, Do(s, step))
  {
  }

  lemma StandingKeepsLocks(s: State, next: State)
    requires LocksAreApart(s) && HoldersMatch(s) && SameStanding(s, next)
    ensures LocksAreApart(next) && HoldersMatch(next)
  {
  }

  lemma LockInvariant(s: State, step: Step)
    requires LocksAreApart(s) && HoldersMatch(s) && Enabled(s, step)
    ensures LocksAreApart(Do(s, step)) && HoldersMatch(Do(s, step))
  {
    if step.Begin? {
      BeginKeepsLocks(s, step);
    } else if step.Acquire? || step.Release? {
      MutexKeepsLocks(s, step);
    } else {
      WorkStands(s, step);
      StandingKeepsLocks(s, Do(s, step));
    }
  }

  lemma TeardownKeepsTarget(server: Server, n: string)
    requires n in server && server[n].None?
    ensures TargetOf(server - {n}) == TargetOf(server)
  {
  }

  predicate Commits(s: State, step: Step, c: string)
  {
    step.Commit? && step.delivered && step.w in s.pcs && s.pcs[step.w].cluster == c
  }

  /** One step moves a cluster's target by the committed operation or not at all. */
  lemma TargetAfter(s: State, step: Step, c: string)
    requires SnapshotsHold(s) && Enabled(s, step) && c in s.servers
    ensures c in Do(s, step).servers && Keyed(Do(s, step).servers[c])
    ensures TargetOf(Do(s, step).servers[c])
         == if Commits(s, step, c) then Apply(TargetOf(s.servers[c]), s.pcs[step.w].op)
            else TargetOf(s.servers[c])
  {
    if Commits(s, step, c) {
      DecisionCommits(s.pcs[step.w].snapshot, s.servers[c], s.pcs[step.w].op, step.decision);
    } else if step.Teardown? && step.cluster == c {
      TeardownKeepsTarget(s.servers[c], step.name);
    }
  }

  /** A snapshot taken under the lock stays true: only its holder could commit. */
  lemma SnapshotOf(s: State, step: Step, w: Worker)
    requires HoldersMatch(s) && SnapshotsHold(s) && Enabled(s, step)
    requires w in Do(s, step).pcs && Do(s, step).pcs[w].Fetched?
    ensures var next := Do(s, step);
            && Keyed(next.pcs[w].snapshot)
            && next.pcs[w].cluster in next.servers
            && TargetOf(next.pcs[w].snapshot) == TargetOf(next.servers[next.pcs[w].cluster])
  {
    var c := Do(s, step).pcs[w].cluster;
    TargetAfter(s, step, c);
    if Commits(s, step, c) {
      OneInside(s, step.w, w);
    }
  }

  lemma SnapshotInvariant(s: State, step: Step)
    requires HoldersMatch(s) && SnapshotsHold(s) && Enabled(s, step)
    ensures SnapshotsHold(Do(s, step))
  {
    var next := Do(s, step);
    assert next.servers.Keys == s.servers.Keys && s.log.Keys <= next.log.Keys;
    forall c | c in next.servers ensures Keyed(next.servers[c]) {
      TargetAfter(s, step, c);
    }
    forall w | w in next.pcs && next.pcs[w].Fetched?
      ensures Keyed(next.pcs[w].snapshot)
      ensures next.pcs[w].cluster in next.servers
      ensures TargetOf(next.pcs[w].snapshot) == TargetOf(next.servers[next.pcs[w].cluster])
    {
      SnapshotOf(s, step, w);
    }
  }

  lemma LogInvariant(s: State, step: Step, first: map<string, Target>)
    requires HoldersMatch(s) && SnapshotsHold(s) && Linearized(s, first) && Enabled(s, step)
    ensures Linearized(Do(s, step), first)
  {
    var next := Do(s, step);
    assert next.servers.Keys == s.servers.Keys;
    forall c | c in next.servers
      ensures c in first && c in next.log && TargetOf(next.servers[c]) == Replay(first[c], next.log[c])
    {
      TargetAfter(s, step, c);
      if Commits(s, step, c) {
        assert next.log[c][..|s.log[c]|] == s.log[c];
      }
    }
  }

  lemma SuccessInvariant(s: State, step: Step)
    requires HoldersMatch(s) && SuccessIsCommitted(s) && SnapshotsHold(s) && Enabled(s, step)
    ensures SuccessIsCommitted(Do(s, step))
  {
    var next := Do(s, step);
    forall w | w in next.pcs && next.pcs[w].Returning? && next.pcs[w].ok
      ensures next.pcs[w].cluster in next.log && EndsWith(next.log[next.pcs[w].cluster], next.pcs[w].op)
    {
      if Commits(s, step, next.pcs[w].cluster) {
        OneInside(s, step.w, w);
      }
    }
  }

  lemma StepInvariant(s: State, step: Step, first: map<string, Target>)
    requires Inv(s, first) && Enabled(s, step)
    ensures Inv(Do(s, step), first)
  {
    LockInvariant(s, step);
    SnapshotInvariant(s, step);
    LogInvariant(s, step, first);
    SuccessInvariant(s, step);
  }

  // ----- whole runs -----

  /** `s` runs through `steps` to the result. */
  ghost predicate Runs(s: State, steps: seq<Step>, last: State)
    decreases |steps|
  {
    if steps == [] then last == s
    else Enabled(s, steps[0]) && Runs(Do(s, steps[0]), steps[1..], last)
  }

  lemma {:induction false} RunInvariant(s: State, steps: seq<Step>, last: State, first: map<string, Target>)
    requires Inv(s, first) && Runs(s, steps, last)
    ensures Inv(last, first)
    decreases |steps|
  {
    if steps != [] {
      StepInvariant(s, steps[0], first);
      RunInvariant(Do(s, steps[0]), steps[1..], last, first);
    }
  }

  // ----- no deadlock -----

  function CallsLeft(pc: Pc): nat
  {
    match pc
    case Waiting(_, _, _) => 4
    case Locked(_, _, _) => 3
    case Fetched(_, _, _, _) => 2
    case Returning(_, _, _, _) => 1
  }

  /** What a call of `w` leaves: one call less to make, and its operation logged once it
      has made its decision. */
  ghost predicate Advances(s: State, w: Worker, next: State)
  {
    && w in s.pcs && next.pcs - {w} == s.pcs - {w} && s.pcs[w].cluster in s.log
    && if s.pcs[w].Returning? then w !in next.pcs && s.pcs[w].mutex !in next.holder && next.log == s.log
       else
         && w in next.pcs && !next.pcs[w].Waiting? && CallsLeft(next.pcs[w]) == CallsLeft(s.pcs[w]) - 1
         && next.pcs[w].cluster == s.pcs[w].cluster && next.pcs[w].mutex == s.pcs[w].mutex
         && next.pcs[w].op == s.pcs[w].op
         && next.log == if s.pcs[w].Fetched? then s.log[s.pcs[w].cluster := s.log[s.pcs[w].cluster] + [s.pcs[w].op]]
                        else s.log
  }

  /** The next call of a worker that nobody keeps out, with nothing failing. */
  lemma NextCall(s: State, w: Worker, first: map<string, Target>) returns (step: Step)
    requires Inv(s, first) && w in s.pcs && (s.pcs[w].Waiting? ==> s.pcs[w].mutex !in s.holder)
    ensures Enabled(s, step) && Advances(s, w, Do(s, step))
  {
    match s.pcs[w]
    case Waiting(_, _, _) => step := Acquire(w);
    case Locked(_, _, _) => step := Get(w, true);
    case Fetched(_, _, op, snapshot) =>
      var d := SomeDecision(snapshot, op);
      step := Commit(w, d, true, true);
    case Returning(_, _, _, _) => step := Release(w);
  }

  lemma MakesCall(s: State, w: Worker, first: map<string, Target>) returns (step: Step, next: State)
    requires Inv(s, first) && w in s.pcs && (s.pcs[w].Waiting? ==> s.pcs[w].mutex !in s.holder)
    ensures Runs(s, [step], next) && Inv(next, first) && Advances(s, w, next)
  {
    step := NextCall(s, w, first);
    next := Do(s, step);
    StepInvariant(s, step, first);
    assert Runs(next, [], next) && [step][1..] == [];
  }

  /** `w` is through, and its operation committed if it was not decided before. */
  ghost predicate Through(s: State, w: Worker, last: State)
  {
    && w in s.pcs && last.pcs == s.pcs - {w} && s.pcs[w].mutex !in last.holder && s.pcs[w].cluster in last.log
    && if s.pcs[w].Returning? then last.log == s.log else EndsWith(last.log[s.pcs[w].cluster], s.pcs[w].op)
  }

  lemma AdvancesThrough(s: State, w: Worker, next: State, last: State)
    requires Advances(s, w, next) && (if s.pcs[w].Returning? then last == next else Through(next, w, last))
    ensures Through(s, w, last)
  {
  }

  /** A worker that nobody keeps out can return, having committed its operation. */
  lemma {:induction false} CanFinish(s: State, w: Worker, first: map<string, Target>)
    returns (steps: seq<Step>, last: State)
    requires Inv(s, first) && w in s.pcs && (s.pcs[w].Waiting? ==> s.pcs[w].mutex !in s.holder)
    ensures Runs(s, steps, last) && Inv(last, first) && Through(s, w, last)
    decreases CallsLeft(s.pcs[w])
  {
    var step, next := MakesCall(s, w, first);
    if s.pcs[w].Returning? {
      steps, last := [step], next;
    } else {
      var rest;
      rest, last := CanFinish(next, w, first);
      steps := [step] + rest;
      RunsOn(s, [step], next, rest, last);
    }
    AdvancesThrough(s, w, next, last);
  }

  lemma {:induction false} RunsOn(s: State, steps: seq<Step>, mid: State, more: seq<Step>, last: State)
    requires Runs(s, steps, mid) && Runs(mid, more, last)
    ensures Runs(s, steps + more, last)
    decreases |steps|
  {
    if steps == [] {
      assert steps + more == more;
    } else {
      RunsOn(Do(s, steps[0]), steps[1..], mid, more, last);
      assert (steps + more)[1..] == steps[1..] + more;
    }
  }

  /** The mutexes never block for good: from every state of every run, each operation under
      way can still be brought to its end, committed unless it has already been decided. */
  lemma NoDeadlock(s: State, steps: seq<Step>, now: State, w: Worker)
    requires Init(s) && Runs(s, steps, now) && w in now.pcs
    ensures exists more, last ::
      && Runs(now, more, last) && w !in last.pcs && now.pcs[w].cluster in last.log
      && (now.pcs[w].Returning? || EndsWith(last.log[now.pcs[w].cluster], now.pcs[w].op))
  {
    RunInvariant(s, steps, now, Targets(s));
    var more, last := GetsThrough(now, w, Targets(s));
  }

  lemma GetsThrough(now: State, w: Worker, first: map<string, Target>) returns (more: seq<Step>, last: State)
    requires Inv(now, first) && w in now.pcs
    ensures Runs(now, more, last) && w !in last.pcs && now.pcs[w].cluster in last.log
    ensures now.pcs[w].Returning? || EndsWith(last.log[now.pcs[w].cluster], now.pcs[w].op)
  {
    var m := now.pcs[w].mutex;
    if now.pcs[w].Waiting? && m in now.holder {
      var v := now.holder[m];
      var before, free := CanFinish(now, v, first);
      assert free.pcs[w] == now.pcs[w];
      var after;
      after, last := CanFinish(free, w, first);
      more := before + after;
      RunsOn(now, before, free, after, last);
    } else {
      more, last := CanFinish(now, w, first);
    }
  }

  // ----- one operation on its own -----

  /** The calls one operation makes when nobody interferes. */
  function Calls(w: Worker, c: string, m: Mutex, op: Op, d: Decision, fault: Fault): seq<Step>
  {
    [Begin(w, c, m, op), Acquire(w)]
    + (if fault == GetFails then [Get(w, false)]
       else if fault == Fault.ConvertFails && op.Upsert? then [Get(w, true), Step.ConvertFails(w)]
       else [Get(w, true), Commit(w, d, Delivers(op, d, fault), Succeeds(op, d, fault))])
    + [Release(w)]
  }

  /** `s` after an operation that leaves the server as a dashboard call does and is logged
      exactly if it was delivered. */
  function Resting(s: State, c: string, m: Mutex, op: Op, d: Decision, delivered: bool): State
    requires c in s.servers && c in s.log
  {
    State(s.locks[c := m], s.holder, s.servers[c := Outcome(s.servers[c], d, delivered)], s.pcs,
          if delivered then s.log[c := s.log[c] + [op]] else s.log)
  }

  /** `CreateOrUpdate` and `DeleteEndpoint` of a dashboard are runs of this machine: with
      the mutex free an operation gets through whichever call fails, does what they do and
      gives the mutex back. */
  lemma OperationIsRun(s: State, w: Worker, c: string, m: Mutex, op: Op, d: Decision, fault: Fault)
    requires w !in s.pcs && c in s.servers && c in s.log && LoadsOrStores(s.locks, c, m) && m !in s.holder
    requires Decides(s.servers[c], op, d)
    ensures Runs(s, Calls(w, c, m, op, d, fault), Resting(s, c, m, op, d, Delivers(op, d, fault)))
  {
    var steps := Calls(w, c, m, op, d, fault);
    LockedFinishes(s, w, c, m, op, d, fault);
    var begun := Do(s, steps[0]);
    assert Enabled(begun, steps[1]);
    assert begun.pcs[w := Locked(c, m, op)] == s.pcs[w := Locked(c, m, op)];
    assert Do(begun, steps[1]) == Inside(s, w, c, m, Locked(c, m, op));
    assert steps[1..][1..] == steps[2..];
    assert Runs(begun, steps[1..], Resting(s, c, m, op, d, Delivers(op, d, fault)));
  }

  /** `s` with `w` past its lock. */
  function Inside(s: State, w: Worker, c: string, m: Mutex, pc: Pc): State
  {
    s.(locks := s.locks[c := m], holder := s.holder[m := w], pcs := s.pcs[w := pc])
  }

  lemma LockedFinishes(s: State, w: Worker, c: string, m: Mutex, op: Op, d: Decision, fault: Fault)
    requires w !in s.pcs && c in s.servers && c in s.log && m !in s.holder
    requires Decides(s.servers[c], op, d)
    ensures Runs(Inside(s, w, c, m, Locked(c, m, op)), Calls(w, c, m, op, d, fault)[2..],
                 Resting(s, c, m, op, d, Delivers(op, d, fault)))
  {
    var rest := Calls(w, c, m, op, d, fault)[2..];
    var last := Resting(s, c, m, op, d, Delivers(op, d, fault));
    var locked := Inside(s, w, c, m, Locked(c, m, op));
    if fault == GetFails {
      assert rest[0] == Get(w, false) && rest[1..] == [Release(w)];
      GivesUp(s, w, c, m, op, d);
      assert Do(locked, rest[0]) == Inside(s, w, c, m, Returning(c, m, op, false));
    } else {
      var fetched := Inside(s, w, c, m, Fetched(c, m, op, s.servers[c]));
      assert rest[0] == Get(w, true) && Do(locked, rest[0]) == fetched;
      if fault == Fault.ConvertFails && op.Upsert? {
        assert rest[1..] == [Step.ConvertFails(w), Release(w)];
        ConversionFails(s, w, c, m, op, d);
      } else {
        assert rest[1..] == [Commit(w, d, Delivers(op, d, fault), Succeeds(op, d, fault)), Release(w)];
        FetchedFinishes(s, w, c, m, op, d, fault);
      }
    }
  }

  lemma GivesUp(s: State, w: Worker, c: string, m: Mutex, op: Op, d: Decision)
    requires w !in s.pcs && c in s.servers && c in s.log && m !in s.holder
    ensures Runs(Inside(s, w, c, m, Returning(c, m, op, false)), [Release(w)], Resting(s, c, m, op, d, false))
  {
    var returning := Inside(s, w, c, m, Returning(c, m, op, false));
    assert returning.servers == Resting(s, c, m, op, d, false).servers;
    ReleaseEnds(s, returning, w, c, m, op, false, Resting(s, c, m, op, d, false));
  }

  lemma ConversionFails(s: State, w: Worker, c: string, m: Mutex, op: Op, d: Decision)
    requires w !in s.pcs && c in s.servers && c in s.log && m !in s.holder && op.Upsert?
    ensures Runs(Inside(s, w, c, m, Fetched(c, m, op, s.servers[c])), [Step.ConvertFails(w), Release(w)],
                 Resting(s, c, m, op, d, false))
  {
    GivesUp(s, w, c, m, op, d);
    var fetched := Inside(s, w, c, m, Fetched(c, m, op, s.servers[c]));
    assert Do(fetched, Step.ConvertFails(w)) == Inside(s, w, c, m, Returning(c, m, op, false));
    assert [Step.ConvertFails(w), Release(w)][1..] == [Release(w)];
  }

  lemma FetchedFinishes(s: State, w: Worker, c: string, m: Mutex, op: Op, d: Decision, fault: Fault)
    requires w !in s.pcs && c in s.servers && c in s.log && m !in s.holder
    requires Decides(s.servers[c], op, d) && fault != GetFails && !(fault == Fault.ConvertFails && op.Upsert?)
    ensures Runs(Inside(s, w, c, m, Fetched(c, m, op, s.servers[c])),
                 [Commit(w, d, Delivers(op, d, fault), Succeeds(op, d, fault)), Release(w)],
                 Resting(s, c, m, op, d, Delivers(op, d, fault)))
  {
    var commit := Commit(w, d, Delivers(op, d, fault), Succeeds(op, d, fault));
    var fetched := Inside(s, w, c, m, Fetched(c, m, op, s.servers[c]));
    var last := Resting(s, c, m, op, d, Delivers(op, d, fault));
    var returning := Do(fetched, commit);
    assert returning.servers == last.servers;
    assert returning.pcs - {w} == s.pcs;
    ReleaseEnds(s, returning, w, c, m, op, Succeeds(op, d, fault), last);
    assert [commit, Release(w)][1..] == [Release(w)];
  }

  lemma ReleaseEnds(s: State, returning: State, w: Worker, c: string, m: Mutex, op: Op, ok: bool, last: State)
    requires w !in s.pcs && m !in s.holder && returning.locks == last.locks
    requires returning.holder == s.holder[m := w] && last.holder == s.holder
    requires returning.servers == last.servers && returning.log == last.log
    requires w in returning.pcs && returning.pcs[w] == Returning(c, m, op, ok)
    requires returning.pcs - {w} == s.pcs == last.pcs
    ensures Runs(returning, [Release(w)], last)
  {
    assert s.holder[m := w] - {m} == s.holder;
    assert Do(returning, Release(w)) == last;
    assert Runs(last, [], last);
    assert [Release(w)][1..] == [];
  }

  /** No update is lost: after any interleaving, each server's target is its first
      target with the committed operations applied one at a time, in commit order. */
  lemma NoLostUpdate(s: State, steps: seq<Step>, last: State, c: string)
    requires Init(s) && Runs(s, steps, last) && c in last.servers
    ensures c in s.servers && c in last.log
    ensures TargetOf(last.servers[c]) == Replay(TargetOf(s.servers[c]), last.log[c])
  {
    RunInvariant(s, steps, last, Targets(s));
  }

  /** An operation that returns success is in force when it returns: nothing was
      committed on its cluster after it. */
  lemma SuccessIsInForce(s: State, steps: seq<Step>, last: State, w: Worker)
    requires Init(s) && Runs(s, steps, last)
    requires w in last.pcs && last.pcs[w].Returning? && last.pcs[w].ok
    ensures last.pcs[w].cluster in last.servers
    ensures var now := TargetOf(last.servers[last.pcs[w].cluster]);
            match last.pcs[w].op
            case Upsert(app) => app.name in now && now[app.name] == app
            case Remove(name) => name !in now
  {
    RunInvariant(s, steps, last, Targets(s));
  }

  function Lookup(t: Target, n: string): Option<App>
  {
    if n in t then Some(t[n]) else None
  }

  lemma StepTouchesOwnName(s: State, step: Step, c: string, n: string)
    requires SnapshotsHold(s) && Enabled(s, step) && c in s.servers
    requires Commits(s, step, c) ==> OpName(s.pcs[step.w].op) != n
    ensures c in Do(s, step).servers
    ensures Lookup(TargetOf(Do(s, step).servers[c]), n) == Lookup(TargetOf(s.servers[c]), n)
  {
    TargetAfter(s, step, c);
  }

  /** No operation changes another endpoint's config: over any stretch of a run in
      which nothing is committed under name `n` on cluster `c`, what the server is
      asked to run under that name stays the same. */
  lemma {:induction false} OthersUntouched(s: State, steps: seq<Step>, last: State,
                                           first: map<string, Target>, c: string, n: string)
    requires Inv(s, first) && Runs(s, steps, last) && c in s.servers
    requires NeverNames(s, steps, c, n)
    ensures c in last.servers && Lookup(TargetOf(last.servers[c]), n) == Lookup(TargetOf(s.servers[c]), n)
    decreases |steps|
  {
    if steps != [] {
      StepTouchesOwnName(s, steps[0], c, n);
      StepInvariant(s, steps[0], first);
      OthersUntouched(Do(s, steps[0]), steps[1..], last, first, c, n);
    }
  }

  ghost predicate NeverNames(s: State, steps: seq<Step>, c: string, n: string)
    decreases |steps|
  {
    steps != [] && Enabled(s, steps[0]) ==>
      && (Commits(s, steps[0], c) ==> OpName(s.pcs[steps[0].w].op) != n)
      && NeverNames(Do(s, steps[0]), steps[1..], c, n)
  }

  /** Without the mutex the protocol loses updates: two operations that fetched the
      same list leave only the second one in force. */
  lemma StaleSnapshotLosesUpdate(fetched: Server, a: App, b: App, first: Decision, second: Decision)
    requires Keyed(fetched) && a.name != b.name && a.name !in fetched && b.name !in fetched
    requires Decides(fetched, Upsert(a), first) && Decides(fetched, Upsert(b), second)
    ensures first.Put? && second.Put?
    ensures TargetOf(PutAll(PutAll(fetched, first.apps), second.apps)) == TargetOf(fetched)[b.name := b]
    ensures a.name !in TargetOf(PutAll(PutAll(fetched, first.apps), second.apps))
  {
    PutTarget(PutAll(fetched, first.apps), second.apps, Apply(TargetOf(fetched), Upsert(b)));
  }
}
