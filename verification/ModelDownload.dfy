/** Reading a model's download state from the logs of its backend replicas
    (internal/orchestrator/ray_orchestrator.go: modelDownloadStateFromLog,
    isBackendDeployment, inspectRayModelDownloadLogs). */
module ModelDownload {
  import opened Basics

  datatype Marker = NoMarker | InProgress | Done | Failed

  datatype Replica = Replica(id: string, actor: string)

  datatype Health = Healthy | Unhealthy | OtherHealth

  datatype Deployment = Deployment(name: string, health: Health, replicas: seq<Replica>)

  type Deployments = map<string, Deployment>

  /** The log of an actor by suffix, `None` when it cannot be read. */
  type Logs = (string, string) -> Option<string>

  const START_MARKER := "NEUTREE_MODEL_DOWNLOAD_START"
  const DONE_MARKER := "NEUTREE_MODEL_DOWNLOAD_DONE"
  const FAILED_MARKER := "NEUTREE_MODEL_DOWNLOAD_FAILED"
  const LEGACY_DONE_MARKER := "Model download completed."

  predicate Contains(text: string, part: string)
  {
    exists i :: 0 <= i <= |text| && part <= text[i..]
  }

  function FromLog(text: string): Marker
  {
    if Contains(text, FAILED_MARKER) then Failed
    else if Contains(text, DONE_MARKER) || Contains(text, LEGACY_DONE_MARKER) then Done
    else if Contains(text, START_MARKER) then InProgress
    else NoMarker
  }

  /** A text contains a part if and only if the part stands somewhere in it. */
  lemma ContainsIff(text: string, part: string)
    ensures Contains(text, part) <==> exists before, after :: text == before + part + after
  {
    if Contains(text, part) {
      var i :| 0 <= i <= |text| && part <= text[i..];
      assert text == text[..i] + part + text[i + |part|..];
    }
    if before, after :| text == before + part + after {
      assert part <= text[|before|..];
    }
  }

  /** A failure anywhere in a log decides it. */
  lemma FailureWins(before: string, after: string)
    ensures FromLog(before + FAILED_MARKER + after) == Failed
  {
    ContainsIff(before + FAILED_MARKER + after, FAILED_MARKER);
  }

  /** Without a failure, a completion of either wording decides it, started or not. */
  lemma CompletionDecides(before: string, wording: string, after: string)
    requires wording == DONE_MARKER || wording == LEGACY_DONE_MARKER
    requires !Contains(before + wording + after, FAILED_MARKER)
    ensures FromLog(before + wording + after) == Done
  {
    ContainsIff(before + wording + after, wording);
  }

  /** A download that started and neither failed nor completed is in progress. */
  lemma StartedIsInProgress(before: string, after: string)
    requires var text := before + START_MARKER + after;
             !Contains(text, FAILED_MARKER) && !Contains(text, DONE_MARKER) && !Contains(text, LEGACY_DONE_MARKER)
    ensures FromLog(before + START_MARKER + after) == InProgress
  {
    ContainsIff(before + START_MARKER + after, START_MARKER);
  }

  lemma NoMarkerWithoutText(text: string)
    requires forall part :: part in {START_MARKER, DONE_MARKER, FAILED_MARKER, LEGACY_DONE_MARKER} ==> !Contains(text, part)
    ensures FromLog(text) == NoMarker
  {
  }

  /** Simple case folding onto the letters of "backend"; the Kelvin sign folds to k. */
  function Fold(c: char): char
  {
    if 'A' <= c <= 'Z' then c - 'A' + 'a' else if c == '\U{212A}' then 'k' else c
  }

  predicate IsBackend(name: string)
  {
    seq(|name|, i requires 0 <= i < |name| => Fold(name[i])) == "backend"
  }

  /** A name is the backend's exactly if it spells it in letters of either case. */
  lemma IsBackendIff(name: string)
    ensures IsBackend(name) <==>
      && |name| == 7
      && name[0] in {'b', 'B'} && name[1] in {'a', 'A'} && name[2] in {'c', 'C'} && name[3] in {'k', 'K', '\U{212A}'}
      && name[4] in {'e', 'E'} && name[5] in {'n', 'N'} && name[6] in {'d', 'D'}
  {
    var folded := seq(|name|, i requires 0 <= i < |name| => Fold(name[i]));
    assert "backend" == ['b', 'a', 'c', 'k', 'e', 'n', 'd'];
    if |name| == 7 {
      assert folded == [Fold(name[0]), Fold(name[1]), Fold(name[2]), Fold(name[3]), Fold(name[4]), Fold(name[5]), Fold(name[6])];
      FoldsTo(name[0], 'b');
      FoldsTo(name[1], 'a');
      FoldsTo(name[2], 'c');
      FoldsTo(name[3], 'k');
      FoldsTo(name[4], 'e');
      FoldsTo(name[5], 'n');
      FoldsTo(name[6], 'd');
    }
  }

  lemma FoldsTo(c: char, lower: char)
    requires 'a' <= lower <= 'z'
    ensures Fold(c) == lower <==> c == lower || c == lower - 'a' + 'A' || (lower == 'k' && c == '\U{212A}')
  {
  }

  predicate BackendAt(deps: Deployments, key: string)
    requires key in deps
  {
    IsBackend(if deps[key].name == "" then key else deps[key].name)
  }

  // ----- what the logs say, with no order in sight -----

  function LogMarker(r: Replica, logs: Logs, suffix: string): Option<Marker>
  {
    match logs(r.actor, suffix)
    case None => None
    case Some(text) => Some(FromLog(text))
  }

  ghost predicate Reads(r: Replica, logs: Logs, m: Marker)
  {
    r.actor != "" && (LogMarker(r, logs, "out") == Some(m) || LogMarker(r, logs, "err") == Some(m))
  }

  ghost predicate Unreadable(r: Replica, logs: Logs)
  {
    r.actor != "" && (LogMarker(r, logs, "out") == None || LogMarker(r, logs, "err") == None)
  }

  /** One replica's marker: a failure in either log wins, then a completion. */
  ghost function ReplicaMarker(r: Replica, logs: Logs): Marker
  {
    if Reads(r, logs, Failed) then Failed
    else if Reads(r, logs, Done) then Done
    else if Reads(r, logs, InProgress) then InProgress
    else NoMarker
  }

  ghost predicate SomeIn(rs: seq<Replica>, logs: Logs, m: Marker)
  {
    exists r :: r in rs && ReplicaMarker(r, logs) == m
  }

  ghost predicate SomeReplica(d: Deployment, logs: Logs, m: Marker)
  {
    SomeIn(d.replicas, logs, m)
  }

  ghost predicate SomeBackend(deps: Deployments, logs: Logs, m: Marker)
  {
    exists key :: key in deps && BackendAt(deps, key) && SomeReplica(deps[key], logs, m)
  }

  ghost predicate SomeUnreadable(deps: Deployments, logs: Logs)
  {
    exists key :: key in deps && BackendAt(deps, key) && UnreadableIn(deps[key].replicas, logs)
  }

  ghost predicate UnreadableIn(rs: seq<Replica>, logs: Logs)
  {
    exists r :: r in rs && Unreadable(r, logs)
  }

  ghost predicate SomeIdle(deps: Deployments)
  {
    exists key :: key in deps && BackendAt(deps, key) && deps[key].replicas == []
  }

  ghost function Verdict(deps: Deployments, logs: Logs): Marker
  {
    if SomeBackend(deps, logs, Failed) then Failed
    else if SomeBackend(deps, logs, InProgress) then InProgress
    else if SomeBackend(deps, logs, NoMarker) || SomeIdle(deps) then NoMarker
    else if SomeBackend(deps, logs, Done) then Done
    else NoMarker
  }

  /** Done means: there is a backend replica, every backend deployment has replicas,
      and every backend replica has an actor, a completion in a readable log and no
      failure in one. */
  lemma DoneExactly(deps: Deployments, logs: Logs)
    ensures Verdict(deps, logs) == Done <==>
      && (exists key :: key in deps && BackendAt(deps, key))
      && (forall key :: key in deps && BackendAt(deps, key) ==>
            && deps[key].replicas != []
            && forall r :: r in deps[key].replicas ==>
                 r.actor != "" && Reads(r, logs, Done) && !Reads(r, logs, Failed))
  {
    forall key, r | key in deps && BackendAt(deps, key) && r in deps[key].replicas
      ensures SomeReplica(deps[key], logs, ReplicaMarker(r, logs))
    {
    }
    if exists key :: key in deps && BackendAt(deps, key) {
      var key :| key in deps && BackendAt(deps, key);
      if deps[key].replicas != [] {
        assert deps[key].replicas[0] in deps[key].replicas;
      }
    }
  }

  // ----- the loops -----

  /** Both logs of one replica. */
  method InspectReplica(r: Replica, logs: Logs) returns (state: Marker, unreadable: bool)
    requires r.actor != ""
    ensures state == ReplicaMarker(r, logs)
    ensures state != Failed ==> (unreadable <==> Unreadable(r, logs))
  {
    var suffixes := ["out", "err"];
    state, unreadable := NoMarker, false;
    for i := 0 to 2
      invariant state != Failed
      invariant i == 0 ==> state == NoMarker && !unreadable
      invariant i == 1 ==> state == LogMarker(r, logs, "out").GetOr(NoMarker)
      invariant i == 1 ==> (unreadable <==> LogMarker(r, logs, "out") == None)
      invariant i == 2 ==> state == ReplicaMarker(r, logs) && (unreadable <==> Unreadable(r, logs))
    {
      var marker := LogMarker(r, logs, suffixes[i]);
      match marker
      case None =>
        unreadable := true;
      case Some(Failed) =>
        return Failed, unreadable;
      case Some(Done) =>
        state := Done;
      case Some(InProgress) =>
        if state != Done {
          state := InProgress;
        }
      case Some(NoMarker) =>
    }
  }

  datatype Seen = Seen(done: bool, inProgress: bool, unknown: bool, unreadable: bool)

  /** `seen` records exactly what `before` did and what the replicas `rs` show. */
  ghost predicate Records(seen: Seen, before: Seen, rs: seq<Replica>, logs: Logs)
  {
    && (seen.done <==> before.done || SomeIn(rs, logs, Done))
    && (seen.inProgress <==> before.inProgress || SomeIn(rs, logs, InProgress))
    && (seen.unknown <==> before.unknown || SomeIn(rs, logs, NoMarker))
    && (seen.unreadable <==> before.unreadable || UnreadableIn(rs, logs))
  }

  function Note(seen: Seen, state: Marker, unreadable: bool): Seen
  {
    Seen(seen.done || state == Done, seen.inProgress || state == InProgress,
         seen.unknown || state == NoMarker, seen.unreadable || unreadable)
  }

  lemma RecordsNext(seen: Seen, before: Seen, rs: seq<Replica>, r: Replica, logs: Logs)
    requires Records(seen, before, rs, logs) && !SomeIn(rs, logs, Failed) && ReplicaMarker(r, logs) != Failed
    ensures !SomeIn(rs + [r], logs, Failed)
    ensures Records(Note(seen, ReplicaMarker(r, logs), Unreadable(r, logs)), before, rs + [r], logs)
  {
    forall m ensures SomeIn(rs + [r], logs, m) <==> SomeIn(rs, logs, m) || ReplicaMarker(r, logs) == m {
      if SomeIn(rs, logs, m) {
        var q :| q in rs && ReplicaMarker(q, logs) == m;
        assert q in rs + [r];
      }
      assert r in rs + [r];
    }
    if UnreadableIn(rs, logs) {
      var q :| q in rs && Unreadable(q, logs);
      assert q in rs + [r];
    }
    assert r in rs + [r];
  }

  /** The replicas of one backend deployment; stops at the first failure. */
  method InspectDeployment(d: Deployment, logs: Logs, before: Seen) returns (failed: bool, seen: Seen)
    ensures failed <==> SomeReplica(d, logs, Failed)
    ensures !failed ==> Records(seen, before, d.replicas, logs)
  {
    seen := before;
    for i := 0 to |d.replicas|
      invariant !SomeIn(d.replicas[..i], logs, Failed)
      invariant Records(seen, before, d.replicas[..i], logs)
    {
      var r := d.replicas[i];
      assert d.replicas[..i + 1] == d.replicas[..i] + [r];
      var state, unreadable := NoMarker, false;
      if r.actor != "" {
        state, unreadable := InspectReplica(r, logs);
        if state == Failed {
          return true, seen;
        }
      }
      RecordsNext(seen, before, d.replicas[..i], r, logs);
      seen := Note(seen, state, unreadable);
    }
    assert d.replicas[..|d.replicas|] == d.replicas;
    failed := false;
  }

  /** `inspectRayModelDownloadLogs`, visiting the deployments in any order: the state
      is `Verdict`, and an error accompanies it exactly when nothing is known and some
      log could not be read. */
  method Inspect(deps: Deployments, logs: Logs) returns (state: Marker, readError: bool)
    ensures state == Verdict(deps, logs)
    ensures readError <==> state == NoMarker && SomeUnreadable(deps, logs)
  {
    var seen := Seen(false, false, false, false);
    var idle := false;
    var todo := deps.Keys;
    ghost var visited: Deployments := map[];
    while todo != {}
      invariant todo <= deps.Keys && visited.Keys == deps.Keys - todo
      invariant forall key :: key in visited ==> visited[key] == deps[key]
      invariant Knows(visited, logs, seen, idle)
      decreases todo
    {
      var key :| key in todo;
      var d := deps[key];
      ghost var before := visited;
      todo := todo - {key};
      visited := visited[key := d];
      if !IsBackend(if d.name == "" then key else d.name) {
        KnowsPassedOver(before, key, d, logs, seen, idle);
        continue;
      }
      if d.replicas == [] {
        KnowsIdle(before, key, d, logs, seen, idle);
        idle := true;
        continue;
      }
      var failed, seen' := InspectDeployment(d, logs, seen);
      if failed {
        assert SomeBackend(deps, logs, Failed);
        return Failed, false;
      }
      KnowsReplicas(before, key, d, logs, seen, idle, seen');
      seen := seen';
    }
    assert visited == deps;
    if seen.inProgress {
      return InProgress, false;
    }
    if seen.unknown || idle {
      return NoMarker, seen.unreadable;
    }
    if seen.done {
      return Done, false;
    }
    return NoMarker, seen.unreadable;
  }

  /** `seen` and `idle` say all there is to say about deployments without failure. */
  ghost predicate Knows(deps: Deployments, logs: Logs, seen: Seen, idle: bool)
  {
    && !SomeBackend(deps, logs, Failed)
    && (seen.done <==> SomeBackend(deps, logs, Done))
    && (seen.inProgress <==> SomeBackend(deps, logs, InProgress))
    && (seen.unknown <==> SomeBackend(deps, logs, NoMarker))
    && (seen.unreadable <==> SomeUnreadable(deps, logs))
    && (idle <==> SomeIdle(deps))
  }

  lemma KnowsPassedOver(deps: Deployments, key: string, d: Deployment, logs: Logs, seen: Seen, idle: bool)
    requires Knows(deps, logs, seen, idle) && key !in deps && !BackendAt(deps[key := d], key)
    ensures Knows(deps[key := d], logs, seen, idle)
  {
    Extends(deps, key, d, logs);
  }

  lemma KnowsIdle(deps: Deployments, key: string, d: Deployment, logs: Logs, seen: Seen, idle: bool)
    requires Knows(deps, logs, seen, idle) && key !in deps && BackendAt(deps[key := d], key) && d.replicas == []
    ensures Knows(deps[key := d], logs, seen, true)
  {
    Extends(deps, key, d, logs);
  }

  lemma KnowsReplicas(deps: Deployments, key: string, d: Deployment, logs: Logs, seen: Seen, idle: bool, more: Seen)
    requires Knows(deps, logs, seen, idle) && key !in deps && BackendAt(deps[key := d], key) && d.replicas != []
    requires !SomeReplica(d, logs, Failed) && Records(more, seen, d.replicas, logs)
    ensures Knows(deps[key := d], logs, more, idle)
  {
    Extends(deps, key, d, logs);
  }

  lemma Extends(deps: Deployments, key: string, d: Deployment, logs: Logs)
    requires key !in deps
    ensures var more := deps[key := d];
      && (forall m :: SomeBackend(more, logs, m) <==>
            SomeBackend(deps, logs, m) || (BackendAt(more, key) && SomeReplica(d, logs, m)))
      && (SomeUnreadable(more, logs) <==> SomeUnreadable(deps, logs) || (BackendAt(more, key) && UnreadableIn(d.replicas, logs)))
      && (SomeIdle(more) <==> SomeIdle(deps) || (BackendAt(more, key) && d.replicas == []))
  {
    var more := deps[key := d];
    assert more[key] == d;
    forall k | k in deps ensures k in more && more[k] == deps[k] && (BackendAt(more, k) <==> BackendAt(deps, k)) {
    }
    forall m ensures SomeBackend(more, logs, m) <==>
                       SomeBackend(deps, logs, m) || (BackendAt(more, key) && SomeReplica(d, logs, m))
    {
      if SomeBackend(deps, logs, m) {
        var k :| k in deps && BackendAt(deps, k) && SomeReplica(deps[k], logs, m);
        assert BackendAt(more, k) && SomeReplica(more[k], logs, m);
      }
    }
    if SomeUnreadable(deps, logs) {
      var k :| k in deps && BackendAt(deps, k) && UnreadableIn(deps[k].replicas, logs);
      assert BackendAt(more, k) && UnreadableIn(more[k].replicas, logs);
    }
    if SomeIdle(deps) {
      var k :| k in deps && BackendAt(deps, k) && deps[k].replicas == [];
      assert BackendAt(more, k) && more[k].replicas == [];
    }
  }
}
