/** The status of a Ray endpoint: what one observation reports
    (internal/orchestrator/ray_orchestrator.go: mapDeployingPhase, setModelDownloadStatus,
    resolveRayStartupModelDownloadStatus, GetEndpointStatus) and what the endpoint
    controller stores (controllers/endpoint_controller.go).

    Message texts, resources and service URLs are carried as given values.
 */
module EndpointStatus {
  import opened Basics
  import D = ModelDownload

  datatype Phase = Pending | Running | Failed | Deleted | Paused | Deploying | ModelDownloading | Deleting

  datatype Status = Status(
    phase: Phase,
    serviceUrl: string,
    message: string,
    downloadHash: Option<string>,
    resources: Option<int>)

  datatype AppStatus = AppDeploying | AppNotStarted | AppDeployFailed | AppUnhealthy | AppRunning | AppOther

  datatype App = App(status: AppStatus, deployments: D.Deployments)

  /** What the dashboard returned: our application, if listed, and each proxy's health. */
  datatype Listing = Listing(app: Option<App>, proxies: map<string, bool>)

  /** The endpoint row's own demands at the time of a reconcile. */
  datatype Demand = Demand(deleting: bool, force: bool, paused: bool, modelHash: string)

  predicate AllProxiesHealthy(proxies: map<string, bool>)
  {
    proxies != map[] && forall p :: p in proxies ==> proxies[p]
  }

  function MapDeployingPhase(stored: Option<Status>, app: App, proxyReady: bool): Phase
  {
    if exists d :: d in app.deployments && app.deployments[d].health == D.Unhealthy then
      Failed
    else if app.status == AppDeploying && proxyReady && stored.Some? && stored.value.phase == Running
            && app.deployments != map[]
            && (forall d :: d in app.deployments ==> app.deployments[d].health == D.Healthy) then
      Running
    else
      Deploying
  }

  function BasicPhase(stored: Option<Status>, app: App, proxyReady: bool): Phase
  {
    match app.status
    case AppDeploying => MapDeployingPhase(stored, app, proxyReady)
    case AppNotStarted => MapDeployingPhase(stored, app, proxyReady)
    case AppDeployFailed => Failed
    case AppUnhealthy => Failed
    case AppRunning => if proxyReady then Running else Deploying
    case AppOther => Deploying
  }

  predicate HashMatches(stored: Option<Status>, modelHash: string)
  {
    modelHash != "" && stored.Some? && stored.value.downloadHash == Some(modelHash)
  }

  predicate StartingUp(app: App, phase: Phase)
  {
    phase == Deploying && (app.status == AppDeploying || app.status == AppNotStarted)
  }

  /** Phase, completed and incomplete once the download markers are considered. */
  function WithMarkers(phase: Phase, marker: D.Marker): (Phase, bool, bool)
  {
    match marker
    case Done => (phase, true, false)
    case Failed => (Failed, false, true)
    case InProgress => (ModelDownloading, false, true)
    case NoMarker => (ModelDownloading, false, true)
  }

  function DownloadHash(modelHash: string, completed: bool, incomplete: bool): Option<string>
  {
    if modelHash == "" then None
    else if completed then Some(modelHash)
    else if incomplete then Some("")
    else None
  }

  /** The status one observation reports; `marker` is what the logs say. */
  function Report(stored: Option<Status>, want: Demand, seen: Listing, marker: D.Marker,
                  message: string, resources: Option<int>): Status
  {
    if want.deleting then
      if seen.app.None? then Status(Deleted, "", "", None, None) else Status(Deleting, "", message, None, None)
    else if want.paused then
      if seen.app.None? then Status(Paused, "", "", None, None) else Status(Deploying, "", message, None, None)
    else if seen.app.None? then
      Status(Deploying, "", message, None, None)
    else
      var phase := BasicPhase(stored, seen.app.value, AllProxiesHealthy(seen.proxies));
      if phase == Running then
        Status(Running, "", "", DownloadHash(want.modelHash, true, false), resources)
      else
        var resolved := if StartingUp(seen.app.value, phase) then WithMarkers(phase, marker)
                        else (phase, HashMatches(stored, want.modelHash), false);
        Status(resolved.0, "", message, DownloadHash(want.modelHash, resolved.1, resolved.2), resources)
  }

  ghost function MarkerOf(seen: Listing, logs: D.Logs): D.Marker
  {
    if seen.app.None? then D.NoMarker else D.Verdict(seen.app.value.deployments, logs)
  }

  /** `GetEndpointStatus` after the listing was fetched. */
  method GetEndpointStatus(stored: Option<Status>, want: Demand, seen: Listing, logs: D.Logs,
                           message: string, resources: Option<int>) returns (st: Status)
    ensures st == Report(stored, want, seen, MarkerOf(seen, logs), message, resources)
  {
    var marker := D.NoMarker;
    if !want.deleting && !want.paused && seen.app.Some?
       && StartingUp(seen.app.value, BasicPhase(stored, seen.app.value, AllProxiesHealthy(seen.proxies)))
    {
      var readError;
      marker, readError := D.Inspect(seen.app.value.deployments, logs);
    }
    st := Report(stored, want, seen, marker, message, resources);
  }

  /** The proxies are healthy when healthy is all that is said about any of them, and that
      of at least one. */
  lemma ProxiesHealthyIff(proxies: map<string, bool>)
    ensures AllProxiesHealthy(proxies) <==> proxies.Values == {true}
  {
    if AllProxiesHealthy(proxies) {
      var p :| p in proxies;
      assert proxies[p] in proxies.Values;
    } else if proxies != map[] {
      var p :| p in proxies && !proxies[p];
      assert proxies[p] in proxies.Values;
    }
  }

  /** Running is reported only for an application that exists and is neither paused
      nor being deleted, and then either the application runs behind healthy proxies
      or Running was stored and every deployment is still healthy. */
  lemma RunningReported(stored: Option<Status>, want: Demand, seen: Listing, marker: D.Marker,
                        message: string, resources: Option<int>)
    ensures Report(stored, want, seen, marker, message, resources).phase == Running <==>
      && !want.deleting && !want.paused && seen.app.Some? && seen.proxies.Values == {true}
      && (seen.app.value.status == AppRunning
          || (&& stored.Some? && stored.value.phase == Running
              && seen.app.value.status == AppDeploying && seen.app.value.deployments != map[]
              && forall d :: d in seen.app.value.deployments ==>
                   seen.app.value.deployments[d].health == D.Healthy))
  {
    ProxiesHealthyIff(seen.proxies);
    if seen.app.Some? {
      var app := seen.app.value;
      if forall d :: d in app.deployments ==> app.deployments[d].health == D.Healthy {
        assert !exists d :: d in app.deployments && app.deployments[d].health == D.Unhealthy;
      }
    }
  }

  /** Starting up, neither serving nor known to be unhealthy: the case in which the download
      markers decide. */
  ghost predicate AwaitsMarkers(stored: Option<Status>, app: App, proxyReady: bool)
  {
    && (app.status == AppDeploying || app.status == AppNotStarted)
    && (forall d :: d in app.deployments ==> app.deployments[d].health != D.Unhealthy)
    && !(app.status == AppDeploying && proxyReady && stored.Some? && stored.value.phase == Running
         && app.deployments != map[] && forall d :: d in app.deployments ==> app.deployments[d].health == D.Healthy)
  }

  lemma AwaitsMarkersIff(stored: Option<Status>, app: App, proxyReady: bool)
    ensures StartingUp(app, BasicPhase(stored, app, proxyReady)) <==> AwaitsMarkers(stored, app, proxyReady)
  {
    if forall d :: d in app.deployments ==> app.deployments[d].health != D.Unhealthy {
      assert !exists d :: d in app.deployments && app.deployments[d].health == D.Unhealthy;
    }
  }

  /** Failed is reported exactly for an application that Ray calls failed or unhealthy, or
      that is starting up with an unhealthy deployment or a failed download. */
  lemma FailedReported(stored: Option<Status>, want: Demand, seen: Listing, marker: D.Marker,
                       message: string, resources: Option<int>)
    ensures Report(stored, want, seen, marker, message, resources).phase == Failed <==>
      && !want.deleting && !want.paused && seen.app.Some?
      && var app := seen.app.value;
         (|| app.status == AppDeployFailed || app.status == AppUnhealthy
          || ((app.status == AppDeploying || app.status == AppNotStarted)
              && exists d :: d in app.deployments && app.deployments[d].health == D.Unhealthy)
          || (AwaitsMarkers(stored, app, AllProxiesHealthy(seen.proxies)) && marker == D.Failed))
  {
    if seen.app.Some? {
      AwaitsMarkersIff(stored, seen.app.value, AllProxiesHealthy(seen.proxies));
    }
  }

  /** ModelDownloading is reported exactly while starting up with markers neither done nor
      failed. */
  lemma DownloadingReported(stored: Option<Status>, want: Demand, seen: Listing, marker: D.Marker,
                            message: string, resources: Option<int>)
    ensures Report(stored, want, seen, marker, message, resources).phase == ModelDownloading <==>
      && !want.deleting && !want.paused && seen.app.Some?
      && AwaitsMarkers(stored, seen.app.value, AllProxiesHealthy(seen.proxies))
      && (marker == D.InProgress || marker == D.NoMarker)
  {
    if seen.app.Some? {
      AwaitsMarkersIff(stored, seen.app.value, AllProxiesHealthy(seen.proxies));
    }
  }

  /** Deploying is reported exactly for an application that is expected and not listed, for
      a paused one still listed, and for one that runs behind proxies not yet healthy, is in
      a state Ray does not tell apart, or starts up with its download done. */
  lemma DeployingReported(stored: Option<Status>, want: Demand, seen: Listing, marker: D.Marker,
                          message: string, resources: Option<int>)
    ensures Report(stored, want, seen, marker, message, resources).phase == Deploying <==>
      && !want.deleting
      && if want.paused then seen.app.Some?
         else seen.app.None?
              || seen.app.value.status == AppOther
              || (seen.app.value.status == AppRunning && !AllProxiesHealthy(seen.proxies))
              || (AwaitsMarkers(stored, seen.app.value, AllProxiesHealthy(seen.proxies)) && marker == D.Done)
  {
    if seen.app.Some? {
      AwaitsMarkersIff(stored, seen.app.value, AllProxiesHealthy(seen.proxies));
    }
  }

  /** What a deleted or paused endpoint reports depends on the listing alone. */
  lemma WithdrawnReported(stored: Option<Status>, want: Demand, seen: Listing, marker: D.Marker,
                          message: string, resources: Option<int>)
    ensures var phase := Report(stored, want, seen, marker, message, resources).phase;
      && (phase == Deleted <==> want.deleting && seen.app.None?)
      && (phase == Deleting <==> want.deleting && seen.app.Some?)
      && (phase == Paused <==> want.paused && !want.deleting && seen.app.None?)
      && phase != Pending
  {
  }

  /** The model's hash is reported exactly when the endpoint runs, when its start-up has the
      download done, and otherwise when it was stored already; the empty hash exactly while
      a start-up lacks the download. */
  lemma HashReported(stored: Option<Status>, want: Demand, seen: Listing, marker: D.Marker,
                     message: string, resources: Option<int>)
    ensures var st := Report(stored, want, seen, marker, message, resources);
      if want.deleting || want.paused || seen.app.None? || want.modelHash == "" then st.downloadHash == None
      else
        var awaits := AwaitsMarkers(stored, seen.app.value, AllProxiesHealthy(seen.proxies));
        && (st.downloadHash == Some(want.modelHash) <==>
              || st.phase == Running
              || if awaits then marker == D.Done
                 else stored.Some? && stored.value.downloadHash == Some(want.modelHash))
        && (st.downloadHash == Some("") <==> awaits && marker != D.Done)
  {
    if seen.app.Some? {
      AwaitsMarkersIff(stored, seen.app.value, AllProxiesHealthy(seen.proxies));
    }
  }

  // ----- the controller -----

  /** How a reconcile went: the sync failed, the status could not be read, or it was. */
  datatype Outcome =
    | SyncFailed(message: string)
    | Unavailable
    | Seen(listing: Listing, logs: D.Logs, detail: string, resources: Option<int>, url: string)

  /** `kept` says whether storage accepted a status write, if one was made. */
  datatype Event = Event(want: Demand, outcome: Outcome, kept: bool)

  /** `prepareStatusForUpdate`: omitted values keep what is stored. */
  function Prepare(stored: Option<Status>, st: Status): Status
  {
    if stored.None? then st else
      var s := stored.value;
      st.(serviceUrl := if st.serviceUrl == "" then s.serviceUrl else st.serviceUrl,
          resources := if st.resources.None? then s.resources else st.resources,
          downloadHash := if st.downloadHash.None? then s.downloadHash else st.downloadHash)
  }

  function Actual(st: Status, url: string): Status
  {
    if st.phase == Running then st.(serviceUrl := url) else st
  }

  /** What an event makes of the stored status.  Once Deleted is stored, a reconcile
      of a deleted endpoint removes the row instead. */
  ghost function Next(stored: Option<Status>, e: Event): Option<Status>
  {
    if (e.want.deleting && stored.Some? && stored.value.phase == Deleted) || !e.kept then stored
    else if e.want.deleting && e.want.force then
      Some(Prepare(stored, Status(Deleted, "", "", None, None)))
    else match e.outcome
      case SyncFailed(message) =>
        Some(Prepare(stored, Status(if e.want.deleting then Deleting else Failed, "", message, None, None)))
      case Unavailable => stored
      case Seen(listing, logs, detail, resources, url) =>
        Some(Prepare(stored, Actual(Report(stored, e.want, listing, MarkerOf(listing, logs), detail, resources), url)))
  }

  /** The endpoint row as the controller updates it. */
  class EndpointRow {
    var status: Option<Status>
    var writes: nat

    constructor (status: Option<Status>)
      ensures this.status == status && writes == 0
    {
      this.status := status;
      writes := 0;
    }

    method UpdateStatus(st: Status, kept: bool)
      modifies this
      ensures status == if kept then Some(Prepare(old(status), st)) else old(status)
      ensures writes == old(writes) + 1
    {
      var prepared := st;
      if prepared.serviceUrl == "" && status.Some? && status.value.serviceUrl != "" {
        prepared := prepared.(serviceUrl := status.value.serviceUrl);
      }
      if status.Some? && status.value.resources.Some? && prepared.resources.None? {
        prepared := prepared.(resources := status.value.resources);
      }
      if status.Some? && status.value.downloadHash.Some? && prepared.downloadHash.None? {
        prepared := prepared.(downloadHash := status.value.downloadHash);
      }
      writes := writes + 1;
      if kept {
        status := Some(prepared);
      }
    }

    /** `shouldUpdateStatus`: the write is skipped exactly when it would change nothing. */
    method ShouldUpdate(st: Status) returns (yes: bool)
      ensures yes <==> status != Some(Prepare(status, st))
    {
      if status.None? {
        return true;
      }
      var normalized := Prepare(status, st);
      var cur := status.value;
      yes := cur.phase != normalized.phase || cur.serviceUrl != normalized.serviceUrl
             || cur.message != normalized.message || cur.downloadHash != normalized.downloadHash
             || cur.resources != normalized.resources;
    }

    /** `handleDeletion`'s guard and `updateStatusOnError`. */
    method Settle(e: Event)
      modifies this
      ensures status == Next(old(status), e)
      ensures writes <= old(writes) + 1
      ensures e.outcome.Seen? && !(e.want.deleting && e.want.force) && e.kept && status == old(status) ==>
                writes == old(writes)
    {
      if e.want.deleting && status.Some? && status.value.phase == Deleted {
        return;
      }
      if e.want.deleting && e.want.force {
        UpdateStatus(Status(Deleted, "", "", None, None), e.kept);
        return;
      }
      match e.outcome
      case SyncFailed(message) =>
        UpdateStatus(Status(if e.want.deleting then Deleting else Failed, "", message, None, None), e.kept);
      case Unavailable =>
      case Seen(listing, logs, detail, resources, url) =>
        var st := GetEndpointStatus(status, e.want, listing, logs, detail, resources);
        st := Actual(st, url);
        var should := ShouldUpdate(st);
        if should {
          UpdateStatus(st, e.kept);
        }
    }
  }

  // ----- whole runs of reconciles -----

  ghost predicate Run(states: seq<Option<Status>>, events: seq<Event>)
  {
    && |states| == |events| + 1
    && forall i :: 0 <= i < |events| ==> states[i + 1] == Next(states[i], events[i])
  }

  function HashOf(st: Option<Status>): string
  {
    if st.Some? then st.value.downloadHash.GetOr("") else ""
  }

  /** An observation that proves the model of hash `modelHash` is downloaded: it was
      reported Running, or every backend marker was Done. */
  ghost predicate Backs(stored: Option<Status>, e: Event)
  {
    && e.outcome.Seen? && !e.want.deleting && !e.want.paused && e.outcome.listing.app.Some?
    && (|| Report(stored, e.want, e.outcome.listing, MarkerOf(e.outcome.listing, e.outcome.logs), "", None).phase == Running
        || D.Verdict(e.outcome.listing.app.value.deployments, e.outcome.logs) == D.Done)
  }

  lemma HashStep(stored: Option<Status>, e: Event)
    ensures HashOf(Next(stored, e)) in {"", HashOf(stored)}
         || (Backs(stored, e) && HashOf(Next(stored, e)) == e.want.modelHash)
  {
  }

  /** If the stored completion hash turns into `h`, some observation in between backs
      it.  With `i` at a moment when the hash was empty this says that an emptied hash
      is never brought back without fresh evidence. */
  lemma {:induction false} CompletionIsBacked(states: seq<Option<Status>>, events: seq<Event>, i: nat, k: nat)
    requires Run(states, events) && i <= k < |states|
    requires HashOf(states[k]) != "" && HashOf(states[i]) != HashOf(states[k])
    ensures exists j :: i <= j < k && Backs(states[j], events[j]) && events[j].want.modelHash == HashOf(states[k])
    decreases k
  {
    HashStep(states[k - 1], events[k - 1]);
    if !(Backs(states[k - 1], events[k - 1]) && HashOf(states[k]) == events[k - 1].want.modelHash) {
      CompletionIsBacked(states, events, i, k - 1);
    }
  }

  /** An observation of an application that is starting up without every backend
      marker Done stores the empty hash. */
  lemma IncompleteClears(stored: Option<Status>, e: Event)
    requires e.outcome.Seen? && e.kept && !e.want.deleting && !e.want.paused && e.want.modelHash != ""
    requires e.outcome.listing.app.Some?
    requires var app := e.outcome.listing.app.value;
             && StartingUp(app, BasicPhase(stored, app, AllProxiesHealthy(e.outcome.listing.proxies)))
             && D.Verdict(app.deployments, e.outcome.logs) != D.Done
    ensures Next(stored, e).Some? && Next(stored, e).value.downloadHash == Some("")
  {
  }

  predicate IsRunning(st: Option<Status>)
  {
    st.Some? && st.value.phase == Running
  }

  function UrlOf(st: Option<Status>): string
  {
    if st.Some? then st.value.serviceUrl else ""
  }

  /** The service URL changes only to the one an observation gives that is stored as
      Running, and stays through every other event. */
  lemma UrlIsOfRunning(stored: Option<Status>, e: Event)
    ensures UrlOf(Next(stored, e)) ==
      if e.kept && e.outcome.Seen? && !e.want.deleting && IsRunning(Next(stored, e)) && e.outcome.url != ""
      then e.outcome.url else UrlOf(stored)
  {
  }

  /** Every event moves the stored completion hash in exactly one of three ways: an
      observation of Running or of a start-up with its download done sets it, one of a
      start-up without empties it, and anything else leaves it. */
  lemma HashMoves(stored: Option<Status>, e: Event)
    ensures var sees := e.kept && e.outcome.Seen? && !e.want.deleting && !e.want.paused && e.want.modelHash != ""
                        && e.outcome.listing.app.Some?;
            var awaits := sees && AwaitsMarkers(stored, e.outcome.listing.app.value,
                                                AllProxiesHealthy(e.outcome.listing.proxies));
            var done := sees && D.Verdict(e.outcome.listing.app.value.deployments, e.outcome.logs) == D.Done;
            HashOf(Next(stored, e)) ==
              if sees && (IsRunning(Next(stored, e)) || (awaits && done)) then e.want.modelHash
              else if awaits then ""
              else HashOf(stored)
  {
    if e.outcome.Seen? {
      var o := e.outcome;
      HashReported(stored, e.want, o.listing, MarkerOf(o.listing, o.logs), o.detail, o.resources);
    }
  }

  /** Ray said RUNNING and every proxy was healthy. */
  ghost predicate SeenServing(e: Event)
  {
    && e.outcome.Seen? && !e.want.deleting && !e.want.paused
    && e.outcome.listing.app.Some? && e.outcome.listing.app.value.status == AppRunning
    && AllProxiesHealthy(e.outcome.listing.proxies)
  }

  lemma RunningStep(stored: Option<Status>, e: Event)
    requires !IsRunning(stored) && IsRunning(Next(stored, e))
    ensures SeenServing(e)
  {
    var o := e.outcome;
    RunningReported(stored, e.want, o.listing, MarkerOf(o.listing, o.logs), o.detail, o.resources);
  }

  /** Every streak of stored Running starts with an observation of a serving
      application: going back from any moment `k` at which Running is stored there is
      a first moment of the streak, and the event there saw the application serving. */
  lemma {:induction false} StreakStartsServing(states: seq<Option<Status>>, events: seq<Event>, k: nat)
    requires Run(states, events) && k < |states|
    requires !IsRunning(states[0]) && IsRunning(states[k])
    ensures exists j :: 0 <= j < k && !IsRunning(states[j]) && SeenServing(events[j])
                        && forall m :: j < m <= k ==> IsRunning(states[m])
    decreases k
  {
    if IsRunning(states[k - 1]) {
      StreakStartsServing(states, events, k - 1);
      var j :| 0 <= j < k - 1 && !IsRunning(states[j]) && SeenServing(events[j])
               && forall m :: j < m <= k - 1 ==> IsRunning(states[m]);
      assert forall m :: j < m <= k ==> IsRunning(states[m]);
    } else {
      RunningStep(states[k - 1], events[k - 1]);
    }
  }

  /** A paused or deleting endpoint loses Running at its next kept, readable reconcile. */
  lemma PauseEndsStreak(stored: Option<Status>, e: Event)
    requires e.kept && !e.outcome.Unavailable? && (e.want.deleting || e.want.paused)
    requires IsRunning(stored)
    ensures !IsRunning(Next(stored, e))
  {
  }
}
