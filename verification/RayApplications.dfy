/** The Ray Serve application list as a concurrent read-modify-write protocol
    (internal/orchestrator/ray_orchestrator.go).

    Every create, update, pause and delete of an endpoint reads the whole application
    list of its cluster, edits one entry and puts the whole list back, holding a mutex
    that is looked up by cluster.  The server keeps, per application name, the deployed
    config, or `None` while the application is being torn down.
 */
module RayApplications {
  import opened Basics
  import opened JsonTree

  datatype App = App(name: string, config: Json)

  type Server = map<string, Option<App>>

  type Target = map<string, App>

  datatype Op = Upsert(app: App) | Remove(name: string)

  /** What one pass over the fetched list decides to do. */
  datatype Decision = Skip | Put(apps: seq<App>)

  function OpName(op: Op): string
  {
    if op.Upsert? then op.app.name else op.name
  }

  /** The configs the server is asked to run. */
  function TargetOf(s: Server): Target
  {
    map n | n in s && s[n].Some? :: s[n].value
  }

  /** One operation on its own. */
  function Apply(t: Target, op: Op): Target
  {
    match op
    case Upsert(app) => t[app.name := app]
    case Remove(name) => t - {name}
  }

  function Replay(t: Target, ops: seq<Op>): Target
  {
    if ops == [] then t else Apply(Replay(t, ops[..|ops| - 1]), ops[|ops| - 1])
  }

  /** The server files every config under its own name. */
  ghost predicate Keyed(s: Server)
  {
    forall n :: n in s && s[n].Some? ==> s[n].value.name == n
  }

  /** The configs a list declares. */
  function Declared(apps: seq<App>): Target
  {
    if apps == [] then map[]
    else var last := apps[|apps| - 1]; Declared(apps[..|apps| - 1])[last.name := last]
  }

  /** `apps` lists `t`, each entry once, in some order. */
  ghost predicate Lists(apps: seq<App>, t: Target)
  {
    (forall i, j :: 0 <= i < j < |apps| ==> apps[i].name != apps[j].name) && Declared(apps) == t
  }

  lemma ListsAppend(apps: seq<App>, t: Target, app: App)
    requires Lists(apps, t) && app.name !in t
    ensures Lists(apps + [app], t[app.name := app])
  {
    assert (apps + [app])[..|apps|] == apps;
    DeclaresNames(apps);
  }

  /** A list that names each application once is as long as the target it declares. */
  lemma {:induction false} ListsCount(apps: seq<App>, t: Target)
    requires Lists(apps, t)
    ensures |apps| == |t|
  {
    if apps != [] {
      var front, last := apps[..|apps| - 1], apps[|apps| - 1];
      ListsCount(front, Declared(front));
      DeclaredOnly(front, last.name);
      assert Declared(apps).Keys == Declared(front).Keys + {last.name};
    }
  }

  lemma {:induction false} DeclaredOnly(apps: seq<App>, name: string)
    ensures name in Declared(apps) ==> exists i :: 0 <= i < |apps| && apps[i].name == name
  {
    if apps != [] && apps[|apps| - 1].name != name {
      DeclaredOnly(apps[..|apps| - 1], name);
    }
  }

  lemma {:induction false} DeclaresNames(apps: seq<App>)
    ensures forall i :: 0 <= i < |apps| ==> apps[i].name in Declared(apps)
  {
    if apps != [] {
      DeclaresNames(apps[..|apps| - 1]);
    }
  }

  /** PUT declares the whole list: listed applications get their config, all others
      are torn down. */
  function PutAll(s: Server, apps: seq<App>): Server
  {
    var declared := Declared(apps);
    map n | n in s.Keys + declared.Keys :: if n in declared then Some(declared[n]) else None
  }

  /** What a pass over the fetched list may decide: nothing when the server already
      agrees, otherwise any listing of the edited target. */
  ghost predicate Decides(fetched: Server, op: Op, d: Decision)
  {
    && (d.Skip? <==> match op
                     case Upsert(app) => app.name in fetched && fetched[app.name] == Some(app)
                     case Remove(name) => name !in fetched)
    && (d.Put? ==> Lists(d.apps, Apply(TargetOf(fetched), op)))
  }

  lemma {:induction false} SomeListing(t: Target) returns (apps: seq<App>)
    requires forall n :: n in t ==> t[n].name == n
    ensures Lists(apps, t)
    decreases |t|
  {
    if t == map[] {
      return [];
    }
    var n :| n in t;
    var front := SomeListing(t - {n});
    ListsAppend(front, t - {n}, t[n]);
    assert (t - {n})[n := t[n]] == t;
    return front + [t[n]];
  }

  /** There is always something to decide. */
  lemma SomeDecision(fetched: Server, op: Op) returns (d: Decision)
    requires Keyed(fetched)
    ensures Decides(fetched, op, d)
  {
    var apps := SomeListing(Apply(TargetOf(fetched), op));
    if match op
       case Upsert(app) => app.name in fetched && fetched[app.name] == Some(app)
       case Remove(name) => name !in fetched
    {
      d := Skip;
    } else {
      d := Put(apps);
    }
  }

  // ----- the two edits of the list -----

  lemma TargetNext(done: Server, n: string, entry: Option<App>)
    requires n !in done
    ensures TargetOf(done[n := entry]) == if entry.Some? then TargetOf(done)[n := entry.value] else TargetOf(done)
  {
  }

  /** The list while it is being edited: the new config replaces a fetched one. */
  function Edited(t: Target, app: App): Target
  {
    if app.name in t then t[app.name := app] else t
  }

  lemma EditedNext(updated: seq<App>, t: Target, app: App, newApp: App)
    requires Lists(updated, Edited(t, newApp)) && app.name !in t
    ensures Lists(updated + [if app.name == newApp.name then newApp else app], Edited(t[app.name := app], newApp))
  {
    var entry := if app.name == newApp.name then newApp else app;
    ListsAppend(updated, Edited(t, newApp), entry);
    assert Edited(t, newApp)[entry.name := entry] == Edited(t[app.name := app], newApp);
  }

  /** The loop of `createOrUpdate`, visiting the fetched entries in any order. */
  method DecideUpsert(fetched: Server, newApp: App) returns (d: Decision)
    requires Keyed(fetched)
    ensures Decides(fetched, Upsert(newApp), d)
  {
    var needAppend, needUpdate := true, true;
    var updated: seq<App> := [];
    var todo := fetched.Keys;
    ghost var done: Server, target: Target := map[], map[];
    while todo != {}
      invariant todo <= fetched.Keys && done.Keys == fetched.Keys - todo
      invariant forall n :: n in done ==> done[n] == fetched[n]
      invariant target == TargetOf(done) && target.Keys <= done.Keys
      invariant Lists(updated, Edited(target, newApp))
      invariant needAppend <==> newApp.name !in target
      invariant !needUpdate <==> newApp.name in done && done[newApp.name] == Some(newApp)
      decreases todo
    {
      var n :| n in todo;
      TargetNext(done, n, fetched[n]);
      if fetched[n].Some? {
        var app := fetched[n].value;
        EditedNext(updated, target, app, newApp);
        updated := updated + [app];
        if app.name == newApp.name {
          needAppend := false;
          if app == newApp {
            needUpdate := false;
          } else {
            updated := updated[|updated| - 1 := newApp];
          }
        }
        target := target[n := app];
      }
      todo := todo - {n};
      done := done[n := fetched[n]];
    }
    assert done == fetched;
    if needAppend {
      ListsAppend(updated, target, newApp);
      updated := updated + [newApp];
    }
    d := if needAppend || needUpdate then Put(updated) else Skip;
  }

  lemma RemovedNext(updated: seq<App>, t: Target, app: App, name: string)
    requires Lists(updated, t - {name}) && app.name !in t && app.name != name
    ensures Lists(updated + [app], t[app.name := app] - {name})
  {
    RemoveElsewhere(t, app.name, app, name);
    ListsAppend(updated, t - {name}, app);
  }

  lemma RemoveElsewhere<V>(t: map<string, V>, k: string, v: V, name: string)
    requires k != name
    ensures (t - {name})[k := v] == t[k := v] - {name}
  {
  }

  lemma RemovedStays(t: Target, entry: Option<App>, name: string)
    ensures (if entry.Some? then t[name := entry.value] else t) - {name} == t - {name}
  {
  }

  /** The loop of `deleteEndpoint`. */
  method DecideRemove(fetched: Server, name: string) returns (d: Decision)
    requires Keyed(fetched)
    ensures Decides(fetched, Remove(name), d)
  {
    var found := false;
    var updated: seq<App> := [];
    var todo := fetched.Keys;
    ghost var done: Server, target: Target := map[], map[];
    while todo != {}
      invariant todo <= fetched.Keys && done.Keys == fetched.Keys - todo
      invariant forall n :: n in done ==> done[n] == fetched[n]
      invariant target == TargetOf(done) && target.Keys <= done.Keys
      invariant Lists(updated, target - {name})
      invariant found <==> name in done
      decreases todo
    {
      var n :| n in todo;
      TargetNext(done, n, fetched[n]);
      ghost var before := target;
      todo := todo - {n};
      done := done[n := fetched[n]];
      target := TargetOf(done);
      if n == name {
        found := true;
        RemovedStays(before, fetched[n], name);
        continue;
      }
      if fetched[n].Some? {
        RemovedNext(updated, before, fetched[n].value, name);
        updated := updated + [fetched[n].value];
      }
    }
    assert done == fetched;
    d := if found then Put(updated) else Skip;
  }

  lemma PutTarget(s: Server, apps: seq<App>, t: Target)
    requires Lists(apps, t)
    requires forall n :: n in t ==> t[n].name == n
    ensures TargetOf(PutAll(s, apps)) == t && Keyed(PutAll(s, apps))
  {
  }

  /** Whatever is decided, the server ends with the operation applied to its target. */
  lemma DecisionCommits(fetched: Server, live: Server, op: Op, d: Decision)
    requires Keyed(fetched) && Decides(fetched, op, d)
    requires TargetOf(live) == TargetOf(fetched)
    ensures d.Skip? ==> Apply(TargetOf(live), op) == TargetOf(live)
    ensures d.Put? ==> Keyed(PutAll(live, d.apps)) && TargetOf(PutAll(live, d.apps)) == Apply(TargetOf(live), op)
  {
    if d.Put? {
      PutTarget(live, d.apps, Apply(TargetOf(fetched), op));
    } else {
      assert Apply(TargetOf(live), op) == TargetOf(live);
    }
  }

  /** Once an upsert is in force, repeating it puts nothing; a removal falls silent
      when the teardown it started has finished. */
  lemma RepeatIsSilent(fetched: Server, op: Op, d: Decision, again: Decision, name: string)
    requires Keyed(fetched) && Decides(fetched, op, d) && d.Put? && name == OpName(op)
    requires op.Upsert? ==> Decides(PutAll(fetched, d.apps), op, again)
    requires op.Remove? ==> Decides(PutAll(fetched, d.apps) - {name}, op, again)
    ensures again.Skip?
  {
    PutTarget(fetched, d.apps, Apply(TargetOf(fetched), op));
    if op.Upsert? {
      assert TargetOf(PutAll(fetched, d.apps))[name] == op.app;
    }
  }

  datatype Fault = NoFault | GetFails | ConvertFails | PutRejected | PutUnacknowledged

  /** Whether a call that decided `d` gets its edit to the server, and whether it returns
      success.  Only an upsert converts the endpoint, and a skip sends nothing. */
  predicate Delivers(op: Op, d: Decision, fault: Fault)
  {
    fault != GetFails && !(fault == ConvertFails && op.Upsert?) && (d.Skip? || fault != PutRejected)
  }

  predicate Succeeds(op: Op, d: Decision, fault: Fault)
  {
    Delivers(op, d, fault) && (d.Skip? || fault != PutUnacknowledged)
  }

  function Outcome(apps: Server, d: Decision, delivered: bool): Server
  {
    if delivered && d.Put? then PutAll(apps, d.apps) else apps
  }

  /** The dashboard of one cluster, as one caller holding the cluster's mutex sees it. */
  class Dashboard {
    var apps: Server
    var puts: nat

    constructor (apps: Server)
      ensures this.apps == apps && puts == 0
    {
      this.apps := apps;
      puts := 0;
    }

    method CreateOrUpdate(newApp: App, fault: Fault) returns (ok: bool, ghost d: Decision)
      requires Keyed(apps)
      modifies this
      ensures Keyed(apps)
      ensures fault == NoFault ==> ok
      ensures ok ==> TargetOf(apps) == Apply(old(TargetOf(apps)), Upsert(newApp))
      ensures !ok ==> TargetOf(apps) == old(TargetOf(apps)) || fault == PutUnacknowledged
      ensures old(newApp.name in apps && apps[newApp.name] == Some(newApp)) ==> apps == old(apps) && puts == old(puts)
      ensures Decides(old(apps), Upsert(newApp), d) || fault == GetFails || fault == ConvertFails
      ensures apps == Outcome(old(apps), d, Delivers(Upsert(newApp), d, fault)) && ok == Succeeds(Upsert(newApp), d, fault)
    {
      if fault == GetFails || fault == ConvertFails {
        return false, Skip;
      }
      var decision := DecideUpsert(apps, newApp);
      d := decision;
      DecisionCommits(apps, apps, Upsert(newApp), d);
      ok := PutDecision(decision, fault);
    }

    method DeleteEndpoint(name: string, fault: Fault) returns (ok: bool, ghost d: Decision)
      requires Keyed(apps)
      modifies this
      ensures Keyed(apps)
      ensures fault == NoFault ==> ok
      ensures ok ==> TargetOf(apps) == Apply(old(TargetOf(apps)), Remove(name))
      ensures !ok ==> TargetOf(apps) == old(TargetOf(apps)) || fault == PutUnacknowledged
      ensures old(name !in apps) ==> apps == old(apps) && puts == old(puts)
      ensures Decides(old(apps), Remove(name), d) || fault == GetFails
      ensures apps == Outcome(old(apps), d, Delivers(Remove(name), d, fault)) && ok == Succeeds(Remove(name), d, fault)
    {
      if fault == GetFails {
        return false, Skip;
      }
      var decision := DecideRemove(apps, name);
      d := decision;
      DecisionCommits(apps, apps, Remove(name), d);
      ok := PutDecision(decision, fault);
    }

    method PutDecision(d: Decision, fault: Fault) returns (ok: bool)
      modifies this
      ensures apps == if d.Skip? || fault == PutRejected then old(apps) else PutAll(old(apps), d.apps)
      ensures puts == if d.Skip? then old(puts) else old(puts) + 1
      ensures ok <==> d.Skip? || (fault != PutRejected && fault != PutUnacknowledged)
    {
      if d.Skip? {
        return true;
      }
      puts := puts + 1;
      if fault != PutRejected {
        apps := PutAll(apps, d.apps);
      }
      ok := fault != PutRejected && fault != PutUnacknowledged;
    }
  }
}
