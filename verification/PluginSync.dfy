/** Reconciling one gateway plugin and an API key's limit plugins
    (internal/gateway/kong.go).

    The gateway is a map from plugin instance name to plugin.  What it stores when
    it is sent a config is a parameter: `Replacing` gateways store something that
    normalises to what was sent, `MergePatch` gateways patch what they hold.
 */
module PluginSync {
  import opened Basics
  import opened JsonTree

  /** What `util.JsonMerge(cur, desired, &desired)` leaves in `desired`: unmarshalling
      into a non-nil map keeps the entries the merged document no longer has, so the
      desired config's own top-level nulls stay in the payload. */
  function Payload(cur: Fields, desired: Fields): Fields
  {
    desired + MergePatch(Obj(cur), Obj(desired)).fields
  }

  /** The comparison that decides whether an update is sent. */
  predicate NeedsWrite(cur: Fields, desired: Fields)
  {
    StripEmpty(Obj(cur)) != StripEmpty(Obj(Payload(cur, desired)))
  }

  lemma PayloadAt(cur: Fields, desired: Fields, k: string)
    ensures At(Payload(cur, desired), k)
         == if k in desired then MergePatch(At(cur, k), desired[k]) else At(cur, k)
  {
    MergeAt(Obj(cur), desired, k);
  }

  lemma PayloadStripsLikeMerge(cur: Fields, desired: Fields)
    ensures StripEqual(Payload(cur, desired), MergePatch(Obj(cur), Obj(desired)).fields)
  {
    var merged := MergePatch(Obj(cur), Obj(desired)).fields;
    forall k ensures Kept(At(Payload(cur, desired), k)) == Kept(At(merged, k)) {
      PayloadAt(cur, desired, k);
      MergeAt(Obj(cur), desired, k);
    }
    StripEqualIsSameKept(Payload(cur, desired), merged);
  }

  /** The stored config says, once normalised, what is desired under `k`. */
  ghost predicate Agrees(cur: Fields, k: string, v: Json)
  {
    var kept := Kept(At(cur, k));
    if v == Null then kept.None? else kept.Some? && Within(v, kept.value)
  }

  lemma MergeKeptIff(c: Json, v: Json)
    requires Tidy(v) && v != Null && v != Obj(map[])
    ensures Kept(MergePatch(c, v)) == Kept(c) <==> Kept(c).Some? && Within(v, Kept(c).value)
  {
    var t := Kept(c).GetOr(Null);
    StripTidies(c);
    MergeRespectsKept(c, t, v);
    MergeTidy(t, v);
    TidyStays(MergePatch(t, v));
    MergeSilentIff(t, v);
  }

  /** For every stored config an update is sent if and only if some desired member is not
      found in what normalisation leaves of the stored one, arrays compared whole. */
  lemma NeedsWriteIff(cur: Fields, desired: Fields)
    requires forall k :: k in desired ==> Tidy(desired[k]) && desired[k] != Obj(map[])
    ensures NeedsWrite(cur, desired) <==> exists k :: k in desired && !Agrees(cur, k, desired[k])
  {
    forall k | k in desired
      ensures Kept(At(Payload(cur, desired), k)) == Kept(At(cur, k)) <==> Agrees(cur, k, desired[k])
    {
      PayloadAt(cur, desired, k);
      if desired[k] != Null {
        MergeKeptIff(At(cur, k), desired[k]);
      }
    }
    forall k | k !in desired ensures Kept(At(Payload(cur, desired), k)) == Kept(At(cur, k)) {
      PayloadAt(cur, desired, k);
    }
    StripEqualIsSameKept(cur, Payload(cur, desired));
  }

  /** If the gateway holds something that normalises like the payload, a second
      sync of the same desired config sends nothing. */
  lemma SecondSyncIsSilent(cur: Fields, desired: Fields, stored: Fields)
    requires StripEqual(stored, Payload(cur, desired))
    ensures !NeedsWrite(stored, desired)
  {
    var first := Payload(cur, desired);
    StripEqualIsSameKept(stored, first);
    forall k ensures Kept(At(Payload(stored, desired), k)) == Kept(At(stored, k)) {
      PayloadAt(cur, desired, k);
      PayloadAt(stored, desired, k);
      assert Kept(At(stored, k)) == Kept(At(first, k));
      if k in desired {
        MergeRespectsKept(At(stored, k), At(first, k), desired[k]);
        MergeIdempotent(At(cur, k), desired[k]);
      }
    }
    StripEqualIsSameKept(Payload(stored, desired), stored);
  }

  // ----- gateways that merge-patch what they are sent -----

  /** A null below the top level of `patch` meets a member the target still holds. */
  ghost predicate StaleNull(target: Json, patch: Json)
    decreases patch, 1
  {
    target.Obj? && patch.Obj? && exists k :: k in patch.fields && StaleMember(target, patch, k)
  }

  ghost predicate StaleMember(target: Json, patch: Json, k: string)
    requires target.Obj? && patch.Obj? && k in patch.fields
    decreases patch, 0
  {
    var held := At(target.fields, k);
    if patch.fields[k] == Null then Kept(held).Some? else StaleNull(held, patch.fields[k])
  }

  /** The same one level down: top-level nulls are sent as nulls and do clear. */
  ghost predicate StaleNested(cur: Fields, desired: Fields)
  {
    exists k :: k in desired && StaleNull(At(cur, k), desired[k])
  }

  /** Patching a value with its own patched form reaches the patched form exactly
      when no nested null had something to clear. */
  lemma {:induction false} EchoKept(c: Json, v: Json)
    ensures Kept(MergePatch(c, MergePatch(c, v))) == Kept(MergePatch(c, v)) <==> !StaleNull(c, v)
    decreases v
  {
    var w := MergePatch(c, v);
    if v.Obj? {
      if c.Obj? {
        var e := MergePatch(c, w).fields;
        forall k
          ensures Kept(At(e, k)) == Kept(At(w.fields, k)) <==> !(k in v.fields && StaleMember(c, v, k))
        {
          MergeAt(c, v.fields, k);
          MergeAt(c, w.fields, k);
          if k !in v.fields {
            SelfMergeKept(At(c.fields, k));
          } else if v.fields[k] != Null {
            EchoKept(At(c.fields, k), v.fields[k]);
          }
        }
        StripEqualIsSameKept(e, w.fields);
      } else {
        FreshMergeKept(c, w);
      }
    }
  }

  /** Whatever was cleared or not, syncing again aims at the same config. */
  lemma {:induction false} EchoThenMerge(c: Json, v: Json)
    ensures Kept(MergePatch(MergePatch(c, MergePatch(c, v)), v)) == Kept(MergePatch(c, v))
    decreases v
  {
    if v.Obj? {
      var w := MergePatch(c, v);
      var s := MergePatch(c, w);
      var again := MergePatch(s, v).fields;
      forall k ensures Kept(At(again, k)) == Kept(At(w.fields, k)) {
        MergeAt(c, v.fields, k);
        MergeAt(c, w.fields, k);
        MergeAt(s, v.fields, k);
        if k !in v.fields {
          SelfMergeKept(At(Members(c), k));
        } else if v.fields[k] != Null {
          EchoThenMerge(At(Members(c), k), v.fields[k]);
        }
      }
      StripEqualIsSameKept(again, w.fields);
    }
  }

  lemma MergedStoreAt(cur: Fields, desired: Fields, k: string)
    ensures Kept(At(MergePatch(Obj(cur), Obj(Payload(cur, desired))).fields, k))
         == if k in desired then Kept(MergePatch(At(cur, k), MergePatch(At(cur, k), desired[k])))
            else Kept(At(cur, k))
  {
    var sent := Payload(cur, desired);
    MergeAt(Obj(cur), sent, k);
    PayloadAt(cur, desired, k);
    SelfMergeKept(At(cur, k));
  }

  /** A merge-patching gateway ends up with what was sent, and falls silent on the
      next sync, if and only if no nested null of the desired config met a stored
      member. */
  lemma MergingGatewaySettles(cur: Fields, desired: Fields)
    ensures var stored := MergePatch(Obj(cur), Obj(Payload(cur, desired))).fields;
            && (StripEqual(stored, Payload(cur, desired)) <==> !StaleNested(cur, desired))
            && (!NeedsWrite(stored, desired) <==> !StaleNested(cur, desired))
  {
    var sent := Payload(cur, desired);
    var stored := MergePatch(Obj(cur), Obj(sent)).fields;
    forall k ensures Kept(At(stored, k)) == Kept(At(sent, k))
                <==> !(k in desired && StaleNull(At(cur, k), desired[k]))
    {
      MergedStoreAt(cur, desired, k);
      PayloadAt(cur, desired, k);
      if k in desired {
        EchoKept(At(cur, k), desired[k]);
      }
    }
    StripEqualIsSameKept(stored, sent);
    PayloadIsStable(cur, desired, stored);
    assert StripEqual(Payload(stored, desired), sent);
  }

  lemma PayloadIsStable(cur: Fields, desired: Fields, stored: Fields)
    requires stored == MergePatch(Obj(cur), Obj(Payload(cur, desired))).fields
    ensures StripEqual(Payload(stored, desired), Payload(cur, desired))
  {
    var sent := Payload(cur, desired);
    forall k ensures Kept(At(Payload(stored, desired), k)) == Kept(At(sent, k)) {
      PayloadAt(stored, desired, k);
      PayloadAt(cur, desired, k);
      MergedStoreAt(cur, desired, k);
      if k in desired {
        var echoed := MergePatch(At(cur, k), MergePatch(At(cur, k), desired[k]));
        MergeRespectsKept(At(stored, k), echoed, desired[k]);
        EchoThenMerge(At(cur, k), desired[k]);
      }
    }
    StripEqualIsSameKept(Payload(stored, desired), sent);
  }

  /** A nested null that met a stored member meets it again after the sync. */
  lemma {:induction false} StalePersists(c: Json, v: Json)
    requires StaleNull(c, v)
    ensures StaleNull(MergePatch(c, MergePatch(c, v)), v)
    decreases v
  {
    var w := MergePatch(c, v);
    var s := MergePatch(c, w);
    var k :| k in v.fields && StaleMember(c, v, k);
    MergeAt(c, v.fields, k);
    MergeAt(c, w.fields, k);
    if v.fields[k] == Null {
      assert At(s.fields, k) == At(c.fields, k);
    } else {
      StalePersists(At(c.fields, k), v.fields[k]);
    }
    assert StaleMember(s, v, k);
  }

  /** Such a null keeps the merged config apart from the stored one. */
  lemma {:induction false} StaleDiffers(c: Json, v: Json)
    requires StaleNull(c, v)
    ensures Kept(MergePatch(c, v)) != Kept(c)
    decreases v
  {
    var w := MergePatch(c, v);
    var k :| k in v.fields && StaleMember(c, v, k);
    MergeAt(c, v.fields, k);
    if v.fields[k] != Null {
      StaleDiffers(At(c.fields, k), v.fields[k]);
    }
    assert Kept(At(w.fields, k)) != Kept(At(c.fields, k));
    StripEqualIsSameKept(w.fields, c.fields);
  }

  lemma StaleNestedNeedsWrite(cur: Fields, desired: Fields)
    requires StaleNested(cur, desired)
    ensures NeedsWrite(cur, desired)
  {
    var k :| k in desired && StaleNull(At(cur, k), desired[k]);
    PayloadAt(cur, desired, k);
    StaleDiffers(At(cur, k), desired[k]);
    StripEqualIsSameKept(cur, Payload(cur, desired));
  }

  /** The stored config after `n` syncs of the same desired config. */
  function SyncTimes(accept: (Fields, Fields) -> Fields, cur: Fields, desired: Fields, n: nat): Fields
  {
    if n == 0 then cur
    else
      var held := SyncTimes(accept, cur, desired, n - 1);
      if NeedsWrite(held, desired) then accept(held, Payload(held, desired)) else held
  }

  lemma {:induction false} MergingStaysStale(accept: (Fields, Fields) -> Fields, cur: Fields, desired: Fields, n: nat)
    requires Merging(accept) && StaleNested(cur, desired)
    ensures StaleNested(SyncTimes(accept, cur, desired, n), desired)
  {
    if n > 0 {
      MergingStaysStale(accept, cur, desired, n - 1);
      var held := SyncTimes(accept, cur, desired, n - 1);
      StaleNestedNeedsWrite(held, desired);
      var k :| k in desired && StaleNull(At(held, k), desired[k]);
      var sent := Payload(held, desired);
      PayloadAt(held, desired, k);
      MergeAt(Obj(held), sent, k);
      StalePersists(At(held, k), desired[k]);
      var stored := accept(held, sent);
      assert At(stored, k) == MergePatch(At(held, k), MergePatch(At(held, k), desired[k]));
    }
  }

  lemma {:induction false} MergingStaysSettled(accept: (Fields, Fields) -> Fields, cur: Fields, desired: Fields, n: nat)
    requires Merging(accept) && !StaleNested(cur, desired) && n > 0
    ensures !NeedsWrite(SyncTimes(accept, cur, desired, n), desired)
  {
    if n == 1 {
      assert SyncTimes(accept, cur, desired, 0) == cur;
      MergingGatewaySettles(cur, desired);
    } else {
      MergingStaysSettled(accept, cur, desired, n - 1);
    }
  }

  /** After any number of syncs a merge-patching gateway has fallen silent if and only if
      no nested null of the desired config met a stored member at the start: otherwise
      every single sync writes. */
  lemma MergingSettlesIff(accept: (Fields, Fields) -> Fields, cur: Fields, desired: Fields, n: nat)
    requires Merging(accept) && n > 0
    ensures !NeedsWrite(SyncTimes(accept, cur, desired, n), desired) <==> !StaleNested(cur, desired)
  {
    if StaleNested(cur, desired) {
      MergingStaysStale(accept, cur, desired, n);
      StaleNestedNeedsWrite(SyncTimes(accept, cur, desired, n), desired);
    } else {
      MergingStaysSettled(accept, cur, desired, n);
    }
  }

  /** An input on which it never settles. */
  lemma NestedNullNeverSettles(accept: (Fields, Fields) -> Fields, n: nat)
    requires Merging(accept)
    ensures var stored := map["a" := Obj(map["x" := Num(1.0)])];
            var desired := map["a" := Obj(map["x" := Null])];
            NeedsWrite(SyncTimes(accept, stored, desired, n), desired)
  {
    var stored := map["a" := Obj(map["x" := Num(1.0)])];
    var desired := map["a" := Obj(map["x" := Null])];
    assert StaleMember(stored["a"], desired["a"], "x");
    assert StaleNull(At(stored, "a"), desired["a"]);
    MergingStaysStale(accept, stored, desired, n);
    StaleNestedNeedsWrite(SyncTimes(accept, stored, desired, n), desired);
  }

  /** No null inside an object; what arrays hold is replaced whole and does not matter. */
  predicate NullFree(v: Json)
  {
    v.Obj? ==> forall k :: k in v.fields ==> v.fields[k] != Null && NullFree(v.fields[k])
  }

  lemma {:induction false} NullFreeIsNeverStale(c: Json, v: Json)
    requires NullFree(v)
    ensures !StaleNull(c, v)
    decreases v
  {
    if c.Obj? && v.Obj? {
      forall k | k in v.fields ensures !StaleMember(c, v, k) {
        NullFreeIsNeverStale(At(c.fields, k), v.fields[k]);
      }
    }
  }

  // ----- the gateway object and one plugin's sync -----

  datatype PluginRow = PluginRow(consumer: Option<string>, config: Fields)

  datatype Fault = NoFault | GetFails | CreateFails | UpdateFails

  class Plugin {
    const instanceName: string
    const consumer: Option<string>
    var config: Fields

    constructor (instanceName: string, consumer: Option<string>, config: Fields)
      ensures this.instanceName == instanceName && this.consumer == consumer && this.config == config
    {
      this.instanceName := instanceName;
      this.consumer := consumer;
      this.config := config;
    }
  }

  /** What a plugin row becomes when `desired` is synced onto it. */
  function SyncedRow(
    accept: (Fields, Fields) -> Fields, held: map<string, PluginRow>,
    name: string, consumer: Option<string>, desired: Fields
  ): PluginRow
  {
    if name !in held then
      PluginRow(consumer, accept(map[], desired))
    else if NeedsWrite(held[name].config, desired) then
      held[name].(config := accept(held[name].config, Payload(held[name].config, desired)))
    else
      held[name]
  }

  predicate Managed(name: string)
  {
    "neutree-ai-access-" <= name || "neutree-ai-quota-" <= name
  }

  /** The gateway after every desired plugin is synced. */
  function SyncedAll(
    accept: (Fields, Fields) -> Fields, held: map<string, PluginRow>,
    consumer: string, desired: map<string, Fields>
  ): map<string, PluginRow>
  {
    map n | n in held.Keys + desired.Keys ::
      if n in desired then SyncedRow(accept, held, n, Some(consumer), desired[n]) else held[n]
  }

  /** The gateway without the consumer's managed plugins that are not desired. */
  function Pruned(held: map<string, PluginRow>, consumer: string, desired: set<string>): map<string, PluginRow>
  {
    map n | n in held && (n in desired || !(Managed(n) && held[n].consumer == Some(consumer))) :: held[n]
  }

  /** Nothing but plugins due for pruning has gone. */
  ghost predicate PartlyPruned(held: map<string, PluginRow>, after: map<string, PluginRow>,
                               consumer: string, desired: set<string>)
  {
    && (forall n :: n in after ==> n in held && after[n] == held[n])
    && (forall n :: n in Pruned(held, consumer, desired) ==> n in after)
  }

  ghost predicate PartOf(done: map<string, Fields>, desired: map<string, Fields>)
  {
    forall n :: n in done ==> n in desired && done[n] == desired[n]
  }

  lemma SyncedAllStep(accept: (Fields, Fields) -> Fields, held: map<string, PluginRow>,
                      consumer: string, done: map<string, Fields>, n: string, config: Fields)
    requires n !in done
    ensures SyncedAll(accept, held, consumer, done[n := config])
         == var sofar := SyncedAll(accept, held, consumer, done);
            sofar[n := SyncedRow(accept, sofar, n, Some(consumer), config)]
  {
    var sofar := SyncedAll(accept, held, consumer, done);
    assert n in sofar <==> n in held;
    assert SyncedRow(accept, sofar, n, Some(consumer), config)
        == SyncedRow(accept, held, n, Some(consumer), config);
    assert SyncedAll(accept, held, consumer, done[n := config])
        == sofar[n := SyncedRow(accept, sofar, n, Some(consumer), config)];
  }

  class Kong {
    const accept: (Fields, Fields) -> Fields
    var plugins: map<string, PluginRow>

    constructor (accept: (Fields, Fields) -> Fields, plugins: map<string, PluginRow>)
      ensures this.accept == accept && this.plugins == plugins
    {
      this.accept := accept;
      this.plugins := plugins;
    }

    /** `syncPlugin`: get, create when missing, else merge in place, normalise both
        sides and update only when they differ. */
    method SyncPlugin(plugin: Plugin, fault: Fault) returns (ok: bool)
      modifies this`plugins, plugin`config
      ensures plugins == if ok then
                old(plugins)[plugin.instanceName :=
                  SyncedRow(accept, old(plugins), plugin.instanceName, plugin.consumer, old(plugin.config))]
              else old(plugins)
      ensures plugin.config == if fault != GetFails && plugin.instanceName in old(plugins)
                               then Payload(old(plugins[plugin.instanceName].config), old(plugin.config))
                               else old(plugin.config)
      ensures fault == NoFault ==> ok
    {
      if fault == GetFails {
        return false;
      }
      var name := plugin.instanceName;
      if name !in plugins {
        if fault == CreateFails {
          return false;
        }
        plugins := plugins[name := PluginRow(plugin.consumer, accept(map[], plugin.config))];
        return true;
      }
      var cur := plugins[name];
      plugin.config := Payload(cur.config, plugin.config);
      var normalizedCur := StripEmpty(Obj(cur.config));
      var normalizedMerged := StripEmpty(Obj(plugin.config));
      if normalizedCur != normalizedMerged {
        if fault == UpdateFails {
          return false;
        }
        plugins := plugins[name := cur.(config := accept(cur.config, plugin.config))];
      }
      ok := true;
    }

    /** `syncAPIKeyLimitPlugins`: upsert the desired plugins, then prune this
        consumer's managed plugins that are not desired.  A failing call ends the sync
        after some of the desired plugins, or after all of them and some of the
        pruning. */
    method SyncLimitPlugins(consumer: string, desired: map<string, Fields>,
                            faults: map<string, Fault>, listed: bool, undeletable: set<string>)
      returns (ok: bool, ghost done: map<string, Fields>)
      modifies this`plugins
      ensures PartOf(done, desired)
      ensures (forall n :: n in faults ==> faults[n] == NoFault) && listed && undeletable == {} ==> ok
      ensures ok ==> plugins == Pruned(SyncedAll(accept, old(plugins), consumer, desired), consumer, desired.Keys)
      ensures !ok && done != desired ==> plugins == SyncedAll(accept, old(plugins), consumer, done)
      ensures !ok && done == desired ==>
                PartlyPruned(SyncedAll(accept, old(plugins), consumer, desired), plugins, consumer, desired.Keys)
    {
      ok, done := SyncDesired(consumer, desired, faults);
      if !ok {
        return;
      }
      ok := PruneStale(consumer, desired.Keys, listed, undeletable);
    }

    method SyncDesired(consumer: string, desired: map<string, Fields>, faults: map<string, Fault>)
      returns (ok: bool, ghost done: map<string, Fields>)
      modifies this`plugins
      ensures PartOf(done, desired) && (ok <==> done == desired)
      ensures (forall n :: n in faults ==> faults[n] == NoFault) ==> ok
      ensures plugins == SyncedAll(accept, old(plugins), consumer, done)
    {
      ghost var held := plugins;
      var todo := desired.Keys;
      done := map[];
      assert plugins == SyncedAll(accept, held, consumer, done);
      while todo != {}
        invariant todo <= desired.Keys && done.Keys == desired.Keys - todo && PartOf(done, desired)
        invariant plugins == SyncedAll(accept, held, consumer, done)
        decreases todo
      {
        var n :| n in todo;
        var plugin := new Plugin(n, Some(consumer), desired[n]);
        ok := SyncPlugin(plugin, if n in faults then faults[n] else NoFault);
        if !ok {
          assert n !in done;
          return;
        }
        SyncedAllStep(accept, held, consumer, done, n, desired[n]);
        todo := todo - {n};
        done := done[n := desired[n]];
      }
      ok := true;
    }

    method PruneStale(consumer: string, desired: set<string>, listed: bool, undeletable: set<string>) returns (ok: bool)
      modifies this`plugins
      ensures listed && undeletable == {} ==> ok
      ensures ok ==> plugins == Pruned(old(plugins), consumer, desired)
      ensures PartlyPruned(old(plugins), plugins, consumer, desired)
    {
      if !listed {
        return false;
      }
      ghost var synced := plugins;
      var todo := set n | n in plugins && plugins[n].consumer == Some(consumer);
      while todo != {}
        invariant todo <= plugins.Keys <= synced.Keys
        invariant forall n :: n in plugins ==> plugins[n] == synced[n]
        invariant forall n :: n in synced ==>
          (n in plugins <==> n in todo || n in desired || !(Managed(n) && synced[n].consumer == Some(consumer)))
        decreases todo
      {
        var n :| n in todo;
        if Managed(n) && n !in desired {
          if n in undeletable {
            return false;
          }
          plugins := plugins - {n};
        }
        todo := todo - {n};
      }
      assert plugins == Pruned(synced, consumer, desired);
      ok := true;
    }
  }

  // ----- API key access limits -----

  datatype AllowedModel = AllowedModel(model: string, kind: string, endpointName: string)

  datatype Limits = Limits(
    disabled: bool,
    allowedModels: Option<seq<AllowedModel>>,
    concurrency: int,
    rps: int,
    rpm: int,
    tokenQuota: Option<int>)

  function ModelJson(m: AllowedModel): Json
  {
    Obj(map["model" := Str(m.model)]
        + (if m.kind == "" then map[] else map["type" := Str(m.kind)])
        + (if m.endpointName == "" then map[] else map["endpoint_name" := Str(m.endpointName)]))
  }

  function RateJson(limit: int, window: string): Json
  {
    Obj(map["limit" := Num(limit as real), "window" := Str(window)])
  }

  function RateLimits(l: Limits): Json
  {
    Arr((if l.rps > 0 then [RateJson(l.rps, "second")] else [])
        + (if l.rpm > 0 then [RateJson(l.rpm, "minute")] else []))
  }

  function AllowedModelsJson(l: Limits): Json
  {
    match l.allowedModels
    case None => Null
    case Some(ms) => Arr(seq(|ms|, i requires 0 <= i < |ms| => ModelJson(ms[i])))
  }

  predicate AccessLimited(l: Limits)
  {
    l.disabled || l.allowedModels.Some? || l.concurrency > 0 || l.rps > 0 || l.rpm > 0
  }

  /** `generateAPIKeyAccessPlugin`'s config: every key is always present, with
      explicit off values. */
  function AccessConfig(l: Limits): Fields
  {
    map["disabled" := Bool(l.disabled),
        "allowed_models" := AllowedModelsJson(l),
        "concurrency" := Num((if l.concurrency > 0 then l.concurrency else 0) as real),
        "rate_limits" := RateLimits(l)]
  }

  /** The desired limit plugins of a key; `suffix` is the hash of its ID. */
  function DesiredLimits(limits: Option<Limits>, suffix: string, quota: Option<Fields>): map<string, Fields>
  {
    match limits
    case None => map[]
    case Some(l) =>
      (if AccessLimited(l) then map["neutree-ai-access-" + suffix := AccessConfig(l)] else map[])
      + (if quota.Some? && l.tokenQuota.Some? && l.tokenQuota.value > 0
         then map["neutree-ai-quota-" + suffix := quota.value] else map[])
  }

  // ----- what a generated access config says to whoever reads it -----

  /** The limit a list of rate limits sets for a window. */
  function RateIn(items: seq<Json>, window: string): Option<real>
  {
    if items == [] then None
    else
      var first := Members(items[0]);
      if At(first, "window") == Str(window) && At(first, "limit").Num? then Some(At(first, "limit").value)
      else RateIn(items[1..], window)
  }

  function RateOf(v: Json, window: string): Option<real>
  {
    if v.Arr? then RateIn(v.items, window) else None
  }

  function TextAt(v: Json, k: string): string
  {
    var t := At(Members(v), k);
    if t.Str? then t.text else ""
  }

  function ModelOf(v: Json): AllowedModel
  {
    AllowedModel(TextAt(v, "model"), TextAt(v, "type"), TextAt(v, "endpoint_name"))
  }

  function Positive(n: int): Option<real>
  {
    if n > 0 then Some(n as real) else None
  }

  /** The generated rate limits set the key's limits per second and per minute, where they
      are positive, and nothing for any other window. */
  lemma RatesReadBack(l: Limits, window: string)
    ensures RateOf(RateLimits(l), window)
         == if window == "second" then Positive(l.rps) else if window == "minute" then Positive(l.rpm) else None
  {
    var minutes := if l.rpm > 0 then [RateJson(l.rpm, "minute")] else [];
    RateHead(l.rpm, "minute", [], window);
    RateHead(l.rps, "second", minutes, window);
    assert [RateJson(l.rpm, "minute")] + [] == [RateJson(l.rpm, "minute")];
    assert RateLimits(l).items == if l.rps > 0 then [RateJson(l.rps, "second")] + minutes else minutes;
  }

  lemma RateHead(limit: int, w: string, rest: seq<Json>, window: string)
    ensures RateIn([RateJson(limit, w)] + rest, window)
         == if w == window then Some(limit as real) else RateIn(rest, window)
  {
    assert ([RateJson(limit, w)] + rest)[1..] == rest;
    assert Members(RateJson(limit, w)) == map["limit" := Num(limit as real), "window" := Str(w)];
  }

  /** The generated list of models reads back as the key's list, in order. */
  lemma ModelsReadBack(l: Limits)
    requires l.allowedModels.Some?
    ensures AllowedModelsJson(l).Arr? && |AllowedModelsJson(l).items| == |l.allowedModels.value|
    ensures forall i :: 0 <= i < |l.allowedModels.value| ==> ModelOf(AllowedModelsJson(l).items[i]) == l.allowedModels.value[i]
  {
    forall i | 0 <= i < |l.allowedModels.value| ensures ModelOf(AllowedModelsJson(l).items[i]) == l.allowedModels.value[i] {
      ModelReadsBack(l.allowedModels.value[i]);
    }
  }

  lemma ModelReadsBack(m: AllowedModel)
    ensures ModelOf(ModelJson(m)) == m
    ensures "type" in ModelJson(m).fields <==> m.kind != ""
    ensures "endpoint_name" in ModelJson(m).fields <==> m.endpointName != ""
  {
  }

  const UNLIMITED := Limits(false, None, 0, 0, 0, None)

  /** A key is limited exactly when its config differs from that of a key without limits. */
  lemma LimitedIffConfigDiffers(l: Limits)
    ensures AccessLimited(l) <==> AccessConfig(l) != AccessConfig(UNLIMITED)
  {
    var a, b := AccessConfig(l), AccessConfig(UNLIMITED);
    RatesReadBack(l, "second");
    RatesReadBack(l, "minute");
    RatesReadBack(UNLIMITED, "second");
    RatesReadBack(UNLIMITED, "minute");
    if a == b {
      assert a["disabled"] == b["disabled"];
      assert a["allowed_models"] == b["allowed_models"];
      assert a["concurrency"] == b["concurrency"];
      assert a["rate_limits"] == b["rate_limits"];
    }
    assert !AccessLimited(l) ==> RateLimits(l) == RateLimits(UNLIMITED);
  }

  /** The quota plugin is desired exactly when the key has a positive token quota and the
      gateway is set up for quotas. */
  lemma QuotaDesiredIff(limits: Option<Limits>, suffix: string, quota: Option<Fields>)
    ensures var name := "neutree-ai-quota-" + suffix;
            var desired := DesiredLimits(limits, suffix, quota);
            && (name in desired <==>
                  quota.Some? && limits.Some? && limits.value.tokenQuota.Some? && limits.value.tokenQuota.value > 0)
            && (name in desired ==> desired[name] == quota.value)
            && forall n :: n in desired ==> n == name || n == "neutree-ai-access-" + suffix
  {
    assert ("neutree-ai-access-" + suffix)[11] == 'a' && ("neutree-ai-quota-" + suffix)[11] == 'q';
  }

  /** Gateways that store what they are sent, up to normalisation, or merge-patch it. */
  ghost predicate Replacing(accept: (Fields, Fields) -> Fields)
  {
    forall held, sent :: StripEqual(accept(held, sent), sent)
  }

  ghost predicate Merging(accept: (Fields, Fields) -> Fields)
  {
    forall held, sent :: accept(held, sent) == MergePatch(Obj(held), Obj(sent)).fields
  }

  /** A replacing gateway is never written twice for the same desired config. */
  lemma ReplacingSyncConverges(accept: (Fields, Fields) -> Fields, held: map<string, PluginRow>,
                               name: string, consumer: Option<string>, desired: Fields)
    requires Replacing(accept)
    ensures !NeedsWrite(SyncedRow(accept, held, name, consumer, desired).config, desired)
  {
    var stored := SyncedRow(accept, held, name, consumer, desired).config;
    if name !in held {
      CreatedLikePayload(desired, stored);
    } else if NeedsWrite(held[name].config, desired) {
      SecondSyncIsSilent(held[name].config, desired, stored);
    }
  }

  /** A merge-patching gateway is written again exactly when the first sync had to
      write and a nested null of the desired config met a stored member. */
  lemma MergingSyncConverges(accept: (Fields, Fields) -> Fields, held: map<string, PluginRow>,
                             name: string, consumer: Option<string>, desired: Fields)
    requires Merging(accept)
    ensures NeedsWrite(SyncedRow(accept, held, name, consumer, desired).config, desired)
       <==> name in held && NeedsWrite(held[name].config, desired) && StaleNested(held[name].config, desired)
  {
    var stored := SyncedRow(accept, held, name, consumer, desired).config;
    if name !in held {
      forall k ensures Kept(At(stored, k)) == Kept(At(desired, k)) {
        MergeAt(Obj(map[]), desired, k);
        if k in desired {
          FreshMergeKept(Null, desired[k]);
        }
      }
      StripEqualIsSameKept(stored, desired);
      CreatedLikePayload(desired, stored);
    } else {
      MergingGatewaySettles(held[name].config, desired);
    }
  }

  lemma CreatedLikePayload(desired: Fields, stored: Fields)
    requires StripEqual(stored, desired)
    ensures !NeedsWrite(stored, desired)
  {
    var first := Payload(map[], desired);
    forall k ensures Kept(At(first, k)) == Kept(At(desired, k)) {
      PayloadAt(map[], desired, k);
      if k in desired {
        FreshMergeKept(Null, desired[k]);
      }
    }
    StripEqualIsSameKept(first, desired);
    SecondSyncIsSilent(map[], desired, stored);
  }

  /** With no object among the desired values, either kind of gateway ends up
      holding, name by name, the desired values over what it held before. */
  lemma FlatSyncKept(accept: (Fields, Fields) -> Fields, held: map<string, PluginRow>,
                     name: string, consumer: Option<string>, desired: Fields, k: string)
    requires Replacing(accept) || Merging(accept)
    requires forall d :: d in desired ==> !desired[d].Obj?
    ensures var stored := SyncedRow(accept, held, name, consumer, desired).config;
            var before := if name in held then held[name].config else map[];
            Kept(At(stored, k)) == Kept(if k in desired then desired[k] else At(before, k))
  {
    var stored := SyncedRow(accept, held, name, consumer, desired).config;
    if name !in held {
      if Merging(accept) {
        MergeAt(Obj(map[]), desired, k);
      } else {
        StripEqualIsSameKept(stored, desired);
      }
    } else {
      var before := held[name].config;
      var sent := Payload(before, desired);
      PayloadAt(before, desired, k);
      if Merging(accept) {
        MergingGatewaySettles(before, desired);
      }
      assert StripEqual(stored, sent);
      StripEqualIsSameKept(stored, sent);
    }
  }

  /** A stored access config says what the key's current limits say. */
  ghost predicate Enforces(stored: Fields, l: Limits)
  {
    && At(stored, "disabled") == Bool(l.disabled)
    && At(stored, "concurrency") == Num((if l.concurrency > 0 then l.concurrency else 0) as real)
    && StripEmpty(At(stored, "rate_limits")) == RateLimits(l)
    && (l.allowedModels.None? ==> Kept(At(stored, "allowed_models")) == None)
    && (l.allowedModels.Some? ==>
          StripEmpty(At(stored, "allowed_models")) == AllowedModelsJson(l))
  }

  /** After a sync the consumer's managed plugins are exactly the desired ones and
      every plugin that is not a managed plugin of this consumer is untouched. */
  lemma LimitSyncPrunes(accept: (Fields, Fields) -> Fields, held: map<string, PluginRow>,
                        consumer: string, desired: map<string, Fields>)
    requires forall n :: n in desired ==> Managed(n)
    requires forall n :: n in held && n in desired ==> held[n].consumer == Some(consumer)
    ensures var after := Pruned(SyncedAll(accept, held, consumer, desired), consumer, desired.Keys);
            && (forall n :: n in desired <==> n in after && after[n].consumer == Some(consumer) && Managed(n))
            && (forall n :: n in held && !(Managed(n) && held[n].consumer == Some(consumer)) ==>
                  n in after && after[n] == held[n])
            && (forall n :: n in after ==> n in held || n in desired)
  {
    var synced := SyncedAll(accept, held, consumer, desired);
    forall n | n in desired ensures synced[n].consumer == Some(consumer) {
      assert synced[n] == SyncedRow(accept, held, n, Some(consumer), desired[n]);
    }
  }

  /** Pruning that a failing call cut short leads, once it is finished, to what an
      uninterrupted one leaves. */
  lemma PruningResumes(synced: map<string, PluginRow>, mid: map<string, PluginRow>,
                       consumer: string, desired: set<string>)
    requires PartlyPruned(synced, mid, consumer, desired)
    ensures Pruned(mid, consumer, desired) == Pruned(synced, consumer, desired)
  {
    var done := Pruned(mid, consumer, desired);
    forall n ensures n in done <==> n in Pruned(synced, consumer, desired) {
      if n in Pruned(synced, consumer, desired) {
        assert n in mid;
      }
    }
    assert done == Pruned(synced, consumer, desired);
  }

  /** Managed plugins are those named after a key by the access or the quota prefix. */
  lemma ManagedIff(name: string)
    ensures Managed(name) <==>
      exists suffix :: name == "neutree-ai-access-" + suffix || name == "neutree-ai-quota-" + suffix
  {
    if "neutree-ai-access-" <= name {
      assert name == "neutree-ai-access-" + name[|"neutree-ai-access-"|..];
    } else if "neutree-ai-quota-" <= name {
      assert name == "neutree-ai-quota-" + name[|"neutree-ai-quota-"|..];
    }
  }

  predicate IsAccess(name: string)
  {
    "neutree-ai-access-" <= name
  }

  /** What a sync of the key's limit plugins leaves on the gateway. */
  function AfterLimitSync(accept: (Fields, Fields) -> Fields, held: map<string, PluginRow>, consumer: string,
                          suffix: string, limits: Option<Limits>, quota: Option<Fields>): map<string, PluginRow>
  {
    var desired := DesiredLimits(limits, suffix, quota);
    Pruned(SyncedAll(accept, held, consumer, desired), consumer, desired.Keys)
  }

  lemma OnlyAccessDesired(limits: Option<Limits>, suffix: string, quota: Option<Fields>, n: string)
    requires IsAccess(n)
    ensures n in DesiredLimits(limits, suffix, quota) <==>
              limits.Some? && AccessLimited(limits.value) && n == "neutree-ai-access-" + suffix
    ensures n in DesiredLimits(limits, suffix, quota) ==>
              DesiredLimits(limits, suffix, quota)[n] == AccessConfig(limits.value)
  {
    assert n[11] == 'a' && ("neutree-ai-quota-" + suffix)[11] == 'q';
  }

  /** Whatever the gateway held for the key before, an access plugin of this consumer is
      there after the sync exactly when the key has an active access limit; it is the one
      named after the key, it enforces the current limits, and its config members outside
      the desired ones keep their value. */
  lemma LimitSyncEnforcesSpec(accept: (Fields, Fields) -> Fields, held: map<string, PluginRow>,
                              consumer: string, suffix: string, limits: Option<Limits>, quota: Option<Fields>)
    requires Replacing(accept) || Merging(accept)
    ensures var access := "neutree-ai-access-" + suffix;
            var limited := limits.Some? && AccessLimited(limits.value);
            var after := AfterLimitSync(accept, held, consumer, suffix, limits, quota);
            && (forall n :: n in after && IsAccess(n) && after[n].consumer == Some(consumer) ==> limited && n == access)
            && (limited ==>
                  && access in after
                  && (access in held || after[access].consumer == Some(consumer))
                  && Enforces(after[access].config, limits.value)
                  && (access in held ==>
                        && after[access].consumer == held[access].consumer
                        && forall k :: k !in AccessConfig(limits.value) ==>
                             Kept(At(after[access].config, k)) == Kept(At(held[access].config, k))))
  {
    var desired := DesiredLimits(limits, suffix, quota);
    var access := "neutree-ai-access-" + suffix;
    forall n | IsAccess(n) ensures Managed(n) && (n in desired ==> limits.Some? && AccessLimited(limits.value) && n == access) {
      OnlyAccessDesired(limits, suffix, quota, n);
    }
    if limits.Some? && AccessLimited(limits.value) {
      var synced := SyncedAll(accept, held, consumer, desired);
      var row := SyncedRow(accept, held, access, Some(consumer), AccessConfig(limits.value));
      OnlyAccessDesired(limits, suffix, quota, access);
      assert synced[access] == row;
      AccessRowEnforces(accept, held, access, consumer, limits.value);
    }
  }

  lemma AccessRowEnforces(accept: (Fields, Fields) -> Fields, held: map<string, PluginRow>,
                          access: string, consumer: string, l: Limits)
    requires Replacing(accept) || Merging(accept)
    ensures var stored := SyncedRow(accept, held, access, Some(consumer), AccessConfig(l)).config;
            && Enforces(stored, l)
            && (access in held ==> forall k :: k !in AccessConfig(l) ==>
                  Kept(At(stored, k)) == Kept(At(held[access].config, k)))
  {
    var stored := SyncedRow(accept, held, access, Some(consumer), AccessConfig(l)).config;
    var before := if access in held then held[access].config else map[];
    forall k ensures Kept(At(stored, k)) == Kept(if k in AccessConfig(l) then AccessConfig(l)[k] else At(before, k)) {
      FlatSyncKept(accept, held, access, Some(consumer), AccessConfig(l), k);
    }
    EnforcedFromKept(stored, l);
  }

  lemma EnforcedFromKept(stored: Fields, l: Limits)
    requires forall k :: k in AccessConfig(l) ==> Kept(At(stored, k)) == Kept(AccessConfig(l)[k])
    ensures Enforces(stored, l)
  {
    var cfg := AccessConfig(l);
    assert Kept(At(stored, "disabled")) == Kept(cfg["disabled"]);
    assert Kept(At(stored, "concurrency")) == Kept(cfg["concurrency"]);
    assert Kept(At(stored, "rate_limits")) == Kept(cfg["rate_limits"]);
    assert Kept(At(stored, "allowed_models")) == Kept(cfg["allowed_models"]);
    LimitsAreTidy(l);
    TidyStays(RateLimits(l));
    TidyStays(AllowedModelsJson(l));
  }

  lemma ModelIsTidy(m: AllowedModel)
    ensures Tidy(ModelJson(m))
  {
  }

  lemma RateIsTidy(limit: int, window: string)
    ensures Tidy(RateJson(limit, window))
  {
  }

  lemma LimitsAreTidy(l: Limits)
    ensures Tidy(RateLimits(l)) && Tidy(AllowedModelsJson(l))
  {
    RateIsTidy(l.rps, "second");
    RateIsTidy(l.rpm, "minute");
    if l.allowedModels.Some? {
      forall m | m in l.allowedModels.value ensures Tidy(ModelJson(m)) {
        ModelIsTidy(m);
      }
    }
  }

  /** A changed limit is always sent: if the stored access config does not enforce the
      key's limits, the sync writes. */
  lemma ChangedLimitIsSent(cur: Fields, l: Limits)
    ensures NeedsWrite(cur, AccessConfig(l)) <==> !Enforces(cur, l)
  {
    AccessIsTidy(l);
    NeedsWriteIff(cur, AccessConfig(l));
    if forall k :: k in AccessConfig(l) ==> Agrees(cur, k, AccessConfig(l)[k]) {
      EnforcesByMember(cur, l);
    }
    if Enforces(cur, l) {
      forall k | k in AccessConfig(l) ensures Agrees(cur, k, AccessConfig(l)[k]) {
        EnforcedMember(cur, l, k);
      }
    }
  }

  lemma AccessIsTidy(l: Limits)
    ensures forall k :: k in AccessConfig(l) ==> Tidy(AccessConfig(l)[k]) && AccessConfig(l)[k] != Obj(map[])
  {
    LimitsAreTidy(l);
  }

  lemma EnforcedMember(cur: Fields, l: Limits, k: string)
    requires Enforces(cur, l) && k in AccessConfig(l)
    ensures Agrees(cur, k, AccessConfig(l)[k])
  {
  }

  lemma EnforcesByMember(cur: Fields, l: Limits)
    requires forall k :: k in AccessConfig(l) ==> Agrees(cur, k, AccessConfig(l)[k])
    ensures Enforces(cur, l)
  {
    assert Agrees(cur, "disabled", AccessConfig(l)["disabled"]);
    assert Agrees(cur, "concurrency", AccessConfig(l)["concurrency"]);
    assert Agrees(cur, "rate_limits", AccessConfig(l)["rate_limits"]);
    assert Agrees(cur, "allowed_models", AccessConfig(l)["allowed_models"]);
  }

  // ----- what the gateway code generates -----

  datatype Upstream = Upstream(mapping: Json, scheme: string, host: string, port: int, path: string,
                               auth: Option<string>, internal: bool)

  /** The plugins the gateway code generates, with what goes into their configs. */
  datatype Generated =
    | KeyAuth
    | RewriteHeader(script: string)
    | HttpLog(url: string)
    | Acl(group: string)
    | AiGateway(routeType: string, prefix: string, name: string)
    | ExternalAiGateway(prefix: string, upstreams: seq<Upstream>, name: string)
    | Access(limits: Limits)
    | Quota(url: string, token: string)

  function UpstreamJson(u: Upstream): Json
  {
    Obj(map["model_mapping" := u.mapping, "scheme" := Str(u.scheme), "host" := Str(u.host),
            "port" := Num(u.port as real), "path" := Str(u.path),
            "auth_header" := if u.auth.Some? then Str(u.auth.value) else Null, "internal" := Bool(u.internal)])
  }

  const LOG_QUEUE: Json := Obj(map[
    "initial_retry_delay" := Num(0.1), "max_entries" := Num(10000.0), "max_coalescing_delay" := Num(1.0),
    "max_batch_size" := Num(1.0), "max_retry_time" := Num(60.0), "concurrency_limit" := Num(-1.0),
    "max_retry_delay" := Num(60.0)])

  function ConfigOf(g: Generated): Fields
  {
    match g
    case KeyAuth =>
      map["key_names" := Arr([Str("kong_apikey")]), "key_in_header" := Bool(true), "hide_credentials" := Bool(true),
          "key_in_query" := Bool(true), "run_on_preflight" := Bool(true)]
    case RewriteHeader(script) => map["access" := Arr([Str(script)])]
    case HttpLog(url) =>
      map["method" := Str("POST"), "http_endpoint" := Str(url), "content_type" := Str("application/json"),
          "timeout" := Num(10000.0), "keepalive" := Num(60000.0), "queue" := LOG_QUEUE]
    case Acl(group) => map["allow" := Arr([Str(group)]), "hide_groups_header" := Bool(true)]
    case AiGateway(routeType, prefix, name) =>
      map["route_type" := Str(routeType), "route_prefix" := Str(prefix),
          "endpoint_type" := Str("internal"), "endpoint_name" := Str(name)]
    case ExternalAiGateway(prefix, upstreams, name) =>
      map["route_prefix" := Str(prefix),
          "upstreams" := Arr(seq(|upstreams|, i requires 0 <= i < |upstreams| => UpstreamJson(upstreams[i]))),
          "endpoint_type" := Str("external"), "endpoint_name" := Str(name)]
    case Access(limits) => AccessConfig(limits)
    case Quota(url, token) =>
      map["api_url" := Str(url), "service_token" := Str(token), "cache_ttl" := Num(5.0)]
  }

  lemma GeneratedIsNullFree(g: Generated, k: string)
    requires k in ConfigOf(g)
    ensures NullFree(ConfigOf(g)[k])
  {
  }

  /** Every plugin the gateway code generates settles on a merge-patching gateway after
      one sync, whatever was stored before. */
  lemma GeneratedSettles(accept: (Fields, Fields) -> Fields, cur: Fields, g: Generated, n: nat)
    requires Merging(accept) && n > 0
    ensures !NeedsWrite(SyncTimes(accept, cur, ConfigOf(g), n), ConfigOf(g))
  {
    forall k | k in ConfigOf(g) ensures !StaleNull(At(cur, k), ConfigOf(g)[k]) {
      GeneratedIsNullFree(g, k);
      NullFreeIsNeverStale(At(cur, k), ConfigOf(g)[k]);
    }
    MergingSettlesIff(accept, cur, ConfigOf(g), n);
  }
}
