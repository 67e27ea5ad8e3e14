/** The engine merge in place, and the workspace sync that runs it: every registry
    engine is created, or merged into its stored row and written back when the merge
    changed what the row serialises to. */
module EngineSync {
  import opened Basics
  import opened EngineMerge

  class EngineVersion {
    var version: string
    var images: map<string, Image>
    var templates: Templates
    var schema: Option<Schema>
    var tasks: seq<string>

    constructor (v: Version)
      ensures View() == v
    {
      version, images, templates, schema, tasks := v.name, v.images, v.templates, v.schema, v.tasks;
    }

    function View(): Version
      reads this
    {
      Version(version, images, templates, schema, tasks)
    }

    /** Merges `other` into this version; `other` stays as it is. */
    method MergeFrom(other: EngineVersion)
      requires other != this
      modifies this
      ensures View() == MergeVersion(old(View()), old(other.View()))
    {
      images := CopyInto(images, other.images);
      templates := CopyTemplates(templates, other.templates);
      if other.schema.Some? {
        schema := other.schema;
      }
      tasks := AppendMissing(tasks, other.tasks);
    }
  }

  method CopyInto<V>(target: map<string, V>, added: map<string, V>) returns (r: map<string, V>)
    ensures r == target + added
  {
    r := target;
    var todo := added.Keys;
    while todo != {}
      invariant todo <= added.Keys
      invariant forall k :: k in r <==> k in target || (k in added && k !in todo)
      invariant forall k :: k in r ==> r[k] == if k in added && k !in todo then added[k] else target[k]
      decreases |todo|
    {
      var key :| key in todo;
      r := r[key := added[key]];
      todo := todo - {key};
    }
    CopiedAll(target, added, r);
  }

  lemma CopiedAll<V>(target: map<string, V>, added: map<string, V>, r: map<string, V>)
    requires forall k :: k in r <==> k in target || k in added
    requires forall k :: k in r ==> r[k] == if k in added then added[k] else target[k]
    ensures r == target + added
  {
  }

  /** `r` is `a` merged with the cluster types of `b` outside `todo`. */
  ghost predicate MergedBut(a: Templates, b: Templates, todo: set<string>, r: Templates)
  {
    && (forall k :: k in r <==> k in a || (k in b && k !in todo))
    && (forall k :: k in r ==> r[k] == if k in todo then Modes(a, k) else Modes(a, k) + Modes(b, k))
  }

  lemma MergedNone(a: Templates, b: Templates)
    ensures MergedBut(a, b, b.Keys, a)
  {
    forall k | k in a && k !in b ensures a[k] == a[k] + Modes(b, k) {
    }
  }

  lemma MergedOneMore(a: Templates, b: Templates, todo: set<string>, r: Templates, k: string)
    requires MergedBut(a, b, todo, r) && k in todo && k in b
    ensures MergedBut(a, b, todo - {k}, r[k := Modes(r, k) + b[k]])
  {
    assert Modes(r, k) == Modes(a, k);
  }

  lemma MergedAll(a: Templates, b: Templates, r: Templates)
    requires MergedBut(a, b, {}, r)
    ensures r == MergeTemplates(a, b)
  {
  }

  method CopyTemplates(target: Templates, added: Templates) returns (r: Templates)
    ensures r == MergeTemplates(target, added)
  {
    r := target;
    var todo := added.Keys;
    MergedNone(target, added);
    while todo != {}
      invariant todo <= added.Keys
      invariant MergedBut(target, added, todo, r)
      decreases |todo|
    {
      var clusterType :| clusterType in todo;
      MergedOneMore(target, added, todo, r, clusterType);
      var modes := CopyInto(Modes(r, clusterType), added[clusterType]);
      r := r[clusterType := modes];
      todo := todo - {clusterType};
    }
    MergedAll(target, added, r);
  }

  method AppendMissing(tasks: seq<string>, added: seq<string>) returns (r: seq<string>)
    ensures r == AddTasks(tasks, added)
  {
    r := tasks;
    for i := 0 to |added|
      invariant r == AddTasks(tasks, added[..i])
    {
      assert added[..i + 1][..i] == added[..i];
      var found := false;
      for j := 0 to |r|
        invariant found <==> added[i] in r[..j]
      {
        if r[j] == added[i] {
          found := true;
          break;
        }
      }
      if !found {
        r := r + [added[i]];
      }
    }
    assert added[..|added|] == added;
  }

  /** How one more new version changes a merge: it patches the one existing version
      of its name in place, or goes to the end. */
  lemma MergeNext(a: seq<Version>, b: seq<Version>, v: Version)
    requires Distinct(a) && !Named(b, v.name)
    ensures var so := MergeVersions(a, b);
            && (!Named(a, v.name) ==> !Named(so, v.name) && MergeVersions(a, b + [v]) == so + [v])
            && forall k :: 0 <= k < |so| && so[k].name == v.name ==>
                 k < |a| && MergeVersions(a, b + [v]) == so[k := MergeVersion(so[k], v)]
  {
    var so, next := MergeVersions(a, b), MergeVersions(a, b + [v]);
    NamedMerged(a, b, v.name);
    assert (b + [v])[..|b|] == b;
    FindNamed(b, v.name);
    forall i | 0 <= i < |a| ensures PatchOne(a[i], b + [v]) == if a[i].name == v.name then MergeVersion(a[i], v) else PatchOne(a[i], b) {
      FindAppend(b, [v], a[i].name);
    }
    AddedElsewhere(a, b);
    forall k | 0 <= k < |so| && so[k].name == v.name ensures k < |a| && next == so[k := MergeVersion(so[k], v)] {
      assert so[k] !in b;
      assert so[k] == a[k];
      assert Named(a, v.name);
    }
    if !Named(a, v.name) {
      assert Patch(a, b + [v]) == Patch(a, b);
    }
  }

  lemma {:induction false} AddedElsewhere(a: seq<Version>, b: seq<Version>)
    ensures forall i :: 0 <= i < |Added(a, b)| ==> Added(a, b)[i] in b
    decreases |b|
  {
    if b != [] {
      AddedElsewhere(a, b[..|b| - 1]);
    }
  }

  /** The place of the first version of that name, or the end. */
  function FirstNamed(vs: seq<Version>, name: string): (k: nat)
    ensures k <= |vs|
    ensures k < |vs| ==> vs[k].name == name
    ensures forall i :: 0 <= i < k ==> vs[i].name != name
  {
    if vs == [] then 0
    else
      var k := FirstNamed(vs[..|vs| - 1], name);
      if k < |vs| - 1 || vs[k].name == name then k else |vs|
  }

  function MergeIn(vs: seq<Version>, v: Version): seq<Version>
  {
    var k := FirstNamed(vs, v.name);
    if k < |vs| then vs[k := MergeVersion(vs[k], v)] else vs + [v]
  }

  function MergeEach(a: seq<Version>, b: seq<Version>): seq<Version>
    decreases |b|
  {
    if b == [] then a else MergeIn(MergeEach(a, b[..|b| - 1]), b[|b| - 1])
  }

  /** Going through the new versions one by one amounts to the merge. */
  lemma {:induction false} MergeEachIsMerge(a: seq<Version>, b: seq<Version>)
    requires Distinct(a) && Distinct(b)
    ensures MergeEach(a, b) == MergeVersions(a, b)
    decreases |b|
  {
    if b == [] {
      assert Patch(a, b) == a;
    } else {
      var front, v := b[..|b| - 1], b[|b| - 1];
      MergeEachIsMerge(a, front);
      assert b == front + [v];
      MergeNext(a, front, v);
      var so := MergeVersions(a, front);
      var k := FirstNamed(so, v.name);
      NamedMerged(a, front, v.name);
    }
  }

  /** The objects `vs` hold the values `vals`. */
  ghost predicate Shows(vs: seq<EngineVersion>, vals: seq<Version>)
    reads vs
  {
    |vs| == |vals| && forall i :: 0 <= i < |vs| ==> vs[i].View() == vals[i]
  }

  ghost predicate Apart(vs: seq<EngineVersion>)
  {
    forall i, j :: 0 <= i < j < |vs| ==> vs[i] != vs[j]
  }

  class Engine {
    var versions: seq<EngineVersion>
    var tasks: seq<string>

    constructor (versions: seq<EngineVersion>, tasks: seq<string>)
      ensures this.versions == versions && this.tasks == tasks
    {
      this.versions, this.tasks := versions, tasks;
    }

    /** Merges one new version; an unmatched one is shared, not copied. */
    method MergeVersionIn(v: EngineVersion, ghost now: seq<Version>, ghost own: set<EngineVersion>)
      requires Apart(versions) && v !in versions && Shows(versions, now)
      requires forall e :: e in versions && e.version == v.version ==> e in own
      modifies this`versions, own
      ensures Shows(versions, MergeIn(now, old(v.View())))
      ensures versions == old(versions) || versions == old(versions) + [v]
    {
      for k := 0 to |versions|
        invariant versions == old(versions)
        invariant forall e :: e in versions ==> unchanged(e)
        invariant forall i :: 0 <= i < k ==> now[i].name != v.version
      {
        if versions[k].version == v.version {
          assert FirstNamed(now, v.version) == k;
          versions[k].MergeFrom(v);
          return;
        }
      }
      versions := versions + [v];
    }

    /** Merges a whole definition.  Nothing of `other` changes: its versions are
        disjoint from ours and named apart, so a version shared by the merge is never
        merged into again. */
    method MergeVersionsIn(theirs: seq<EngineVersion>, ghost mine: seq<Version>, ghost news: seq<Version>)
      requires Apart(versions) && Apart(theirs) && forall v :: v in theirs ==> v !in versions
      requires Shows(versions, mine) && Shows(theirs, news) && Distinct(news)
      modifies this`versions, versions
      ensures Shows(versions, MergeEach(mine, news))
      ensures Shows(theirs, news)
    {
      ghost var own, now := (set e | e in versions), mine;
      for i := 0 to |theirs|
        invariant Shows(theirs, news) && Apart(versions)
        invariant forall e :: e in versions ==> e in own || e in theirs[..i]
        invariant Shows(versions, now) && now == MergeEach(mine, news[..i])
      {
        var v := theirs[i];
        assert forall e :: e in theirs[..i] ==> e.version != v.version;
        MergeVersionIn(v, now, own);
        MergeEachNext(mine, news, i);
        now := MergeIn(now, news[i]);
      }
      assert news[..|theirs|] == news;
    }

    method MergeEngine(other: Engine, ghost mine: Spec, ghost news: Spec)
      requires Holds(this, mine) && Holds(other, news) && other != this
      requires Apart(versions) && Apart(other.versions) && forall v :: v in other.versions ==> v !in versions
      requires Distinct(mine.versions) && Distinct(news.versions)
      modifies this, versions
      ensures Holds(this, Merge(mine, news))
      ensures Holds(other, news)
    {
      MergeEachIsMerge(mine.versions, news.versions);
      MergeVersionsIn(other.versions, mine.versions, news.versions);
      tasks := AppendMissing(tasks, other.tasks);
    }
  }

  ghost predicate Holds(e: Engine, s: Spec)
    reads e, e.versions
  {
    Shows(e.versions, s.versions) && e.tasks == s.tasks
  }

  lemma MergeEachNext(a: seq<Version>, b: seq<Version>, i: nat)
    requires i < |b|
    ensures MergeEach(a, b[..i + 1]) == MergeIn(MergeEach(a, b[..i]), b[i])
  {
    assert b[..i + 1][..i] == b[..i];
  }

  // Storage: a row is the serialised spec, where an empty schema is left out.

  function StoredVersion(v: Version): Version
  {
    if v.schema == Some(map[]) then v.(schema := None) else v
  }

  function Stored(s: Spec): Spec
  {
    Spec(seq(|s.versions|, i requires 0 <= i < |s.versions| => StoredVersion(s.versions[i])), s.tasks)
  }

  /** What a sync of `e` sends to storage, if anything. */
  function Target(row: Option<Spec>, e: Spec): Option<Spec>
  {
    match row
    case None => Some(Stored(e))
    case Some(o) => if Stored(Merge(o, e)) == Stored(o) then None else Some(Stored(Merge(o, e)))
  }

  /** Two specs that say the same: a missing schema and an empty one are no difference. */
  ghost predicate SaysSame(s: Spec, t: Spec)
  {
    && s.tasks == t.tasks && |s.versions| == |t.versions|
    && forall i :: 0 <= i < |s.versions| ==>
         s.versions[i].(schema := None) == t.versions[i].(schema := None)
         && s.versions[i].schema.GetOr(map[]) == t.versions[i].schema.GetOr(map[])
  }

  /** Storage loses nothing that a spec says. */
  lemma StoredEqualIff(s: Spec, t: Spec)
    ensures Stored(s) == Stored(t) <==> SaysSame(s, t)
    ensures SaysSame(Stored(s), s)
  {
    if Stored(s) == Stored(t) {
      forall i | 0 <= i < |s.versions|
        ensures StoredVersion(s.versions[i]) == StoredVersion(t.versions[i])
      {
        assert Stored(s).versions[i] == Stored(t).versions[i];
      }
    }
    if SaysSame(s, t) {
      assert Stored(s).versions == Stored(t).versions;
    }
  }

  /** A sync sends something exactly when there is no row or the merge says something the
      row does not, and afterwards the row says what the merge says. */
  lemma SentIffNew(row: Option<Spec>, e: Spec)
    ensures Target(row, e).Some? <==> row.None? || !SaysSame(Merge(row.value, e), row.value)
    ensures row.None? ==> SaysSame(Target(row, e).value, e)
    ensures row.Some? ==> SaysSame(Target(row, e).GetOr(row.value), Merge(row.value, e))
  {
    StoredEqualIff(e, e);
    if row.Some? {
      StoredEqualIff(Merge(row.value, e), row.value);
      StoredEqualIff(row.value, Merge(row.value, e));
    }
  }

  lemma {:induction false} FindStored(a: seq<Version>, b: seq<Version>, name: string)
    requires |a| == |b| && forall i :: 0 <= i < |a| ==> b[i] == StoredVersion(a[i])
    ensures Named(a, name) <==> Named(b, name)
  {
    if Named(a, name) {
      var i :| 0 <= i < |a| && a[i].name == name;
      assert b[i].name == name;
    }
    if Named(b, name) {
      var i :| 0 <= i < |b| && b[i].name == name;
      assert a[i].name == name;
    }
  }

  lemma {:induction false} AddedToStored(a: seq<Version>, stored: seq<Version>, b: seq<Version>)
    requires |a| == |stored| && forall i :: 0 <= i < |a| ==> stored[i] == StoredVersion(a[i])
    ensures Added(stored, b) == Added(a, b)
    decreases |b|
  {
    if b != [] {
      AddedToStored(a, stored, b[..|b| - 1]);
      FindStored(a, stored, b[|b| - 1].name);
    }
  }

  /** Merging into what storage kept and merging into the original serialise alike. */
  lemma StoredMerge(a: Spec, b: Spec)
    ensures Stored(Merge(Stored(a), b)) == Stored(Merge(a, b))
  {
    var x, y := Merge(Stored(a), b).versions, Merge(a, b).versions;
    AddedToStored(a.versions, Stored(a).versions, b.versions);
    forall i | 0 <= i < |a.versions| ensures StoredVersion(x[i]) == StoredVersion(y[i]) {
      assert x[i] == PatchOne(StoredVersion(a.versions[i]), b.versions);
      assert y[i] == PatchOne(a.versions[i], b.versions);
    }
    assert |x| == |y| && forall i :: |a.versions| <= i < |x| ==> x[i] == y[i];
    assert Stored(Merge(Stored(a), b)).versions == Stored(Merge(a, b)).versions;
  }

  /** A row written by a sync is left alone by the next sync of the same definition. */
  lemma SecondSyncIsSilent(row: Option<Spec>, e: Spec)
    requires Distinct(e.versions) && Target(row, e).Some?
    ensures Target(Target(row, e), e).None?
  {
    match row
    case None =>
      StoredMerge(e, e);
      MergeSelf(e);
      StoredTwice(e);
    case Some(o) =>
      StoredMerge(Merge(o, e), e);
      MergeIdempotent(o, e);
      StoredTwice(Merge(o, e));
  }

  lemma StoredTwice(s: Spec)
    ensures Stored(Stored(s)) == Stored(s)
  {
  }

  lemma TargetDistinct(row: Option<Spec>, e: Spec)
    requires Distinct(e.versions) && (row.Some? ==> Distinct(row.value.versions))
    ensures Target(row, e).Some? ==> Distinct(Target(row, e).value.versions)
  {
    if row.Some? { MergeKeepsOrder(row.value, e); }
  }

  datatype Definition = Definition(name: string, spec: Spec)

  type Rows = map<string, Spec>

  function RowOf(rows: Rows, name: string): Option<Spec>
  {
    if name in rows then Some(rows[name]) else None
  }

  function SyncOne(rows: Rows, d: Definition): Rows
  {
    var target := Target(RowOf(rows, d.name), d.spec);
    if target.Some? then rows[d.name := target.value] else rows
  }

  function SyncAll(rows: Rows, registry: seq<Definition>): Rows
  {
    if registry == [] then rows
    else SyncOne(SyncAll(rows, registry[..|registry| - 1]), registry[|registry| - 1])
  }

  ghost predicate Registry(registry: seq<Definition>)
  {
    && (forall i :: 0 <= i < |registry| ==> Distinct(registry[i].spec.versions))
    && (forall i, j :: 0 <= i < j < |registry| ==> registry[i].name != registry[j].name)
  }

  /** After a successful workspace sync the next one, with the same registry content,
      sends nothing for any engine. */
  lemma {:induction false} SecondWorkspaceSyncIsSilent(rows: Rows, registry: seq<Definition>, i: nat)
    requires Registry(registry) && i < |registry|
    ensures var d := registry[i];
            Target(RowOf(SyncAll(rows, registry), d.name), d.spec).None?
  {
    var front, last := registry[..|registry| - 1], registry[|registry| - 1];
    var before := SyncAll(rows, front);
    if i < |front| {
      SecondWorkspaceSyncIsSilent(rows, front, i);
      assert registry[i].name != last.name;
    } else {
      var row := RowOf(before, last.name);
      if Target(row, last.spec).Some? {
        SecondSyncIsSilent(row, last.spec);
      }
    }
  }

  class Workspace {
    var rows: Rows
    var writes: nat

    /** Objects for a row read from storage. */
    method Load(spec: Spec) returns (e: Engine)
      ensures fresh(e) && fresh(e.versions)
      ensures Apart(e.versions) && Holds(e, spec)
    {
      var versions: seq<EngineVersion> := [];
      for i := 0 to |spec.versions|
        invariant fresh(versions)
        invariant Apart(versions) && Shows(versions, spec.versions[..i])
      {
        var v := new EngineVersion(spec.versions[i]);
        versions := versions + [v];
      }
      e := new Engine(versions, spec.tasks);
    }

    method Marshal(e: Engine) returns (s: Spec)
      ensures Holds(e, s)
    {
      var versions := [];
      for i := 0 to |e.versions|
        invariant Shows(e.versions[..i], versions)
      {
        versions := versions + [e.versions[i].View()];
      }
      s := Spec(versions, e.tasks);
    }

    method MergeRow(row: Spec, engine: Engine, ghost news: Spec) returns (final: Spec)
      requires Holds(engine, news) && Apart(engine.versions) && Distinct(news.versions) && Distinct(row.versions)
      ensures final == Merge(row, news)
    {
      var original := Load(row);
      original.MergeEngine(engine, row, news);
      final := Marshal(original);
      SameHeld(original, final, Merge(row, news));
    }

    /** Returns whether the sync succeeded; `listed` and `accepted` are the storage's
        answers to the read and to the write. */
    method CreateOrUpdateEngine(name: string, engine: Engine, ghost news: Spec, listed: bool, accepted: bool)
      returns (ok: bool)
      requires Holds(engine, news) && Apart(engine.versions) && Distinct(news.versions)
      requires name in rows ==> Distinct(rows[name].versions)
      modifies this
      ensures ok == (listed && (Target(RowOf(old(rows), name), news).None? || accepted))
      ensures rows == if ok then SyncOne(old(rows), Definition(name, news)) else old(rows)
      ensures writes == old(writes) + if listed && Target(RowOf(old(rows), name), news).Some? then 1 else 0
      ensures Holds(engine, news)
    {
      if !listed {
        return false;
      }
      var definition := Marshal(engine);
      SameHeld(engine, definition, news);
      if name !in rows {
        writes := writes + 1;
        if accepted {
          rows := rows[name := Stored(definition)];
        }
        return accepted;
      }
      var final := MergeRow(rows[name], engine, news);
      if Stored(final) == Stored(rows[name]) {
        return true;
      }
      writes := writes + 1;
      if accepted {
        rows := rows[name := Stored(final)];
      }
      return accepted;
    }
  }

  lemma SameHeld(e: Engine, s: Spec, t: Spec)
    requires Holds(e, s) && Holds(e, t)
    ensures s == t
  {
    assert s.versions == t.versions;
  }
}
