/** Merging an engine definition from the registry into the stored one.

    The value functions say what a merge means: existing versions stay in place and
    are patched, new ones follow in their own order.  The classes below update the
    existing objects in place, version by version, as the code does.
 */
module EngineMerge {
  import opened Basics
  import JsonTree

  datatype Image = Image(name: string, tag: string)

  type Schema = JsonTree.Fields

  type Templates = map<string, map<string, string>>

  /** Nil and empty image and template maps are one value.  A values schema is kept
      apart: an empty one overrides, a missing one does not. */
  datatype Version = Version(name: string, images: map<string, Image>, templates: Templates,
                             schema: Option<Schema>, tasks: seq<string>)

  datatype Spec = Spec(versions: seq<Version>, tasks: seq<string>)

  function AddTasks(a: seq<string>, b: seq<string>): (r: seq<string>)
    ensures a <= r
    ensures forall t :: t in r <==> t in a || t in b
    decreases |b|
  {
    if b == [] then a
    else
      var last := b[|b| - 1];
      assert b == b[..|b| - 1] + [last];
      var r := AddTasks(a, b[..|b| - 1]);
      if last in r then r else r + [last]
  }

  function Modes(t: Templates, clusterType: string): map<string, string>
  {
    if clusterType in t then t[clusterType] else map[]
  }

  function MergeTemplates(a: Templates, b: Templates): Templates
  {
    map k | k in a.Keys + b.Keys :: Modes(a, k) + Modes(b, k)
  }

  function MergeVersion(a: Version, b: Version): Version
  {
    Version(a.name, a.images + b.images, MergeTemplates(a.templates, b.templates),
            if b.schema.Some? then b.schema else a.schema, AddTasks(a.tasks, b.tasks))
  }

  predicate Named(vs: seq<Version>, name: string)
  {
    exists i :: 0 <= i < |vs| && vs[i].name == name
  }

  ghost predicate Distinct(vs: seq<Version>)
  {
    forall i, j :: 0 <= i < j < |vs| ==> vs[i].name != vs[j].name
  }

  /** The version of that name, of several the last. */
  function Find(vs: seq<Version>, name: string): Option<Version>
  {
    if vs == [] then None
    else if vs[|vs| - 1].name == name then Some(vs[|vs| - 1])
    else Find(vs[..|vs| - 1], name)
  }

  function PatchOne(v: Version, b: seq<Version>): Version
  {
    var patch := Find(b, v.name);
    if patch.Some? then MergeVersion(v, patch.value) else v
  }

  function Patch(a: seq<Version>, b: seq<Version>): (r: seq<Version>)
    ensures |r| == |a| && forall i :: 0 <= i < |a| ==> r[i] == PatchOne(a[i], b)
  {
    seq(|a|, i requires 0 <= i < |a| => PatchOne(a[i], b))
  }

  /** The versions of `b` whose names `a` lacks, in order. */
  function Added(a: seq<Version>, b: seq<Version>): seq<Version>
    decreases |b|
  {
    if b == [] then []
    else
      var r := Added(a, b[..|b| - 1]);
      if Named(a, b[|b| - 1].name) then r else r + [b[|b| - 1]]
  }

  function MergeVersions(a: seq<Version>, b: seq<Version>): seq<Version>
  {
    Patch(a, b) + Added(a, b)
  }

  function Merge(a: Spec, b: Spec): Spec
  {
    Spec(MergeVersions(a.versions, b.versions), AddTasks(a.tasks, b.tasks))
  }

  // Tasks

  lemma {:induction false} AddTasksAssociative(a: seq<string>, b: seq<string>, c: seq<string>)
    ensures AddTasks(AddTasks(a, b), c) == AddTasks(a, AddTasks(b, c))
    decreases |c|
  {
    if c != [] {
      var front, t := c[..|c| - 1], c[|c| - 1];
      AddTasksAssociative(a, b, front);
      var y := AddTasks(b, front);
      if t !in y {
        assert (y + [t])[..|y|] == y;
      }
    }
  }

  lemma {:induction false} AddKnownTasks(a: seq<string>, b: seq<string>)
    requires forall t :: t in b ==> t in a
    ensures AddTasks(a, b) == a
    decreases |b|
  {
    if b != [] {
      AddKnownTasks(a, b[..|b| - 1]);
    }
  }

  // Versions

  lemma UnionAssociative<V>(a: map<string, V>, b: map<string, V>, c: map<string, V>)
    ensures (a + b) + c == a + (b + c)
  {
  }

  lemma UnionSelf<V>(a: map<string, V>)
    ensures a + a == a
  {
  }

  lemma MergedModes(a: Templates, b: Templates, k: string)
    ensures Modes(MergeTemplates(a, b), k) == Modes(a, k) + Modes(b, k)
  {
  }

  lemma TemplatesAssociative(a: Templates, b: Templates, c: Templates)
    ensures MergeTemplates(MergeTemplates(a, b), c) == MergeTemplates(a, MergeTemplates(b, c))
  {
    var left, right := MergeTemplates(MergeTemplates(a, b), c), MergeTemplates(a, MergeTemplates(b, c));
    assert left.Keys == right.Keys;
    forall k | k in left ensures left[k] == right[k] {
      MergedModes(a, b, k);
      MergedModes(b, c, k);
      UnionAssociative(Modes(a, k), Modes(b, k), Modes(c, k));
    }
  }

  lemma MergeVersionAssociative(a: Version, b: Version, c: Version)
    ensures MergeVersion(MergeVersion(a, b), c) == MergeVersion(a, MergeVersion(b, c))
  {
    AddTasksAssociative(a.tasks, b.tasks, c.tasks);
    TemplatesAssociative(a.templates, b.templates, c.templates);
    UnionAssociative(a.images, b.images, c.images);
  }

  lemma MergeVersionSelf(v: Version)
    ensures MergeVersion(v, v) == v
  {
    AddKnownTasks(v.tasks, v.tasks);
    UnionSelf(v.images);
    forall k | k in v.templates ensures MergeTemplates(v.templates, v.templates)[k] == v.templates[k] {
      UnionSelf(v.templates[k]);
    }
  }

  lemma {:induction false} FindNamed(vs: seq<Version>, name: string)
    ensures Find(vs, name).Some? <==> Named(vs, name)
    ensures Find(vs, name).Some? ==> Find(vs, name).value in vs && Find(vs, name).value.name == name
  {
    if vs != [] {
      var front := vs[..|vs| - 1];
      FindNamed(front, name);
      if Named(front, name) {
        var i :| 0 <= i < |front| && front[i].name == name;
        assert vs[i].name == name;
      }
      if Named(vs, name) && vs[|vs| - 1].name != name {
        var i :| 0 <= i < |vs| && vs[i].name == name;
        assert front[i].name == name;
      }
    }
  }

  lemma {:induction false} FindDistinct(vs: seq<Version>, i: nat)
    requires Distinct(vs) && i < |vs|
    ensures Find(vs, vs[i].name) == Some(vs[i])
  {
    if i < |vs| - 1 {
      FindDistinct(vs[..|vs| - 1], i);
    }
  }

  lemma {:induction false} FindAppend(a: seq<Version>, b: seq<Version>, name: string)
    ensures Find(a + b, name) == if Find(b, name).Some? then Find(b, name) else Find(a, name)
    decreases |b|
  {
    if b == [] {
      assert a + b == a;
    } else {
      assert (a + b)[..|a + b| - 1] == a + b[..|b| - 1];
      FindAppend(a, b[..|b| - 1], name);
    }
  }

  lemma {:induction false} FindPatch(a: seq<Version>, b: seq<Version>, name: string)
    ensures Find(Patch(a, b), name) == if Find(a, name).None? then None else Some(PatchOne(Find(a, name).value, b))
  {
    if a != [] {
      var front := a[..|a| - 1];
      assert Patch(a, b)[..|a| - 1] == Patch(front, b);
      FindPatch(front, b, name);
    }
  }

  lemma {:induction false} FindAdded(a: seq<Version>, b: seq<Version>, name: string)
    ensures Find(Added(a, b), name) == if Named(a, name) then None else Find(b, name)
    decreases |b|
  {
    if b != [] {
      var front, last := b[..|b| - 1], b[|b| - 1];
      FindAdded(a, front, name);
      if !Named(a, last.name) {
        assert Added(a, b)[..|Added(a, b)| - 1] == Added(a, front);
      }
    }
  }

  /** Looking a name up in a merge merges what the two sides hold under it. */
  lemma FindMerged(a: seq<Version>, b: seq<Version>, name: string)
    ensures Find(MergeVersions(a, b), name)
         == match (Find(a, name), Find(b, name)) {
              case (None, y) => y
              case (x, None) => x
              case (Some(v), Some(w)) => Some(MergeVersion(v, w))
            }
  {
    FindAppend(Patch(a, b), Added(a, b), name);
    FindPatch(a, b, name);
    FindAdded(a, b, name);
    FindNamed(a, name);
    FindNamed(b, name);
  }

  lemma PatchAssociative(a: seq<Version>, b: seq<Version>, c: seq<Version>)
    ensures Patch(Patch(a, b), c) == Patch(a, MergeVersions(b, c))
  {
    forall i | 0 <= i < |a| ensures PatchOne(PatchOne(a[i], b), c) == PatchOne(a[i], MergeVersions(b, c)) {
      FindMerged(b, c, a[i].name);
      var x, y := Find(b, a[i].name), Find(c, a[i].name);
      if x.Some? && y.Some? {
        MergeVersionAssociative(a[i], x.value, y.value);
      }
    }
  }

  lemma {:induction false} PatchAdded(a: seq<Version>, b: seq<Version>, c: seq<Version>)
    ensures Patch(Added(a, b), c) == Added(a, Patch(b, c))
    decreases |b|
  {
    if b != [] {
      var front := b[..|b| - 1];
      PatchAdded(a, front, c);
      assert Patch(b, c)[..|b| - 1] == Patch(front, c);
    }
  }

  lemma {:induction false} AddedAppend(a: seq<Version>, b: seq<Version>, c: seq<Version>)
    ensures Added(a, b + c) == Added(a, b) + Added(a, c)
    decreases |c|
  {
    if c == [] {
      assert b + c == b;
    } else {
      assert (b + c)[..|b + c| - 1] == b + c[..|c| - 1];
      AddedAppend(a, b, c[..|c| - 1]);
    }
  }

  lemma NamedMerged(a: seq<Version>, b: seq<Version>, name: string)
    ensures Named(MergeVersions(a, b), name) <==> Named(a, name) || Named(b, name)
  {
    FindMerged(a, b, name);
    FindNamed(MergeVersions(a, b), name);
    FindNamed(a, name);
    FindNamed(b, name);
  }

  lemma {:induction false} AddedTwice(a: seq<Version>, b: seq<Version>, c: seq<Version>)
    ensures Added(MergeVersions(a, b), c) == Added(a, Added(b, c))
    decreases |c|
  {
    if c != [] {
      var front, last := c[..|c| - 1], c[|c| - 1];
      AddedTwice(a, b, front);
      NamedMerged(a, b, last.name);
      if !Named(b, last.name) {
        AddedAppend(a, Added(b, front), [last]);
      }
    }
  }

  lemma PatchAppend(a: seq<Version>, b: seq<Version>, c: seq<Version>)
    ensures Patch(a + b, c) == Patch(a, c) + Patch(b, c)
  {
  }

  lemma VersionsAssociative(x: seq<Version>, y: seq<Version>, z: seq<Version>)
    ensures MergeVersions(MergeVersions(x, y), z) == MergeVersions(x, MergeVersions(y, z))
  {
    calc {
      MergeVersions(MergeVersions(x, y), z);
    == { PatchAppend(Patch(x, y), Added(x, y), z); PatchAssociative(x, y, z); }
      Patch(x, MergeVersions(y, z)) + Patch(Added(x, y), z) + Added(MergeVersions(x, y), z);
    == { PatchAdded(x, y, z); AddedTwice(x, y, z); }
      Patch(x, MergeVersions(y, z)) + Added(x, Patch(y, z)) + Added(x, Added(y, z));
    == { AddedAppend(x, Patch(y, z), Added(y, z)); }
      MergeVersions(x, MergeVersions(y, z));
    }
  }

  lemma MergeAssociative(a: Spec, b: Spec, c: Spec)
    ensures Merge(Merge(a, b), c) == Merge(a, Merge(b, c))
  {
    AddTasksAssociative(a.tasks, b.tasks, c.tasks);
    VersionsAssociative(a.versions, b.versions, c.versions);
  }

  lemma {:induction false} NothingAdded(a: seq<Version>, b: seq<Version>)
    requires forall i :: 0 <= i < |b| ==> Named(a, b[i].name)
    ensures Added(a, b) == []
    decreases |b|
  {
    if b != [] {
      NothingAdded(a, b[..|b| - 1]);
    }
  }

  lemma MergeSelf(s: Spec)
    requires Distinct(s.versions)
    ensures Merge(s, s) == s
  {
    AddKnownTasks(s.tasks, s.tasks);
    forall i | 0 <= i < |s.versions| ensures PatchOne(s.versions[i], s.versions) == s.versions[i] {
      FindDistinct(s.versions, i);
      MergeVersionSelf(s.versions[i]);
    }
    assert Patch(s.versions, s.versions) == s.versions;
    NothingAdded(s.versions, s.versions);
  }

  /** Merging the same definition twice is merging it once. */
  lemma MergeIdempotent(a: Spec, b: Spec)
    requires Distinct(b.versions)
    ensures Merge(Merge(a, b), b) == Merge(a, b)
  {
    MergeAssociative(a, b, b);
    MergeSelf(b);
  }

  /** Under a name both sides have, everything new is taken over and whatever the new
      definition does not mention stays. */
  lemma MergeTakesOver(a: Spec, b: Spec, name: string)
    requires Find(a.versions, name).Some? && Find(b.versions, name).Some?
    ensures Find(Merge(a, b).versions, name).Some?
    ensures var v, w := Find(a.versions, name).value, Find(b.versions, name).value;
            var m := Find(Merge(a, b).versions, name).value;
            && (forall k :: k in w.images ==> k in m.images && m.images[k] == w.images[k])
            && (forall k :: k in v.images && k !in w.images ==> k in m.images && m.images[k] == v.images[k])
            && (forall t, k :: k in Modes(w.templates, t) ==>
                  k in Modes(m.templates, t) && Modes(m.templates, t)[k] == Modes(w.templates, t)[k])
            && (forall t, k :: k in Modes(v.templates, t) && k !in Modes(w.templates, t) ==>
                  k in Modes(m.templates, t) && Modes(m.templates, t)[k] == Modes(v.templates, t)[k])
            && m.schema == (if w.schema.Some? then w.schema else v.schema)
            && (forall t :: t in m.tasks <==> t in v.tasks || t in w.tasks)
  {
    FindMerged(a.versions, b.versions, name);
    var v, w := Find(a.versions, name).value, Find(b.versions, name).value;
    forall t ensures Modes(MergeTemplates(v.templates, w.templates), t) == Modes(v.templates, t) + Modes(w.templates, t) {
      MergedModes(v.templates, w.templates, t);
    }
  }

  lemma {:induction false} AddedNames(a: seq<Version>, b: seq<Version>)
    requires Distinct(b)
    ensures Distinct(Added(a, b))
    ensures forall i :: 0 <= i < |Added(a, b)| ==> Added(a, b)[i] in b && !Named(a, Added(a, b)[i].name)
    decreases |b|
  {
    if b != [] {
      var front, last := b[..|b| - 1], b[|b| - 1];
      AddedNames(a, front);
      var added := Added(a, front);
      forall i | 0 <= i < |added| ensures added[i].name != last.name {
        var j :| 0 <= j < |front| && front[j] == added[i];
        assert b[j].name != last.name;
      }
    }
  }

  /** Existing versions keep their places and names stay distinct. */
  lemma MergeKeepsOrder(a: Spec, b: Spec)
    requires Distinct(a.versions) && Distinct(b.versions)
    ensures var m := Merge(a, b).versions;
            && Distinct(m)
            && |m| >= |a.versions|
            && (forall i :: 0 <= i < |a.versions| ==> m[i].name == a.versions[i].name)
            && (forall name :: Named(m, name) <==> Named(a.versions, name) || Named(b.versions, name))
  {
    AddedNames(a.versions, b.versions);
    forall name ensures Named(Merge(a, b).versions, name) <==> Named(a.versions, name) || Named(b.versions, name) {
      NamedMerged(a.versions, b.versions, name);
    }
  }
}
