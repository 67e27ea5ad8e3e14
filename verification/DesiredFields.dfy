/** When a live object satisfies a desired one: every member the desired object
    names is there with a satisfying value, arrays agree in length and scalars are
    equal.  Members the desired object does not name are the server's business. */
module DesiredFields {
  import opened Basics
  import opened JsonTree

  predicate Contains(desired: Json, live: Json)
    decreases desired
  {
    match desired
    case Obj(d) =>
      live.Obj? && forall k :: k in d ==> k in live.fields && Contains(d[k], live.fields[k])
    case Arr(a) =>
      live.Arr? && |a| == |live.items| && forall i :: 0 <= i < |a| ==> Contains(a[i], live.items[i])
    case _ => desired == live
  }

  lemma {:induction false} ContainsReflexive(v: Json)
    ensures Contains(v, v)
  {
    match v
    case Obj(f) => forall k | k in f ensures Contains(f[k], f[k]) { ContainsReflexive(f[k]); }
    case Arr(a) => forall i | 0 <= i < |a| ensures Contains(a[i], a[i]) { ContainsReflexive(a[i]); }
    case _ =>
  }

  lemma {:induction false} ContainsTransitive(a: Json, b: Json, c: Json)
    requires Contains(a, b) && Contains(b, c)
    ensures Contains(a, c)
    decreases a
  {
    match a
    case Obj(f) =>
      forall k | k in f ensures k in c.fields && Contains(f[k], c.fields[k]) {
        ContainsTransitive(f[k], b.fields[k], c.fields[k]);
      }
    case Arr(s) =>
      forall i | 0 <= i < |s| ensures Contains(s[i], c.items[i]) {
        ContainsTransitive(s[i], b.items[i], c.items[i]);
      }
    case _ =>
  }

  lemma {:induction false} ContainsAntisymmetric(a: Json, b: Json)
    requires Contains(a, b) && Contains(b, a)
    ensures a == b
    decreases a
  {
    match a
    case Obj(f) =>
      forall k | k in f ensures f[k] == b.fields[k] { ContainsAntisymmetric(f[k], b.fields[k]); }
      assert f == b.fields;
    case Arr(s) =>
      forall i | 0 <= i < |s| ensures s[i] == b.items[i] { ContainsAntisymmetric(s[i], b.items[i]); }
      assert s == b.items;
    case _ =>
  }

  /** One step into a document. */
  datatype Hop = Name(name: string) | Index(index: nat)

  function Lookup(v: Json, path: seq<Hop>): Option<Json>
    decreases |path|
  {
    if path == [] then Some(v)
    else match path[0]
      case Name(k) => if v.Obj? && k in v.fields then Lookup(v.fields[k], path[1..]) else None
      case Index(i) => if v.Arr? && i < |v.items| then Lookup(v.items[i], path[1..]) else None
  }

  /** Two values of one kind: objects, arrays of one length, or equal scalars. */
  predicate Alike(a: Json, b: Json)
  {
    match a
    case Obj(_) => b.Obj?
    case Arr(s) => b.Arr? && |s| == |b.items|
    case _ => a == b
  }

  ghost predicate AlikeEverywhere(desired: Json, live: Json)
  {
    forall path :: Lookup(desired, path).Some? ==>
      Lookup(live, path).Some? && Alike(Lookup(desired, path).value, Lookup(live, path).value)
  }

  lemma {:induction false} ContainedPath(desired: Json, live: Json, path: seq<Hop>)
    requires Contains(desired, live) && Lookup(desired, path).Some?
    ensures Lookup(live, path).Some? && Alike(Lookup(desired, path).value, Lookup(live, path).value)
    decreases |path|
  {
    if path != [] {
      match path[0]
      case Name(k) => ContainedPath(desired.fields[k], live.fields[k], path[1..]);
      case Index(i) => ContainedPath(desired.items[i], live.items[i], path[1..]);
    }
  }

  /** A live document satisfies a desired one if and only if it has a value of the same
      kind at every path of the desired one: arrays of the same length, scalars equal. */
  lemma {:induction false} ContainsIffPaths(desired: Json, live: Json)
    ensures Contains(desired, live) <==> AlikeEverywhere(desired, live)
    decreases desired
  {
    if Contains(desired, live) {
      forall path | Lookup(desired, path).Some?
        ensures Lookup(live, path).Some? && Alike(Lookup(desired, path).value, Lookup(live, path).value)
      {
        ContainedPath(desired, live, path);
      }
    }
    if AlikeEverywhere(desired, live) {
      assert Lookup(desired, []).Some?;
      match desired
      case Obj(f) =>
        forall k | k in f ensures k in live.fields && Contains(f[k], live.fields[k]) {
          Below(desired, live, Name(k), f[k]);
          ContainsIffPaths(f[k], live.fields[k]);
        }
      case Arr(s) =>
        forall i | 0 <= i < |s| ensures Contains(s[i], live.items[i]) {
          Below(desired, live, Index(i), s[i]);
          ContainsIffPaths(s[i], live.items[i]);
        }
      case _ =>
    }
  }

  lemma Below(desired: Json, live: Json, hop: Hop, child: Json)
    requires AlikeEverywhere(desired, live) && Lookup(desired, [hop]) == Some(child)
    ensures Lookup(live, [hop]).Some? && AlikeEverywhere(child, Lookup(live, [hop]).value)
  {
    var there := Lookup(live, [hop]).value;
    forall path | Lookup(child, path).Some?
      ensures Lookup(there, path).Some? && Alike(Lookup(child, path).value, Lookup(there, path).value)
    {
      LookupHop(desired, hop, path);
      LookupHop(live, hop, path);
    }
  }

  lemma LookupHop(v: Json, hop: Hop, path: seq<Hop>)
    requires Lookup(v, [hop]).Some?
    ensures Lookup(v, [hop] + path) == Lookup(Lookup(v, [hop]).value, path)
  {
    assert [hop][1..] == [] && ([hop] + path)[1..] == path;
    match hop
    case Name(k) => assert Lookup(v.fields[k], []) == Some(v.fields[k]);
    case Index(i) => assert Lookup(v.items[i], []) == Some(v.items[i]);
  }

  /** Any live value other than the desired scalar at its path is drift, and so is a
      missing one. */
  lemma ScalarEditIsDrift(desired: Json, live: Json, path: seq<Hop>, scalar: Json)
    requires Lookup(desired, path) == Some(scalar) && !scalar.Obj? && !scalar.Arr?
    requires Lookup(live, path) != Some(scalar)
    ensures !Contains(desired, live)
  {
    if Contains(desired, live) {
      ContainedPath(desired, live, path);
    }
  }

  /** The server's view of an apply: applied members win, recursively, and all
      other members of the prior object stay. */
  function Overlay(prior: Json, applied: Json): Json
    decreases applied
  {
    match applied
    case Obj(a) =>
      var p := Members(prior);
      Obj(map k | k in p.Keys + a.Keys :: if k in a then Overlay(At(p, k), a[k]) else p[k])
    case _ => applied
  }

  /** An overlay satisfies what was applied and touches nothing else. */
  lemma {:induction false} OverlayContains(prior: Json, applied: Json)
    ensures Contains(applied, Overlay(prior, applied))
    ensures applied.Obj? ==>
              forall k :: k in Members(prior) && k !in applied.fields ==>
                k in Overlay(prior, applied).fields && Overlay(prior, applied).fields[k] == Members(prior)[k]
    decreases applied
  {
    match applied
    case Obj(a) =>
      forall k | k in a
        ensures k in Overlay(prior, applied).fields && Contains(a[k], Overlay(prior, applied).fields[k])
      {
        OverlayContains(At(Members(prior), k), a[k]);
      }
    case Arr(s) => ContainsReflexive(applied);
    case _ =>
  }

  datatype Key = Key(apiVersion: string, kind: string, namespace: string, name: string)

  /** A manifest: where it lives and all of its fields. */
  datatype Object = Object(key: Key, fields: Fields)

  /** An object with a spec is judged by its spec alone, any other as a whole. */
  predicate Covers(o: Object, live: Fields)
  {
    if "spec" in o.fields
    then "spec" in live && Contains(o.fields["spec"], live["spec"])
    else Contains(Obj(o.fields), Obj(live))
  }

  /** Where drift is looked for: in the spec if there is one, else in the whole object. */
  function Judged(f: Fields, hasSpec: bool): Json
  {
    if hasSpec then At(f, "spec") else Obj(f)
  }

  /** An object is drifted as soon as one scalar it asks for, at any depth, is missing or
      different in the live object. */
  lemma EditedFieldIsDrift(o: Object, live: Fields, path: seq<Hop>, scalar: Json)
    requires Lookup(Judged(o.fields, "spec" in o.fields), path) == Some(scalar) && !scalar.Obj? && !scalar.Arr?
    requires Lookup(Judged(live, "spec" in o.fields), path) != Some(scalar)
    ensures !Covers(o, live)
  {
    if "spec" !in o.fields || "spec" in live {
      ScalarEditIsDrift(Judged(o.fields, "spec" in o.fields), Judged(live, "spec" in o.fields), path, scalar);
    }
  }

  /** Whatever the server adds to a covering body still covers. */
  lemma CoversThrough(o: Object, body: Fields, live: Fields)
    requires Covers(o, body) && Contains(Obj(body), Obj(live))
    ensures Covers(o, live)
  {
    if "spec" in o.fields {
      ContainsTransitive(o.fields["spec"], body["spec"], live["spec"]);
    } else {
      ContainsTransitive(Obj(o.fields), Obj(body), Obj(live));
    }
  }

  const PAUSE: Json := Obj(map["spec" := Obj(map["replicas" := Num(0.0)])])

  /** Pausing a covering deployment leaves it covering exactly when the manifest
      asks for no replica count or for zero. */
  lemma PauseIsDrift(o: Object, spec: Fields, live: Fields)
    requires "spec" in o.fields && o.fields["spec"] == Obj(spec)
    requires Covers(o, live)
    ensures Covers(o, MergePatch(Obj(live), PAUSE).fields)
       <==> ("replicas" in spec ==> spec["replicas"] == Num(0.0))
  {
    var was := live["spec"].fields;
    var replicas := Obj(map["replicas" := Num(0.0)]);
    MergeAt(Obj(live), PAUSE.fields, "spec");
    assert At(MergePatch(Obj(live), PAUSE).fields, "spec") == MergePatch(live["spec"], replicas);
    var now := was["replicas" := Num(0.0)];
    assert MergePatch(live["spec"], replicas).fields == now;
    assert forall k :: k in spec && k != "replicas" ==> k in now && Contains(spec[k], now[k]);
    assert Covers(o, MergePatch(Obj(live), PAUSE).fields) <==> Contains(Obj(spec), Obj(now));
    assert "replicas" in spec ==> (Contains(spec["replicas"], Num(0.0)) <==> spec["replicas"] == Num(0.0));
  }

  function ObjectKey(k: Key): string
  {
    k.apiVersion + "/" + k.kind + "/" + k.namespace + "/" + k.name
  }

  /** The joined key names one object only: of its four parts the API version
      alone may hold the separator. */
  lemma ObjectKeyInjective(a: Key, b: Key)
    requires '/' !in a.kind + a.namespace + a.name
    requires '/' !in b.kind + b.namespace + b.name
    requires ObjectKey(a) == ObjectKey(b)
    ensures a == b
  {
    SplitLast(a.apiVersion + "/" + a.kind + "/" + a.namespace, a.name,
              b.apiVersion + "/" + b.kind + "/" + b.namespace, b.name);
    SplitLast(a.apiVersion + "/" + a.kind, a.namespace, b.apiVersion + "/" + b.kind, b.namespace);
    SplitLast(a.apiVersion, a.kind, b.apiVersion, b.kind);
  }

  lemma SplitLast(x: string, u: string, y: string, v: string)
    requires '/' !in u && '/' !in v
    requires x + "/" + u == y + "/" + v
    ensures x == y && u == v
  {
    var s := x + "/" + u;
    assert s[|x|] == '/' && s[|y|] == '/';
    assert |x| == |y|;
    assert x == s[..|x|] == y;
    assert u == s[|x| + 1..] == v;
  }
}
