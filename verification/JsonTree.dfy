/** JSON trees, the gateway's normaliser and JSON merge patch.

    `StripEmpty` follows internal/util/json.go.  `MergePatch` is the algorithm of
    section 2 of RFC 7396; a member that is missing from the target is treated like
    a non-object target, which `At` expresses by reading it as `Null`.
 */
module JsonTree {
  import opened Basics

  datatype Json =
    | Null
    | Bool(flag: bool)
    | Num(value: real)
    | Str(text: string)
    | Arr(items: seq<Json>)
    | Obj(fields: Fields)

  type Fields = map<string, Json>

  /** Drops null members and members whose cleaned value is the empty object.
      Array elements are cleaned but never dropped. */
  function StripEmpty(v: Json): Json
  {
    match v
    case Obj(f) =>
      Obj(map k | k in f && f[k] != Null && StripEmpty(f[k]) != Obj(map[]) :: StripEmpty(f[k]))
    case Arr(a) => Arr(seq(|a|, i requires 0 <= i < |a| => StripEmpty(a[i])))
    case _ => v
  }

  function MergePatch(target: Json, patch: Json): Json
    decreases patch
  {
    match patch
    case Obj(p) =>
      var t := Members(target);
      Obj(map k | k in t.Keys + p.Keys && !(k in p && p[k] == Null) ::
            if k in p then MergePatch(At(t, k), p[k]) else t[k])
    case _ => patch
  }

  function Members(v: Json): Fields
  {
    if v.Obj? then v.fields else map[]
  }

  function At(f: Fields, k: string): Json
  {
    if k in f then f[k] else Null
  }

  /** What normalisation leaves of a member's value: nothing for null and for
      anything that cleans to the empty object. */
  function Kept(v: Json): Option<Json>
  {
    if v == Null || StripEmpty(v) == Obj(map[]) then None else Some(StripEmpty(v))
  }

  ghost predicate SameKept(f: Fields, g: Fields)
  {
    forall k :: Kept(At(f, k)) == Kept(At(g, k))
  }

  ghost predicate StripEqual(f: Fields, g: Fields)
  {
    StripEmpty(Obj(f)) == StripEmpty(Obj(g))
  }

  /** Normalised equality is equality of what is kept under every name. */
  lemma StripEqualIsSameKept(f: Fields, g: Fields)
    ensures StripEqual(f, g) <==> SameKept(f, g)
    ensures Kept(Obj(f)) == Kept(Obj(g)) <==> SameKept(f, g)
  {
    var sf, sg := StripEmpty(Obj(f)).fields, StripEmpty(Obj(g)).fields;
    if sf == sg {
      forall k ensures Kept(At(f, k)) == Kept(At(g, k)) {
        assert k in sf <==> k in sg;
      }
    }
    if SameKept(f, g) {
      forall k ensures k in sf <==> k in sg {
        assert Kept(At(f, k)) == Kept(At(g, k));
      }
      forall k | k in sf ensures sf[k] == sg[k] {
        assert Kept(At(f, k)) == Kept(At(g, k));
      }
      assert sf == sg;
    }
  }

  /** Section 2 of RFC 7396 read member by member. */
  lemma MergeAt(target: Json, p: Fields, k: string)
    ensures MergePatch(target, Obj(p)).Obj?
    ensures At(MergePatch(target, Obj(p)).fields, k)
         == if k in p then MergePatch(At(Members(target), k), p[k]) else At(Members(target), k)
  {
  }

  lemma {:induction false} MergeIdempotent(target: Json, patch: Json)
    ensures MergePatch(MergePatch(target, patch), patch) == MergePatch(target, patch)
    decreases patch
  {
    if patch.Obj? {
      var once := MergePatch(target, patch);
      var twice := MergePatch(once, patch);
      forall k | k in patch.fields && patch.fields[k] != Null
        ensures twice.fields[k] == once.fields[k]
      {
        MergeIdempotent(At(Members(target), k), patch.fields[k]);
      }
      assert twice.fields == once.fields;
    }
  }

  /** Targets that normalise alike give results that normalise alike. */
  lemma {:induction false} MergeRespectsKept(a: Json, b: Json, patch: Json)
    requires Kept(a) == Kept(b)
    ensures Kept(MergePatch(a, patch)) == Kept(MergePatch(b, patch))
    decreases patch
  {
    if patch.Obj? {
      MembersRespectKept(a, b);
      var ma, mb := MergePatch(a, patch).fields, MergePatch(b, patch).fields;
      forall k ensures Kept(At(ma, k)) == Kept(At(mb, k)) {
        MergeAt(a, patch.fields, k);
        MergeAt(b, patch.fields, k);
        if k in patch.fields {
          MergeRespectsKept(At(Members(a), k), At(Members(b), k), patch.fields[k]);
        }
      }
      StripEqualIsSameKept(ma, mb);
    }
  }

  lemma MembersRespectKept(a: Json, b: Json)
    requires Kept(a) == Kept(b)
    ensures SameKept(Members(a), Members(b))
  {
    if Kept(a).None? {
      EmptyKeepsNothing(a);
      EmptyKeepsNothing(b);
    } else if a.Obj? {
      assert b.Obj?;
      StripEqualIsSameKept(a.fields, b.fields);
    }
  }

  lemma EmptyKeepsNothing(v: Json)
    requires Kept(v).None?
    ensures forall k :: Kept(At(Members(v), k)) == None
  {
    if v.Obj? {
      StripEqualIsSameKept(v.fields, map[]);
      assert StripEmpty(v).fields == map[];
      forall k ensures Kept(At(v.fields, k)) == Kept(At(map[], k)) {}
    }
  }

  /** Patching with a value the target already holds keeps it. */
  lemma {:induction false} SelfMergeKept(v: Json)
    ensures Kept(MergePatch(v, v)) == Kept(v)
  {
    if v.Obj? {
      var m := MergePatch(v, v).fields;
      forall k ensures Kept(At(m, k)) == Kept(At(v.fields, k)) {
        MergeAt(v, v.fields, k);
        if k in v.fields {
          SelfMergeKept(v.fields[k]);
        }
      }
      StripEqualIsSameKept(m, v.fields);
    }
  }

  /** Patching something that is not an object keeps exactly the patch. */
  lemma {:induction false} FreshMergeKept(target: Json, patch: Json)
    requires !target.Obj?
    ensures Kept(MergePatch(target, patch)) == Kept(patch)
    decreases patch
  {
    if patch.Obj? {
      var m := MergePatch(target, patch).fields;
      forall k ensures Kept(At(m, k)) == Kept(At(patch.fields, k)) {
        MergeAt(target, patch.fields, k);
        if k in patch.fields {
          FreshMergeKept(Null, patch.fields[k]);
        }
      }
      StripEqualIsSameKept(m, patch.fields);
    }
  }

  /** No object at any depth, inside arrays or not, has a null or empty-object member. */
  predicate Tidy(v: Json)
  {
    match v
    case Obj(f) => forall k :: k in f ==> f[k] != Null && f[k] != Obj(map[]) && Tidy(f[k])
    case Arr(a) => forall i :: 0 <= i < |a| ==> Tidy(a[i])
    case _ => true
  }

  /** Normalising leaves a tidy document as it is. */
  lemma {:induction false} TidyStays(v: Json)
    requires Tidy(v)
    ensures StripEmpty(v) == v
  {
    match v
    case Obj(f) =>
      forall k | k in f ensures StripEmpty(f[k]) == f[k] { TidyStays(f[k]); }
      assert StripEmpty(v).fields == f;
    case Arr(a) =>
      forall i | 0 <= i < |a| ensures StripEmpty(a[i]) == a[i] { TidyStays(a[i]); }
      assert StripEmpty(v).items == a;
    case _ =>
  }

  /** The normalised form of a document is tidy, so normalising again changes nothing. */
  lemma {:induction false} StripTidies(v: Json)
    ensures Tidy(StripEmpty(v))
    ensures StripEmpty(StripEmpty(v)) == StripEmpty(v)
  {
    if v.Obj? {
      var w := StripEmpty(v).fields;
      forall k | k in w ensures Tidy(w[k]) && w[k] != Null && w[k] != Obj(map[]) {
        StripTidies(v.fields[k]);
      }
    } else if v.Arr? {
      forall i | 0 <= i < |v.items| ensures Tidy(StripEmpty(v.items[i])) {
        StripTidies(v.items[i]);
      }
    }
    TidyStays(StripEmpty(v));
  }

  /** `part` is found inside `whole`: objects member by member, everything else equal. */
  predicate Within(part: Json, whole: Json)
    decreases part
  {
    if part.Obj? then whole.Obj? && forall k :: k in part.fields ==> k in whole.fields && Within(part.fields[k], whole.fields[k])
    else part == whole
  }

  /** Patching a document with a patch that holds no null changes nothing if and only if
      the patch is found inside it. */
  lemma {:induction false} MergeSilentIff(target: Json, patch: Json)
    requires Tidy(patch) && patch != Null
    ensures MergePatch(target, patch) == target <==> Within(patch, target)
    decreases patch
  {
    if patch.Obj? && target.Obj? {
      var merged := MergePatch(target, patch).fields;
      forall k | k in patch.fields
        ensures k in merged
        ensures k in target.fields ==> (merged[k] == target.fields[k] <==> Within(patch.fields[k], target.fields[k]))
      {
        MergeAt(target, patch.fields, k);
        if k in target.fields {
          MergeSilentIff(target.fields[k], patch.fields[k]);
        }
      }
      if Within(patch, target) {
        assert merged == target.fields;
      }
    }
  }

  lemma {:induction false} MergeTidy(target: Json, patch: Json)
    requires Tidy(target) && Tidy(patch) && patch != Null
    ensures Tidy(MergePatch(target, patch))
    ensures patch != Obj(map[]) ==> MergePatch(target, patch) != Null && MergePatch(target, patch) != Obj(map[])
    decreases patch
  {
    if patch.Obj? {
      var merged := MergePatch(target, patch).fields;
      forall k | k in merged ensures Tidy(merged[k]) && merged[k] != Null && merged[k] != Obj(map[]) {
        MergeAt(target, patch.fields, k);
        if k in patch.fields {
          MergeTidy(At(Members(target), k), patch.fields[k]);
        }
      }
      if patch.fields != map[] {
        var k :| k in patch.fields;
        MergeAt(target, patch.fields, k);
        assert k in merged;
      }
    }
  }
}
