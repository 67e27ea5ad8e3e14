/** Declarative apply against a last-applied record.

    One pass compares the desired list with the record by spec hash, adds objects
    whose live form is missing or has drifted, applies those, withdraws what the
    record holds and the list no longer does, and saves the list as the new record.
    `Faults` says which API calls of a pass fail; a withdrawn object whose
    finalizers hold it back is `lingering` and stays as a terminating object.

    Deleting asks for every recorded object, requests the deletion of those found
    and erases the record only when nothing was found.
 */
module ManifestApply {
  import opened Basics
  import opened JsonTree
  import opened DesiredFields

  datatype Live = Live(fields: Fields, terminating: bool)

  type Server = map<Key, Live>

  /** What the code treats as given: the spec hash, the mutators and the server's
      answer to an apply over the object it already holds. */
  datatype Api = Api(hash: Json -> string, mutate: Object -> Fields, serve: (Option<Fields>, Fields) -> Fields)

  datatype Image = Image(live: Server, record: Option<seq<Object>>)

  /** `read` and `apply` name objects whose GET or apply fails, `save` is a failure to
      write or erase the record.  A call may fail although it took effect: `landed` names
      the failing applies that reached the server, `saveLanded` says so of the record. */
  datatype Faults = Faults(
    load: bool, read: set<Key>, apply: set<Key>, landed: set<Key>, stuck: set<Key>, lingering: set<Key>,
    save: bool, saveLanded: bool)

  /** A write to the record takes effect. */
  predicate Stores(f: Faults)
  {
    !f.save || f.saveLanded
  }

  datatype Outcome = Outcome(ok: bool, count: nat, sent: seq<Object>, gone: set<Key>)

  function Keys(objects: seq<Object>): set<Key>
  {
    set o | o in objects :: o.key
  }

  function Recorded(record: Option<seq<Object>>): set<Key>
  {
    if record.Some? then Keys(record.value) else {}
  }

  ghost predicate Distinct(objects: seq<Object>)
  {
    forall i, j :: 0 <= i < j < |objects| ==> objects[i].key != objects[j].key
  }

  function SpecHash(api: Api, o: Object): string
  {
    api.hash(if "spec" in o.fields then o.fields["spec"] else Obj(o.fields))
  }

  /** The record does not vouch for `o`. */
  predicate Renewed(api: Api, last: map<Key, Object>, o: Object)
  {
    o.key !in last || SpecHash(api, last[o.key]) != SpecHash(api, o)
  }

  predicate Astray(live: Server, o: Object)
  {
    o.key !in live || !Covers(o, live[o.key].fields)
  }

  /** The last object of each key, as filling a map in list order leaves it. */
  function Latest(objects: seq<Object>): (m: map<Key, Object>)
    ensures m.Keys == Keys(objects)
    ensures forall k :: k in m ==> m[k] in objects && m[k].key == k
  {
    if objects == [] then map[]
    else
      var last := objects[|objects| - 1];
      var front := objects[..|objects| - 1];
      assert objects == front + [last];
      Latest(front)[last.key := last]
  }

  function LatestOf(record: Option<seq<Object>>): map<Key, Object>
  {
    if record.Some? then Latest(record.value) else map[]
  }

  function Served(api: Api, live: Server, o: Object): Live
  {
    if o.key in live
    then Live(api.serve(Some(live[o.key].fields), api.mutate(o)), live[o.key].terminating)
    else Live(api.serve(None, api.mutate(o)), false)
  }

  function ApplyAll(api: Api, live: Server, objects: seq<Object>): Server
  {
    if objects == [] then live
    else
      var front := ApplyAll(api, live, objects[..|objects| - 1]);
      var o := objects[|objects| - 1];
      front[o.key := Served(api, front, o)]
  }

  /** Deletion requests for `keys`. */
  function Withdraw(live: Server, keys: set<Key>, f: Faults): Server
  {
    map k | k in live && (k in keys ==> k in f.stuck || k in f.lingering) ::
      if k in keys && k !in f.stuck then live[k].(terminating := true) else live[k]
  }

  function Diverging(api: Api, last: Option<seq<Object>>, live: Server, o: Object): bool
  {
    Renewed(api, LatestOf(last), o) || Astray(live, o)
  }

  /** What one round of manifests does to the server: the objects that reach it are
      diverging ones, under every key that diverges unless a call fails.  In a list that
      names each object once they are exactly the diverging objects. */
  ghost predicate ManifestPass(api: Api, before: Server, last: Option<seq<Object>>, desired: seq<Object>,
                               f: Faults, after: Server, out: Outcome)
  {
    && (forall o :: o in out.sent ==> o in desired && Diverging(api, last, before, o))
    && (Distinct(desired) ==> Distinct(out.sent))
    && out.gone == (if out.ok then Recorded(last) - Keys(desired) else {})
    && after == Withdraw(ApplyAll(api, before, out.sent), out.gone, f)
    && (out.ok ==>
          && out.count == |out.sent| + |out.gone|
          && (forall o :: o in desired && Diverging(api, last, before, o) ==> o.key in Keys(out.sent))
          && (Distinct(desired) ==> forall o :: o in desired && Diverging(api, last, before, o) ==> o in out.sent))
    && (!out.ok ==> out.count == 0 && exists o :: o in desired && o.key in f.read + f.apply)
    && (forall o :: o in out.sent && o.key in f.apply ==> !out.ok && o.key in f.landed)
  }

  /** One pass of the deployer: load the record, apply, save the record if anything
      was sent or withdrawn.  A record that cannot be loaded counts as none. */
  ghost predicate ApplyPass(api: Api, before: Image, desired: seq<Object>, f: Faults, after: Image, out: Outcome)
  {
    && ManifestPass(api, before.live, Loaded(before, f), desired, f, after.live, out)
    && after.record == (if out.ok && out.count > 0 && Stores(f) then Some(desired) else before.record)
  }

  function Loaded(image: Image, f: Faults): Option<seq<Object>>
  {
    if f.load then None else image.record
  }

  function Attempted(objects: seq<Object>, live: Server): set<Key>
  {
    set o | o in objects && o.key in live && !live[o.key].terminating :: o.key
  }

  predicate NoneLive(objects: seq<Object>, live: Server)
  {
    forall o :: o in objects ==> o.key !in live
  }

  /** One pass of the deployer's delete that examined `seen` recorded objects. */
  ghost predicate DeletePass(before: Image, f: Faults, after: Image, seen: nat, finished: bool, ok: bool)
  {
    if f.load then !ok && !finished && seen == 0 && after == before
    else if before.record.None? then ok && finished && seen == 0 && after == before
    else
      var recorded := before.record.value;
      && seen <= |recorded|
      && after.live == Withdraw(before.live, Attempted(recorded[..seen], before.live), f)
      && finished == NoneLive(recorded[..seen], before.live)
      && (ok ==> seen == |recorded|)
      && (!ok ==> seen < |recorded| && recorded[seen].key in f.read)
      && after.record == (if ok && finished && Stores(f) then None else before.record)
  }

  method IndexByKey(objects: seq<Object>) returns (index: map<Key, Object>)
    ensures index == Latest(objects)
  {
    index := map[];
    for i := 0 to |objects|
      invariant index == Latest(objects[..i])
    {
      assert objects[..i + 1][..i] == objects[..i];
      index := index[objects[i].key := objects[i]];
    }
    assert objects[..|objects|] == objects;
  }

  method ChangedObjects(api: Api, last: map<Key, Object>, desired: seq<Object>) returns (changed: seq<Object>)
    ensures forall o :: o in changed <==> o in desired && Renewed(api, last, o)
    ensures Distinct(desired) ==> Distinct(changed)
  {
    changed := [];
    for i := 0 to |desired|
      invariant forall o :: o in changed <==> o in desired[..i] && Renewed(api, last, o)
      invariant Distinct(desired) ==> Distinct(changed)
    {
      var o := desired[i];
      assert forall p :: p in changed && Distinct(desired) ==> p.key != o.key;
      if o.key !in last || SpecHash(api, o) != SpecHash(api, last[o.key]) {
        if Distinct(desired) { DistinctAppend(changed, o); }
        changed := changed + [o];
      }
    }
  }

  method DroppedKeys(last: map<Key, Object>, desired: seq<Object>) returns (deleted: set<Key>)
    ensures deleted == last.Keys - Keys(desired)
  {
    var wanted := {};
    for i := 0 to |desired|
      invariant wanted == Keys(desired[..i])
    {
      assert desired[..i + 1] == desired[..i] + [desired[i]];
      wanted := wanted + {desired[i].key};
    }
    assert desired[..|desired|] == desired;
    deleted := {};
    var todo := last.Keys;
    while todo != {}
      invariant todo <= last.Keys
      invariant deleted == last.Keys - todo - wanted
      decreases |todo|
    {
      var k :| k in todo;
      todo := todo - {k};
      if k !in wanted { deleted := deleted + {k}; }
    }
  }

  method ComputeManifestDiff(api: Api, last: Option<seq<Object>>, desired: seq<Object>)
    returns (changed: seq<Object>, deleted: set<Key>)
    ensures forall o :: o in changed <==> o in desired && Renewed(api, LatestOf(last), o)
    ensures Distinct(desired) ==> Distinct(changed)
    ensures deleted == Recorded(last) - Keys(desired)
  {
    if last.None? {
      return desired, {};
    }
    var index := IndexByKey(last.value);
    changed := ChangedObjects(api, index, desired);
    deleted := DroppedKeys(index, desired);
  }

  lemma DistinctAppend(s: seq<Object>, o: Object)
    requires Distinct(s) && o.key !in Keys(s)
    ensures Distinct(s + [o])
  {
  }

  lemma SameKeySameObject(desired: seq<Object>, a: Object, b: Object)
    requires Distinct(desired) && a in desired && b in desired && a.key == b.key
    ensures a == b
  {
  }

  /** Adds the objects that are missing or have drifted, unless their key is
      already due; stops at the first object it cannot read. */
  method AddLiveDrifted(live: Server, desired: seq<Object>, due: seq<Object>, unreadable: set<Key>)
    returns (ok: bool, changed: seq<Object>)
    requires forall o :: o in due ==> o in desired
    ensures due <= changed
    ensures forall o :: o in changed ==> o in desired && (o in due || Astray(live, o))
    ensures ok ==> forall o :: o in desired && Astray(live, o) ==> o.key in Keys(changed)
    ensures Distinct(due) ==> Distinct(changed)
    ensures !ok ==> exists o :: o in desired && o.key in unreadable
  {
    changed := due;
    for i := 0 to |desired|
      invariant due <= changed
      invariant forall o :: o in changed ==> o in desired && (o in due || Astray(live, o))
      invariant forall j :: 0 <= j < i && Astray(live, desired[j]) ==> desired[j].key in Keys(changed)
      invariant Distinct(due) ==> Distinct(changed)
    {
      var o := desired[i];
      if o.key !in Keys(changed) {
        if o.key in unreadable {
          return false, changed;
        }
        if o.key !in live || !Covers(o, live[o.key].fields) {
          if Distinct(due) { DistinctAppend(changed, o); }
          assert Keys(changed + [o]) == Keys(changed) + {o.key};
          changed := changed + [o];
        }
      }
    }
    ok := true;
  }

  /** Everything an apply decides before its first write. */
  method Plan(api: Api, live: Server, last: Option<seq<Object>>, desired: seq<Object>, unreadable: set<Key>)
    returns (ok: bool, changed: seq<Object>, deleted: set<Key>)
    ensures forall o :: o in changed ==> o in desired && Diverging(api, last, live, o)
    ensures ok ==> forall o :: o in desired && Diverging(api, last, live, o) ==> o.key in Keys(changed)
    ensures ok && Distinct(desired) ==> forall o :: o in desired && Diverging(api, last, live, o) ==> o in changed
    ensures Distinct(desired) ==> Distinct(changed)
    ensures deleted == Recorded(last) - Keys(desired)
    ensures !ok ==> exists o :: o in desired && o.key in unreadable
  {
    var renewed;
    renewed, deleted := ComputeManifestDiff(api, last, desired);
    ok, changed := AddLiveDrifted(live, desired, renewed, unreadable);
    if ok && Distinct(desired) {
      AllDue(api, last, live, desired, renewed, changed);
    }
  }

  class Deployer {
    var live: Server
    var record: Option<seq<Object>>

    ghost function Now(): Image
      reads this
    {
      Image(live, record)
    }

    /** Stops at the first apply that fails; `done` objects have reached the server. */
    method ApplyObjects(api: Api, objects: seq<Object>, failing: set<Key>, landed: set<Key>) returns (ok: bool, done: nat)
      modifies this`live
      ensures done <= |objects|
      ensures live == ApplyAll(api, old(live), objects[..done])
      ensures ok ==> done == |objects|
      ensures !ok ==> exists o :: o in objects && o.key in failing
      ensures forall o :: o in objects[..done] && o.key in failing ==> !ok && o.key in landed
    {
      assert objects[..0] == [];
      for i := 0 to |objects|
        invariant live == ApplyAll(api, old(live), objects[..i])
        invariant forall o :: o in objects[..i] ==> o.key !in failing
      {
        var o := objects[i];
        assert objects[..i + 1][..i] == objects[..i];
        if o.key in failing && o.key !in landed {
          return false, i;
        }
        live := live[o.key := Served(api, live, o)];
        if o.key in failing {
          return false, i + 1;
        }
      }
      return true, |objects|;
    }

    /** A delete that fails is logged and the loop goes on; deleting what is not
        there is no failure. */
    method DeleteObjects(keys: set<Key>, f: Faults)
      modifies this`live
      ensures live == Withdraw(old(live), keys, f)
    {
      var todo := keys;
      while todo != {}
        invariant todo <= keys
        invariant live == Withdraw(old(live), keys - todo, f)
        decreases |todo|
      {
        var k :| k in todo;
        ghost var left := todo - {k};
        assert keys - left == (keys - todo) + {k};
        if k in live && k !in f.stuck {
          live := if k in f.lingering then live[k := live[k].(terminating := true)] else live - {k};
        }
        todo := todo - {k};
      }
      assert keys - todo == keys;
    }

    method ApplyManifests(api: Api, last: Option<seq<Object>>, desired: seq<Object>, f: Faults)
      returns (out: Outcome)
      modifies this`live
      ensures ManifestPass(api, old(live), last, desired, f, live, out)
    {
      var readable, changed, deleted := Plan(api, live, last, desired, f.read);
      if !readable {
        NothingWithdrawn(live, f);
        return Outcome(false, 0, [], {});
      }
      var applied, done := ApplyObjects(api, changed, f.apply, f.landed);
      if !applied {
        PassStops(api, old(live), last, desired, f, live, changed, done);
        return Outcome(false, 0, changed[..done], {});
      }
      assert changed[..done] == changed;
      DeleteObjects(deleted, f);
      return Outcome(true, |changed| + |deleted|, changed, deleted);
    }

    method Apply(api: Api, desired: seq<Object>, f: Faults) returns (out: Outcome)
      modifies this
      ensures ApplyPass(api, old(Now()), desired, f, Now(), out)
    {
      var last := if f.load then None else record;
      out := ApplyManifests(api, last, desired, f);
      if out.ok && out.count > 0 && (!f.save || f.saveLanded) {
        record := Some(desired);
      }
    }

    method DeleteRecorded(recorded: seq<Object>, f: Faults) returns (finished: bool, ok: bool, seen: nat)
      modifies this`live
      ensures seen <= |recorded|
      ensures live == Withdraw(old(live), Attempted(recorded[..seen], old(live)), f)
      ensures finished == NoneLive(recorded[..seen], old(live))
      ensures ok ==> seen == |recorded|
      ensures !ok ==> seen < |recorded| && recorded[seen].key in f.read
    {
      finished := true;
      assert Attempted(recorded[..0], old(live)) == {};
      for i := 0 to |recorded|
        invariant live == Withdraw(old(live), Attempted(recorded[..i], old(live)), f)
        invariant finished == NoneLive(recorded[..i], old(live))
      {
        var key := recorded[i].key;
        if key in f.read {
          return finished, false, i;
        }
        assert recorded[..i + 1] == recorded[..i] + [recorded[i]];
        ExamineNext(old(live), recorded[..i], recorded[i], f);
        if key in live {
          finished := false;
          if !live[key].terminating && key !in f.stuck {
            live := if key in f.lingering then live[key := live[key].(terminating := true)] else live - {key};
          }
        }
      }
      return finished, true, |recorded|;
    }

    method Delete(f: Faults) returns (finished: bool, ok: bool, seen: nat)
      modifies this
      ensures DeletePass(old(Now()), f, Now(), seen, finished, ok)
    {
      if f.load {
        return false, false, 0;
      }
      if record.None? {
        return true, true, 0;
      }
      finished, ok, seen := DeleteRecorded(record.value, f);
      if ok && finished && (!f.save || f.saveLanded) {
        record := None;
      }
    }
  }

  /** A pass that an apply cut short. */
  lemma PassStops(api: Api, before: Server, last: Option<seq<Object>>, desired: seq<Object>, f: Faults,
                  after: Server, changed: seq<Object>, done: nat)
    requires forall o :: o in changed ==> o in desired && Diverging(api, last, before, o)
    requires Distinct(desired) ==> Distinct(changed)
    requires done <= |changed| && exists o :: o in changed && o.key in f.apply
    requires after == ApplyAll(api, before, changed[..done])
    requires forall o :: o in changed[..done] && o.key in f.apply ==> o.key in f.landed
    ensures ManifestPass(api, before, last, desired, f, after, Outcome(false, 0, changed[..done], {}))
  {
    NothingWithdrawn(after, f);
    var o :| o in changed && o.key in f.apply;
    assert o in desired && o.key in f.read + f.apply;
  }

  /** One more object examined: what is requested and left follows from the server
      as it was at the start of the pass. */
  lemma ExamineNext(start: Server, front: seq<Object>, o: Object, f: Faults)
    ensures var live := Withdraw(start, Attempted(front, start), f);
            var next := Withdraw(start, Attempted(front + [o], start), f);
            if o.key in live && !live[o.key].terminating then
              next == if o.key in f.stuck then live
                      else if o.key in f.lingering then live[o.key := live[o.key].(terminating := true)]
                      else live - {o.key}
            else next == live
    ensures (o.key in Withdraw(start, Attempted(front, start), f) || !NoneLive(front, start))
       <==> !NoneLive(front + [o], start)
  {
    var was, now := Attempted(front, start), Attempted(front + [o], start);
    if o.key in start && !start[o.key].terminating {
      assert now == was + {o.key};
    } else {
      assert now == was;
    }
  }

  lemma NothingWithdrawn(live: Server, f: Faults)
    ensures Withdraw(live, {}, f) == live
  {
  }

  lemma AllDue(api: Api, last: Option<seq<Object>>, live: Server,
               desired: seq<Object>, renewed: seq<Object>, changed: seq<Object>)
    requires Distinct(desired) && renewed <= changed
    requires forall o :: o in renewed <==> o in desired && Renewed(api, LatestOf(last), o)
    requires forall o :: o in changed ==> o in desired && (o in renewed || Astray(live, o))
    requires forall o :: o in desired && Astray(live, o) ==> o.key in Keys(changed)
    ensures forall o :: o in changed <==> o in desired && Diverging(api, last, live, o)
  {
    forall o | o in desired && Diverging(api, last, live, o) ensures o in changed {
      if Astray(live, o) {
        var p :| p in changed && p.key == o.key;
        SameKeySameObject(desired, o, p);
      } else {
        assert o in renewed;
      }
    }
  }
}
