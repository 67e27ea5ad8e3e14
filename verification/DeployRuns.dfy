/** Runs of one deployer: applies with changing lists, deletes, API faults and
    outside edits in any order.

    `Managed` are the keys the deployer ever sent.  `Leaked` are those it has lost
    sight of, each for a stated cause: it was sent in a pass whose record was never
    saved, its deletion did not go through, or the record that named it was
    overwritten without having been read.
 */
module DeployRuns {
  import opened Basics
  import opened JsonTree
  import opened DesiredFields
  import opened ManifestApply

  datatype Event =
    | Applied(desired: seq<Object>, f: Faults, out: Outcome)
    | Deleted(f: Faults, seen: nat, finished: bool, ok: bool)
    | Outside

  ghost predicate Step(api: Api, before: Image, e: Event, after: Image)
  {
    match e
    case Applied(desired, f, out) => ApplyPass(api, before, desired, f, after, out)
    case Deleted(f, seen, finished, ok) => DeletePass(before, f, after, seen, finished, ok)
    case Outside => after.record == before.record
  }

  /** Outside editors change and delete as they like but create no object under a
      managed key. */
  ghost predicate Run(api: Api, images: seq<Image>, events: seq<Event>)
  {
    && |images| == |events| + 1
    && images[0].record == None
    && forall i :: 0 <= i < |events| ==>
         && Step(api, images[i], events[i], images[i + 1])
         && (events[i].Outside? ==>
               images[i + 1].live.Keys * Managed(events[..i]) <= images[i].live.Keys)
  }

  function Managed(events: seq<Event>): set<Key>
  {
    if events == [] then {}
    else
      var e := events[|events| - 1];
      Managed(events[..|events| - 1]) + if e.Applied? then Keys(e.out.sent) else {}
  }

  /** The record now holds exactly the desired keys. */
  predicate Saved(e: Event)
    requires e.Applied?
  {
    e.out.ok && e.out.count > 0 && Stores(e.f)
  }

  function LeakAfter(leaked: set<Key>, before: Image, e: Event): set<Key>
  {
    if !e.Applied? then leaked
    else if Saved(e) then
      (leaked + e.out.gone * (e.f.stuck + e.f.lingering) + (if e.f.load then Recorded(before.record) else {}))
        - Keys(e.desired)
    else leaked + (Keys(e.out.sent) - Recorded(before.record))
  }

  function Leaked(images: seq<Image>, events: seq<Event>): set<Key>
    requires |images| == |events| + 1
  {
    if events == [] then {}
    else
      var n := |events| - 1;
      LeakAfter(Leaked(images[..n + 1], events[..n]), images[n], events[n])
  }

  ghost predicate Tracked(image: Image, managed: set<Key>, leaked: set<Key>)
  {
    && image.live.Keys * managed <= Recorded(image.record) + leaked
    && Recorded(image.record) <= managed
  }

  // What ApplyAll does, key by key.

  lemma {:induction false} ApplyAllKeys(api: Api, live: Server, objects: seq<Object>)
    ensures ApplyAll(api, live, objects).Keys == live.Keys + Keys(objects)
  {
    if objects != [] {
      var front := objects[..|objects| - 1];
      assert objects == front + [objects[|objects| - 1]];
      ApplyAllKeys(api, live, front);
    }
  }

  /** Objects with other keys stay as they are. */
  lemma {:induction false} ApplyAllOther(api: Api, live: Server, objects: seq<Object>, k: Key)
    requires k in live && k !in Keys(objects)
    ensures k in ApplyAll(api, live, objects) && ApplyAll(api, live, objects)[k] == live[k]
  {
    if objects != [] {
      var last := objects[|objects| - 1];
      var front := objects[..|objects| - 1];
      assert last in objects;
      assert objects == front + [last];
      ApplyAllOther(api, live, front, k);
    }
  }

  lemma {:induction false} ApplyAllCovers(api: Api, live: Server, objects: seq<Object>, o: Object)
    requires Faithful(api) && AddsOnly(api, o) && Distinct(objects) && o in objects
    ensures o.key in ApplyAll(api, live, objects) && Covers(o, ApplyAll(api, live, objects)[o.key].fields)
  {
    var last := objects[|objects| - 1];
    var front := objects[..|objects| - 1];
    var before := ApplyAll(api, live, front);
    assert objects == front + [last];
    if o == last {
      CoversThrough(o, api.mutate(o), Served(api, before, o).fields);
    } else {
      assert o in front;
      ApplyAllCovers(api, live, front, o);
      assert last.key != o.key;
    }
  }

  /** The server keeps what it is sent. */
  ghost predicate Faithful(api: Api)
  {
    forall prior, body :: Contains(Obj(body), Obj(api.serve(prior, body)))
  }

  /** The mutators leave every desired field of `o` as it is. */
  ghost predicate AddsOnly(api: Api, o: Object)
  {
    Covers(o, api.mutate(o))
  }

  lemma OverlayIsFaithful(api: Api)
    requires forall prior: Option<Fields>, body ::
               api.serve(prior, body) == Overlay(Obj(prior.GetOr(map[])), Obj(body)).fields
    ensures Faithful(api)
  {
    forall prior, body ensures Contains(Obj(body), Obj(api.serve(prior, body))) {
      OverlayContains(Obj(prior.GetOr(map[])), Obj(body));
      assert Overlay(Obj(prior.GetOr(map[])), Obj(body)) == Obj(api.serve(prior, body));
    }
  }

  /** The server's keys after a pass. */
  lemma PassKeys(api: Api, before: Image, desired: seq<Object>, f: Faults, after: Image, out: Outcome)
    requires ApplyPass(api, before, desired, f, after, out)
    ensures after.live.Keys == before.live.Keys + Keys(out.sent) - (out.gone - f.stuck - f.lingering)
    ensures Keys(out.sent) <= Keys(desired)
    ensures out.gone !! Keys(desired)
    ensures out.gone <= Recorded(before.record)
  {
    ApplyAllKeys(api, before.live, out.sent);
  }

  /** A desired object that was not sent is already vouched for by the record. */
  lemma UnsentIsRecorded(api: Api, before: Image, desired: seq<Object>, f: Faults, after: Image, out: Outcome)
    requires ApplyPass(api, before, desired, f, after, out) && out.ok
    ensures Keys(desired) <= Keys(out.sent) + Recorded(Loaded(before, f))
  {
    forall k | k in Keys(desired) ensures k in Keys(out.sent) + Recorded(Loaded(before, f)) {
      var o :| o in desired && o.key == k;
      if !Diverging(api, Loaded(before, f), before.live, o) {
        assert o.key in LatestOf(Loaded(before, f));
      }
    }
  }

  lemma QuietChangesNothing(api: Api, before: Image, desired: seq<Object>, f: Faults, after: Image, out: Outcome)
    requires ApplyPass(api, before, desired, f, after, out) && out.ok && out.count == 0
    ensures after == before && out.sent == [] && out.gone == {}
  {
    NothingWithdrawn(before.live, f);
  }

  lemma ApplyTracked(api: Api, before: Image, e: Event, after: Image, managed: set<Key>, leaked: set<Key>)
    requires e.Applied? && Step(api, before, e, after) && Tracked(before, managed, leaked)
    ensures Tracked(after, managed + Keys(e.out.sent), LeakAfter(leaked, before, e))
  {
    PassKeys(api, before, e.desired, e.f, after, e.out);
    if e.out.ok {
      UnsentIsRecorded(api, before, e.desired, e.f, after, e.out);
    }
    forall k | k in after.live.Keys && k in managed + Keys(e.out.sent)
      ensures k in Recorded(after.record) || k in LeakAfter(leaked, before, e)
    {
      if k !in Keys(e.out.sent) {
        assert k in before.live.Keys * managed;
      }
    }
  }

  lemma DeleteTracked(api: Api, before: Image, e: Event, after: Image, managed: set<Key>, leaked: set<Key>)
    requires e.Deleted? && Step(api, before, e, after) && Tracked(before, managed, leaked)
    ensures Tracked(after, managed, leaked)
  {
    assert after.live.Keys <= before.live.Keys;
    if after.record != before.record {
      var recorded := before.record.value;
      assert recorded[..|recorded|] == recorded;
      assert NoneLive(recorded, before.live);
    }
    forall k | k in after.live.Keys && k in managed ensures k in Recorded(after.record) || k in leaked {
      assert k in before.live.Keys * managed;
    }
  }

  /** Whatever fails and whatever is edited outside, a managed object that is live
      is in the record or among the leaked. */
  lemma {:induction false} RunTracks(api: Api, images: seq<Image>, events: seq<Event>)
    requires Run(api, images, events)
    ensures Tracked(images[|events|], Managed(events), Leaked(images, events))
  {
    if events != [] {
      var n := |events| - 1;
      var e := events[n];
      RunPrefix(api, images, events, n);
      RunTracks(api, images[..n + 1], events[..n]);
      var managed, leaked := Managed(events[..n]), Leaked(images[..n + 1], events[..n]);
      match e
      case Applied(_, _, _) => ApplyTracked(api, images[n], e, images[n + 1], managed, leaked);
      case Deleted(_, _, _, _) => DeleteTracked(api, images[n], e, images[n + 1], managed, leaked);
      case Outside =>
    }
  }

  lemma RunPrefix(api: Api, images: seq<Image>, events: seq<Event>, n: nat)
    requires Run(api, images, events) && n <= |events|
    ensures Run(api, images[..n + 1], events[..n])
  {
    forall i | 0 <= i < n
      ensures Step(api, images[i], events[i], images[i + 1])
      ensures events[i].Outside? ==> images[i + 1].live.Keys * Managed(events[..n][..i]) <= images[i].live.Keys
    {
      assert events[..n][..i] == events[..i];
    }
  }

  /** A pass that reports success left every desired object live and covering, no
      matter what faults it swallowed. */
  lemma SuccessCovers(api: Api, before: Image, desired: seq<Object>, f: Faults, after: Image, out: Outcome, o: Object)
    requires Distinct(desired) && ApplyPass(api, before, desired, f, after, out) && out.ok
    requires Faithful(api) && AddsOnly(api, o) && o in desired
    ensures !Astray(after.live, o)
  {
    var applied := ApplyAll(api, before.live, out.sent);
    assert o.key !in out.gone;
    assert o.key in applied ==> o.key in after.live && after.live[o.key] == applied[o.key];
    if o in out.sent {
      ApplyAllCovers(api, before.live, out.sent, o);
    } else {
      assert !Diverging(api, Loaded(before, f), before.live, o);
      NotSentUnderOtherName(desired, out.sent, o);
      ApplyAllOther(api, before.live, out.sent, o.key);
    }
  }

  /** A pass fails only on an object it could not read or apply. */
  lemma OnlyFaultsFail(api: Api, before: Image, desired: seq<Object>, f: Faults, after: Image, out: Outcome)
    requires ApplyPass(api, before, desired, f, after, out) && Keys(desired) !! f.read + f.apply
    ensures out.ok
  {
  }

  /** So does a delete. */
  lemma OnlyUnreadFails(before: Image, f: Faults, after: Image, seen: nat, finished: bool, ok: bool)
    requires DeletePass(before, f, after, seen, finished, ok)
    requires !f.load && (before.record.Some? ==> Keys(before.record.value) !! f.read)
    ensures ok
  {
  }

  lemma {:induction false} ApplyingKeepsDeletion(api: Api, live: Server, objects: seq<Object>, k: Key)
    requires k in ApplyAll(api, live, objects)
    ensures ApplyAll(api, live, objects)[k].terminating <==> k in live && live[k].terminating
  {
    if objects != [] {
      var front := objects[..|objects| - 1];
      if k in ApplyAll(api, live, front) {
        ApplyingKeepsDeletion(api, live, front, k);
      } else {
        ApplyAllGrows(api, live, front, k);
      }
    }
  }

  lemma {:induction false} ApplyAllGrows(api: Api, live: Server, objects: seq<Object>, k: Key)
    ensures k in live ==> k in ApplyAll(api, live, objects)
  {
    if objects != [] {
      ApplyAllGrows(api, live, objects[..|objects| - 1], k);
    }
  }

  /** A pass starts the deletion of withdrawn objects only and cancels none: every other
      object is being deleted afterwards exactly if it was before. */
  lemma PassKeepsDeletion(api: Api, before: Image, desired: seq<Object>, f: Faults, after: Image, out: Outcome, k: Key)
    requires ApplyPass(api, before, desired, f, after, out) && k in after.live && k !in out.gone
    ensures after.live[k].terminating <==> k in before.live && before.live[k].terminating
  {
    ApplyingKeepsDeletion(api, before.live, out.sent, k);
  }

  lemma NotSentUnderOtherName(desired: seq<Object>, sent: seq<Object>, o: Object)
    requires Distinct(desired) && o in desired && o !in sent && forall p :: p in sent ==> p in desired
    ensures o.key !in Keys(sent)
  {
    forall p | p in sent ensures p.key != o.key {
      if p.key == o.key { SameKeySameObject(desired, o, p); }
    }
  }

  /** The managed live objects are the desired ones and at most the leaked ones, the
      record names exactly the desired ones, and every desired object is covered. */
  ghost predicate Settled(now: Image, desired: seq<Object>, managed: set<Key>, leaked: set<Key>)
  {
    && Recorded(now.record) == Keys(desired)
    && Keys(desired) <= now.live.Keys * managed <= Keys(desired) + leaked
    && forall o :: o in desired ==> !Astray(now.live, o)
  }

  predicate Recording(e: Event)
  {
    e.Applied? && e.out.ok && !e.f.load && Stores(e.f)
  }

  lemma PassSettles(api: Api, before: Image, e: Event, after: Image, managed: set<Key>, leaked: set<Key>)
    requires Step(api, before, e, after) && Recording(e) && Distinct(e.desired) && Tracked(after, managed, leaked)
    requires Faithful(api) && forall o :: o in e.desired ==> AddsOnly(api, o)
    ensures Settled(after, e.desired, managed, leaked)
  {
    UnsentIsRecorded(api, before, e.desired, e.f, after, e.out);
    if e.out.count == 0 {
      QuietChangesNothing(api, before, e.desired, e.f, after, e.out);
      assert Keys(e.out.sent) == {};
    }
    assert Recorded(after.record) == Keys(e.desired);
    forall o | o in e.desired ensures !Astray(after.live, o) {
      SuccessCovers(api, before, e.desired, e.f, after, e.out, o);
    }
  }

  /** Over every run, a successful apply that could read and write its record leaves
      the server settled. */
  lemma ApplySettles(api: Api, images: seq<Image>, events: seq<Event>)
    requires Run(api, images, events) && events != [] && Faithful(api)
    requires var e := events[|events| - 1];
             Recording(e) && Distinct(e.desired) && forall o :: o in e.desired ==> AddsOnly(api, o)
    ensures Settled(images[|events|], events[|events| - 1].desired, Managed(events), Leaked(images, events))
  {
    var n := |events| - 1;
    RunTracks(api, images, events);
    PassSettles(api, images[n], events[n], images[n + 1], Managed(events), Leaked(images, events));
  }

  predicate Flawless(e: Event)
  {
    e.Applied? ==> Recording(e) && e.f.stuck == {} && e.f.lingering == {}
  }

  /** Nothing leaks in a run whose applies meet no fault. */
  lemma {:induction false} FlawlessLeaksNothing(api: Api, images: seq<Image>, events: seq<Event>)
    requires Run(api, images, events)
    requires forall e :: e in events ==> Flawless(e)
    ensures Leaked(images, events) == {}
  {
    if events != [] {
      var n := |events| - 1;
      var e := events[n];
      RunPrefix(api, images, events, n);
      FlawlessLeaksNothing(api, images[..n + 1], events[..n]);
      assert e in events;
      if e.Applied? && !Saved(e) {
        QuietChangesNothing(api, images[n], e.desired, e.f, images[n + 1], e.out);
      }
    }
  }

  /** Over every run whose applies meet no fault, with deletes that may fail and
      outside edits in between, the managed live objects after an apply are exactly
      the desired list's keys. */
  lemma FlawlessApplyIsExact(api: Api, images: seq<Image>, events: seq<Event>)
    requires Run(api, images, events) && events != [] && Faithful(api)
    requires forall e :: e in events ==> Flawless(e)
    requires var e := events[|events| - 1];
             e.Applied? && Distinct(e.desired) && forall o :: o in e.desired ==> AddsOnly(api, o)
    ensures Settled(images[|events|], events[|events| - 1].desired, Managed(events), {})
    ensures images[|events|].live.Keys * Managed(events) == Keys(events[|events| - 1].desired)
  {
    assert events[|events| - 1] in events;
    FlawlessLeaksNothing(api, images, events);
    ApplySettles(api, images, events);
  }

  /** With the list already on record, a pass that reads everything writes nothing
      exactly when every desired object is live and covering. */
  lemma QuietIff(api: Api, before: Image, desired: seq<Object>, f: Faults, after: Image, out: Outcome)
    requires Distinct(desired) && before.record == Some(desired) && !f.load
    requires ApplyPass(api, before, desired, f, after, out) && out.ok
    ensures out.count == 0 <==> forall o :: o in desired ==> !Astray(before.live, o)
    ensures out.count == 0 ==> after == before
    ensures forall o :: o in desired && Astray(before.live, o) ==> o in out.sent
  {
    assert out.gone == {};
    if out.count == 0 {
      QuietChangesNothing(api, before, desired, f, after, out);
      forall o | o in desired ensures !Astray(before.live, o) {
        assert o !in out.sent;
      }
    }
    if forall o :: o in desired ==> !Astray(before.live, o) {
      forall o | o in desired ensures !Diverging(api, before.record, before.live, o) {
        SameKeySameObject(desired, o, Latest(desired)[o.key]);
      }
      if out.sent != [] { SomeMember(out.sent); }
    }
  }

  lemma SomeMember(s: seq<Object>)
    requires s != []
    ensures exists o :: o in s
  {
    assert s[0] in s;
  }

  /** Applying the same list again after a success that saved its record writes
      nothing. */
  lemma SecondApplyIsSilent(api: Api, start: Image, desired: seq<Object>, f: Faults, mid: Image, first: Outcome,
                            g: Faults, after: Image, second: Outcome)
    requires Distinct(desired) && Faithful(api) && forall o :: o in desired ==> AddsOnly(api, o)
    requires ApplyPass(api, start, desired, f, mid, first) && Saved(Applied(desired, f, first))
    requires ApplyPass(api, mid, desired, g, after, second) && second.ok && !g.load
    ensures second.count == 0 && after == mid
  {
    forall o | o in desired ensures !Astray(mid.live, o) {
      SuccessCovers(api, start, desired, f, mid, first, o);
    }
    QuietIff(api, mid, desired, g, after, second);
  }

  /** An outside edit of any scalar the manifest asks for, at any depth and inside arrays,
      is sent by the next pass that succeeds and is then as the manifest says. */
  lemma EditIsUndone(api: Api, before: Image, desired: seq<Object>, f: Faults, after: Image, out: Outcome,
                     o: Object, path: seq<Hop>, scalar: Json)
    requires Distinct(desired) && Faithful(api) && o in desired && AddsOnly(api, o)
    requires Lookup(Judged(o.fields, "spec" in o.fields), path) == Some(scalar) && !scalar.Obj? && !scalar.Arr?
    requires o.key in before.live ==> Lookup(Judged(before.live[o.key].fields, "spec" in o.fields), path) != Some(scalar)
    requires ApplyPass(api, before, desired, f, after, out) && out.ok
    ensures o in out.sent && o.key in after.live
    ensures Lookup(Judged(after.live[o.key].fields, "spec" in o.fields), path) == Some(scalar)
  {
    if o.key in before.live {
      EditedFieldIsDrift(o, before.live[o.key].fields, path, scalar);
    }
    assert Diverging(api, Loaded(before, f), before.live, o);
    SuccessCovers(api, before, desired, f, after, out, o);
    if Lookup(Judged(after.live[o.key].fields, "spec" in o.fields), path) != Some(scalar) {
      EditedFieldIsDrift(o, after.live[o.key].fields, path, scalar);
    }
  }

  /** A paused deployment whose manifest asks for replicas is applied again by the
      next pass, which restores it. */
  lemma PauseIsUndone(api: Api, before: Image, desired: seq<Object>, f: Faults, after: Image, out: Outcome,
                      o: Object, spec: Fields, live: Fields)
    requires Distinct(desired) && Faithful(api) && o in desired && AddsOnly(api, o)
    requires "spec" in o.fields && o.fields["spec"] == Obj(spec)
    requires "replicas" in spec && spec["replicas"] != Num(0.0)
    requires Covers(o, live) && o.key in before.live
    requires before.live[o.key].fields == MergePatch(Obj(live), PAUSE).fields
    requires ApplyPass(api, before, desired, f, after, out) && out.ok
    ensures o in out.sent && !Astray(after.live, o)
  {
    PauseIsDrift(o, spec, live);
    assert Diverging(api, Loaded(before, f), before.live, o);
    SuccessCovers(api, before, desired, f, after, out, o);
  }

  /** In every run a record is erased only by a delete that asked for all of its
      objects and found none. */
  lemma ErasedOnlyWhenGone(api: Api, images: seq<Image>, events: seq<Event>, i: nat)
    requires Run(api, images, events) && i < |events|
    requires images[i].record.Some? && images[i + 1].record.None?
    ensures events[i].Deleted? && events[i].ok && events[i].seen == |images[i].record.value|
    ensures NoneLive(images[i].record.value, images[i].live)
    ensures forall o :: o in images[i].record.value ==> o.key !in images[i + 1].live
  {
    var recorded := images[i].record.value;
    assert Step(api, images[i], events[i], images[i + 1]);
    assert recorded[..|recorded|] == recorded;
  }

  /** A delete pass that some recorded object answered, or could not be asked. */
  ghost predicate Unfinished(image: Image, recorded: seq<Object>, e: Event)
  {
    e.Deleted? && (!e.ok || !NoneLive(recorded, image.live))
  }

  /** While each delete pass sees a recorded object live or cannot read one, the
      record survives them all. */
  lemma {:induction false} RecordSurvives(api: Api, images: seq<Image>, events: seq<Event>, i: nat, j: nat,
                                         recorded: seq<Object>)
    requires Run(api, images, events) && i <= j <= |events|
    requires images[i].record == Some(recorded)
    requires forall n :: i <= n < j ==> events[n].Outside? || Unfinished(images[n], recorded, events[n])
    ensures images[j].record == Some(recorded)
  {
    if i < j {
      RecordSurvives(api, images, events, i, j - 1, recorded);
      assert Step(api, images[j - 1], events[j - 1], images[j]);
      assert recorded[..|recorded|] == recorded;
    }
  }

  /** A later pass retries: one that reads everything leaves each recorded object
      gone, terminating, or refused by the server in this very pass. */
  lemma DeleteRetries(before: Image, f: Faults, after: Image, seen: nat, finished: bool, ok: bool, o: Object)
    requires DeletePass(before, f, after, seen, finished, ok) && ok
    requires before.record.Some? && o in before.record.value
    ensures o.key in after.live ==> after.live[o.key].terminating || o.key in f.stuck
    ensures finished <==> NoneLive(before.record.value, before.live)
    ensures finished && Stores(f) <==> after.record.None?
  {
    var recorded := before.record.value;
    assert recorded[..|recorded|] == recorded;
  }
}
