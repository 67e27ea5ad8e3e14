/** One worker pass of an SSH Ray cluster: which workers to start and stop, the
    concurrent operations with one error slot each, and the provision map they
    leave in the cluster's status.

    The clock, the node listing and the outcome of each start and stop are
    parameters. */
module WorkerProvision {
  import opened Basics

  type Ip = string

  datatype Standing = Provisioned | Provisioning

  /** `since` is absent when the stored time does not parse. */
  datatype Provision = Provision(standing: Standing, since: Option<int>, isHead: bool)

  type Provisions = map<Ip, Provision>

  datatype RayNode = RayNode(ip: Ip, state: string, isHead: bool)

  const ALIVE := "ALIVE"

  /** Of several listings of one address the last one decides. */
  function LastState(nodes: seq<RayNode>, ip: Ip): Option<string>
  {
    if nodes == [] then None
    else
      var last := nodes[|nodes| - 1];
      if last.ip == ip && !last.isHead then Some(last.state) else LastState(nodes[..|nodes| - 1], ip)
  }

  predicate Recent(p: Provision, now: int, wait: int)
  {
    p.since.None? || now - p.since.value < wait
  }

  predicate NeedsStart(m: Provisions, nodes: seq<RayNode>, ip: Ip, now: int, wait: int)
  {
    || ip !in m
    || m[ip].standing != Provisioned
    || (LastState(nodes, ip) != Some(ALIVE) && !Recent(m[ip], now, wait))
  }

  /** The state of an address is that of its last worker listing. */
  lemma {:induction false} LastStateIs(nodes: seq<RayNode>, ip: Ip, state: string)
    ensures LastState(nodes, ip) == Some(state) <==>
      exists i :: 0 <= i < |nodes| && nodes[i] == RayNode(ip, state, false)
                  && forall j :: i < j < |nodes| ==> nodes[j].ip != ip || nodes[j].isHead
  {
    if nodes != [] {
      var n := |nodes| - 1;
      var front := nodes[..n];
      LastStateIs(front, ip, state);
      if nodes[n].ip == ip && !nodes[n].isHead {
        if nodes[n].state == state {
          assert nodes[n] == RayNode(ip, state, false);
        }
      } else {
        if i :| 0 <= i < |front| && front[i] == RayNode(ip, state, false)
                && forall j :: i < j < |front| ==> front[j].ip != ip || front[j].isHead {
          assert nodes[i] == RayNode(ip, state, false);
          assert forall j :: i < j < n ==> nodes[j] == front[j];
        }
        if i :| 0 <= i < |nodes| && nodes[i] == RayNode(ip, state, false)
                && forall j :: i < j < |nodes| ==> nodes[j].ip != ip || nodes[j].isHead {
          assert front[i] == RayNode(ip, state, false);
          assert forall j :: i < j < n ==> nodes[j] == front[j];
        }
      }
    }
  }

  /** A worker that is provisioned and seen alive is left alone; one that is not seen alive
      is started again once its provisioning is longer ago than the wait; one that was
      never provisioned, or only half, is always started. */
  lemma WhoIsStarted(m: Provisions, nodes: seq<RayNode>, desired: seq<Ip>, now: int, wait: int, ip: Ip)
    requires ip in desired
    ensures ip !in m ==> ip in Starts(m, nodes, desired, now, wait)
    ensures ip in m && m[ip].standing == Provisioning ==> ip in Starts(m, nodes, desired, now, wait)
    ensures ip in m && m[ip].standing == Provisioned && LastState(nodes, ip) == Some("ALIVE") ==>
              ip !in Starts(m, nodes, desired, now, wait)
    ensures ip in m && m[ip].standing == Provisioned && LastState(nodes, ip) != Some("ALIVE") ==>
              (ip in Starts(m, nodes, desired, now, wait) <==> m[ip].since.Some? && now - m[ip].since.value >= wait)
  {
  }

  function Starts(m: Provisions, nodes: seq<RayNode>, desired: seq<Ip>, now: int, wait: int): set<Ip>
  {
    set ip | ip in desired && NeedsStart(m, nodes, ip, now, wait)
  }

  function Stops(m: Provisions, desired: seq<Ip>): set<Ip>
  {
    set ip | ip in m && !m[ip].isHead && ip !in desired
  }

  /** Which starts and stops fail. */
  datatype Trouble = Trouble(start: set<Ip>, stop: set<Ip>)

  function After(m: Provisions, starts: set<Ip>, stops: set<Ip>, t: Trouble, now: int): Provisions
  {
    map ip | ip in m.Keys + starts && (ip in stops ==> ip in t.stop) ::
      if ip in starts then Provision(if ip in t.start then Provisioning else Provisioned, Some(now), false) else m[ip]
  }

  function Next(m: Provisions, nodes: seq<RayNode>, desired: seq<Ip>, t: Trouble, now: int, wait: int): Provisions
  {
    After(m, Starts(m, nodes, desired, now, wait), Stops(m, desired), t, now)
  }

  predicate Failed(m: Provisions, nodes: seq<RayNode>, desired: seq<Ip>, t: Trouble, now: int, wait: int)
  {
    Starts(m, nodes, desired, now, wait) * t.start + Stops(m, desired) * t.stop != {}
  }

  method ObserveWorkers(nodes: seq<RayNode>) returns (states: map<Ip, string>)
    ensures forall ip :: (if ip in states then Some(states[ip]) else None) == LastState(nodes, ip)
  {
    states := map[];
    for i := 0 to |nodes|
      invariant forall ip :: (if ip in states then Some(states[ip]) else None) == LastState(nodes[..i], ip)
    {
      assert nodes[..i + 1][..i] == nodes[..i];
      var node := nodes[i];
      if !node.isHead {
        if node.ip !in states || states[node.ip] != node.state {
          states := states[node.ip := node.state];
        }
      }
    }
    assert nodes[..|nodes|] == nodes;
  }

  function Members(list: seq<Ip>): set<Ip>
  {
    set ip | ip in list
  }

  /** A list of a set's members, each once, in no particular order. */
  ghost predicate Lists(list: seq<Ip>, members: set<Ip>)
  {
    && Members(list) == members
    && (forall i, j :: 0 <= i < j < |list| ==> list[i] != list[j])
  }

  lemma ListsAppend(list: seq<Ip>, members: set<Ip>, ip: Ip)
    requires Lists(list, members) && ip !in members
    ensures Lists(list + [ip], members + {ip})
  {
    assert forall i :: 0 <= i < |list| ==> list[i] in Members(list);
  }

  /** There are as many operations as workers that need one. */
  lemma {:induction false} ListsCount(list: seq<Ip>, members: set<Ip>)
    requires Lists(list, members)
    ensures |list| == |members|
  {
    if list != [] {
      var front, ip := list[..|list| - 1], list[|list| - 1];
      assert list == front + [ip];
      assert ip !in front && Members(front) + {ip} == members;
      ListsCount(front, Members(front));
    }
  }

  method CollectStops(m: Provisions, desired: set<Ip>) returns (list: seq<Ip>)
    ensures Lists(list, set ip | ip in m && !m[ip].isHead && ip !in desired)
  {
    list := [];
    var todo := m.Keys;
    while todo != {}
      invariant todo <= m.Keys
      invariant Lists(list, set ip | ip in m.Keys - todo && !m[ip].isHead && ip !in desired)
      decreases |todo|
    {
      var ip :| ip in todo;
      todo := todo - {ip};
      ghost var found := Members(list);
      if !m[ip].isHead && ip !in desired {
        ListsAppend(list, found, ip);
        list := list + [ip];
        assert found + {ip} == set x | x in m.Keys - todo && !m[x].isHead && x !in desired;
      } else {
        assert found == set x | x in m.Keys - todo && !m[x].isHead && x !in desired;
      }
    }
  }

  method IsDue(m: Provisions, states: map<Ip, string>, ghost nodes: seq<RayNode>, ip: Ip, now: int, wait: int)
    returns (start: bool)
    requires (if ip in states then Some(states[ip]) else None) == LastState(nodes, ip)
    ensures start <==> NeedsStart(m, nodes, ip, now, wait)
  {
    if ip !in m || m[ip].standing != Provisioned {
      start := true;
    } else if ip !in states || states[ip] != ALIVE {
      start := m[ip].since.Some? && !(now - m[ip].since.value < wait);
    } else {
      start := false;
    }
  }

  method CollectStarts(m: Provisions, states: map<Ip, string>, nodes: seq<RayNode>, desired: set<Ip>, now: int, wait: int)
    returns (list: seq<Ip>)
    requires forall ip :: (if ip in states then Some(states[ip]) else None) == LastState(nodes, ip)
    ensures Lists(list, set ip | ip in desired && NeedsStart(m, nodes, ip, now, wait))
  {
    list := [];
    var todo := desired;
    while todo != {}
      invariant todo <= desired
      invariant Lists(list, set ip | ip in desired - todo && NeedsStart(m, nodes, ip, now, wait))
      decreases |todo|
    {
      var ip :| ip in todo;
      todo := todo - {ip};
      assert LastState(nodes, ip) == if ip in states then Some(states[ip]) else None;
      var start := IsDue(m, states, nodes, ip, now, wait);
      ghost var found := Members(list);
      if start {
        ListsAppend(list, found, ip);
        list := list + [ip];
        assert found + {ip} == set x | x in desired - todo && NeedsStart(m, nodes, x, now, wait);
      } else {
        assert found == set x | x in desired - todo && NeedsStart(m, nodes, x, now, wait);
      }
    }
  }

  /** The operations finish in any order; each writes its own slot. */
  method RunOperations(starts: seq<Ip>, stops: seq<Ip>, t: Trouble) returns (failed: array<bool>)
    ensures fresh(failed) && failed.Length == |starts| + |stops|
    ensures forall i :: 0 <= i < |starts| ==> failed[i] == (starts[i] in t.start)
    ensures forall i :: 0 <= i < |stops| ==> failed[|starts| + i] == (stops[i] in t.stop)
  {
    var n := |starts|;
    failed := new bool[n + |stops|](_ => false);
    var todo := {};
    for i := 0 to failed.Length
      invariant forall j :: j in todo <==> 0 <= j < i
    {
      todo := todo + {i};
    }
    while todo != {}
      invariant forall i :: i in todo ==> 0 <= i < failed.Length && !failed[i]
      invariant forall i :: 0 <= i < n && i !in todo ==> failed[i] == (starts[i] in t.start)
      invariant forall i :: 0 <= i < |stops| && n + i !in todo ==> failed[n + i] == (stops[i] in t.stop)
      decreases |todo|
    {
      var i :| i in todo;
      if i < n {
        if starts[i] in t.start { failed[i] := true; }
      } else {
        if stops[i - n] in t.stop { failed[i] := true; }
      }
      todo := todo - {i};
    }
  }

  class Cluster {
    /** Absent when the stored provision status does not parse. */
    var provision: Option<Provisions>

    method RecordStarts(starts: seq<Ip>, failed: array<bool>, t: Trouble, now: int)
      requires provision.Some? && |starts| <= failed.Length
      requires forall i :: 0 <= i < |starts| ==> failed[i] == (starts[i] in t.start)
      modifies this
      ensures provision == Some(After(old(provision.value), Members(starts), {}, t, now))
    {
      var m := provision.value;
      for i := 0 to |starts|
        invariant m == After(old(provision.value), Members(starts[..i]), {}, t, now)
      {
        assert starts[..i + 1] == starts[..i] + [starts[i]];
        var standing := if failed[i] then Provisioning else Provisioned;
        m := m[starts[i] := Provision(standing, Some(now), false)];
      }
      assert starts[..|starts|] == starts;
      provision := Some(m);
    }

    method RecordStops(stops: seq<Ip>, failed: array<bool>, offset: nat, t: Trouble, now: int)
      requires provision.Some? && failed.Length == offset + |stops|
      requires forall i :: 0 <= i < |stops| ==> failed[offset + i] == (stops[i] in t.stop)
      modifies this
      ensures provision == Some(After(old(provision.value), {}, Members(stops), t, now))
    {
      var m := provision.value;
      for i := 0 to |stops|
        invariant m == After(old(provision.value), {}, Members(stops[..i]), t, now)
      {
        assert stops[..i + 1] == stops[..i] + [stops[i]];
        if !failed[offset + i] {
          m := m - {stops[i]};
        }
      }
      assert stops[..|stops|] == stops;
      provision := Some(m);
    }

    /** Returns whether the pass went without error. */
    method ReconcileWorkerNode(desired: seq<Ip>, listing: Option<seq<RayNode>>, t: Trouble, now: int, wait: int)
      returns (ok: bool)
      modifies this
      ensures listing.None? || old(provision).None? ==> !ok && provision == old(provision)
      ensures listing.Some? && old(provision).Some? ==>
                && provision == Some(Next(old(provision.value), listing.value, desired, t, now, wait))
                && ok == !Failed(old(provision.value), listing.value, desired, t, now, wait)
    {
      if listing.None? {
        return false;
      }
      var states := ObserveWorkers(listing.value);
      if provision.None? {
        return false;
      }
      var m := provision.value;
      var wanted := set ip | ip in desired;
      var stops := CollectStops(m, wanted);
      var starts := CollectStarts(m, states, listing.value, wanted, now, wait);
      assert Members(stops) == Stops(m, desired);
      assert Members(starts) == Starts(m, listing.value, desired, now, wait);
      var failed := RunOperations(starts, stops, t);
      RecordStarts(starts, failed, t, now);
      RecordStops(stops, failed, |starts|, t, now);
      StartsThenStops(m, Members(starts), Members(stops), t, now);
      ok := true;
      for i := 0 to failed.Length
        invariant ok <==> forall j :: 0 <= j < i ==> !failed[j]
      {
        if failed[i] { ok := false; }
      }
      SlotsTellFailure(starts, stops, t, failed[..]);
    }
  }

  lemma StartsThenStops(m: Provisions, starts: set<Ip>, stops: set<Ip>, t: Trouble, now: int)
    requires starts !! stops
    ensures After(After(m, starts, {}, t, now), {}, stops, t, now) == After(m, starts, stops, t, now)
  {
  }

  lemma SlotsTellFailure(starts: seq<Ip>, stops: seq<Ip>, t: Trouble, failed: seq<bool>)
    requires |failed| == |starts| + |stops|
    requires forall i :: 0 <= i < |starts| ==> failed[i] == (starts[i] in t.start)
    requires forall i :: 0 <= i < |stops| ==> failed[|starts| + i] == (stops[i] in t.stop)
    ensures (exists j :: 0 <= j < |failed| && failed[j])
       <==> Members(starts) * t.start + Members(stops) * t.stop != {}
  {
    if j :| 0 <= j < |failed| && failed[j] {
      if j < |starts| {
        assert starts[j] in Members(starts) * t.start;
      } else {
        assert failed[|starts| + (j - |starts|)];
        assert stops[j - |starts|] in Members(stops) * t.stop;
      }
    }
    if ip :| ip in Members(starts) * t.start {
      var i :| 0 <= i < |starts| && starts[i] == ip;
      assert failed[i];
    }
    if ip :| ip in Members(stops) * t.stop {
      var i :| 0 <= i < |stops| && stops[i] == ip;
      assert failed[|starts| + i];
    }
  }

  /** For every pattern of failures: no desired worker is forgotten, an undesired one
      stays only if its stop failed, and being marked Provisioned anew means the start
      succeeded. */
  lemma PassIsSound(m: Provisions, nodes: seq<RayNode>, desired: seq<Ip>, t: Trouble, now: int, wait: int)
    ensures var next := Next(m, nodes, desired, t, now, wait);
            var starts := Starts(m, nodes, desired, now, wait);
            && Members(desired) <= next.Keys
            && (forall ip :: ip in next && !next[ip].isHead && ip !in desired <==>
                             ip in m && !m[ip].isHead && ip !in desired && ip in t.stop)
            && (forall ip :: ip in starts ==> (next[ip].standing == Provisioned <==> ip !in t.start))
            && (forall ip :: ip in next && ip !in starts ==> ip in m && next[ip] == m[ip])
  {
  }

  /** A head entry is left alone exactly when the head is not started as a worker. */
  lemma HeadIsLeftAlone(m: Provisions, nodes: seq<RayNode>, desired: seq<Ip>, t: Trouble, now: int, wait: int, head: Ip)
    requires head in m && m[head].isHead
    ensures head in Next(m, nodes, desired, t, now, wait)
    ensures Next(m, nodes, desired, t, now, wait)[head] == m[head]
       <==> head !in Starts(m, nodes, desired, now, wait)
  {
  }

  function WorkerKeys(m: Provisions): set<Ip>
  {
    set ip | ip in m && !m[ip].isHead
  }

  /** A pass without failures leaves exactly the desired workers, and repeating it at
      once with the same listing starts and stops nothing. */
  lemma CleanPassConverges(m: Provisions, nodes: seq<RayNode>, desired: seq<Ip>, t: Trouble, now: int, wait: int)
    requires !Failed(m, nodes, desired, t, now, wait)
    requires forall ip :: ip in m && m[ip].isHead ==> ip !in desired
    requires wait > 0
    ensures var next := Next(m, nodes, desired, t, now, wait);
            && WorkerKeys(next) == Members(desired)
            && Starts(next, nodes, desired, now, wait) == {}
            && Stops(next, desired) == {}
  {
    var next := Next(m, nodes, desired, t, now, wait);
    var starts, stops := Starts(m, nodes, desired, now, wait), Stops(m, desired);
    assert starts * t.start == {} && stops * t.stop == {};
    assert forall ip :: ip in starts && ip in t.start ==> ip in starts * t.start;
    assert forall ip :: ip in stops && ip in t.stop ==> ip in stops * t.stop;
    PassIsSound(m, nodes, desired, t, now, wait);
  }

  /** Whatever failed is tried again by the next pass over the same list. */
  lemma FailuresAreRetried(m: Provisions, nodes: seq<RayNode>, desired: seq<Ip>, t: Trouble, now: int, wait: int,
                           laterNodes: seq<RayNode>, later: int)
    ensures var next := Next(m, nodes, desired, t, now, wait);
            && Starts(m, nodes, desired, now, wait) * t.start <= Starts(next, laterNodes, desired, later, wait)
            && Stops(m, desired) * t.stop == Stops(next, desired)
  {
    PassIsSound(m, nodes, desired, t, now, wait);
  }
}
