/** The peer governor: a map of peers updated in place by connection events and by ticks. */
module GovernorModel {
  import opened Collections
  import opened Era
  import opened Ranking
  import opened Peers

  // ---- Specification of the single-peer operations -----------------------

  function NewPeer(id: NodeId, addrs: seq<string>, groups: seq<GroupId>, now: Time): PeerInfo {
    PeerInfo(id, addrs, Cold, groups, None, now, 0, None, None, 0, None, false)
  }

  function WithAdded(peers: PeerMap, id: NodeId, addrs: seq<string>, groups: seq<GroupId>, now: Time): PeerMap {
    peers[id := if id in peers then peers[id].(addrs := addrs, groups := groups) else NewPeer(id, addrs, groups, now)]
  }

  function WithActivity(peers: PeerMap, id: NodeId, rtt: Option<Millis>, now: Time): PeerMap {
    if id !in peers then peers
    else peers[id := peers[id].(lastActivity := now, rttMs := if rtt.Some? then rtt else peers[id].rttMs)]
  }

  function WithDelivered(peers: PeerMap, id: NodeId, count: nat, now: Time): PeerMap {
    if id !in peers then peers
    else peers[id := peers[id].(itemsDelivered := peers[id].itemsDelivered + count, lastActivity := now)]
  }

  function WithConnected(peers: PeerMap, id: NodeId, now: Time): PeerMap {
    if id !in peers || !peers[id].state.Cold? then peers
    else peers[id := peers[id].(state := Warm, connectedSince := Some(now), lastActivity := now)]
  }

  function WithDisconnected(peers: PeerMap, id: NodeId, now: Time): PeerMap {
    if id !in peers || !peers[id].state.IsActive() then peers
    else peers[id := peers[id].(state := Cold, connectedSince := None,
                                disconnectCount := peers[id].disconnectCount + 1, lastDisconnected := Some(now))]
  }

  function WithDialFailed(peers: PeerMap, id: NodeId, now: Time): PeerMap {
    if id !in peers then peers
    else peers[id := peers[id].(disconnectCount := peers[id].disconnectCount + 1, lastDisconnected := Some(now))]
  }

  function WithRelay(peers: PeerMap, id: NodeId, isRelay: bool): PeerMap {
    if id !in peers then peers else peers[id := peers[id].(isRelay := isRelay)]
  }

  /** Moves the entry of `old` to `id`, unless `id` is connected: then only `old`'s relay flag moves. */
  function WithReplaced(peers: PeerMap, old_: NodeId, id: NodeId, groups: seq<GroupId>): PeerMap {
    if id in peers && peers[id].state.IsActive() then
      var rest := peers - {old_};
      if old_ in peers && peers[old_].isRelay && id in rest then rest[id := rest[id].(isRelay := true)] else rest
    else if old_ in peers then (peers - {old_})[id := peers[old_].(nodeId := id, groups := groups)]
    else peers
  }

  function WithBan(peers: PeerMap, id: NodeId, reason: string, now: Time): PeerMap {
    if id !in peers then peers
    else
      var escalation := if peers[id].state.Banned? then peers[id].state.escalation + 1 else 1;
      peers[id := peers[id].(state := Banned(now + BAN_BASE_DURATION * escalation, reason, escalation),
        connectedSince := None)]
  }

  lemma AfterOne(phase: Phase, now: Time, peers: PeerMap, touched: set<NodeId>, id: NodeId)
    requires id in peers
    ensures After(phase, now, peers, touched)[id := Effect(phase, now, peers[id])]
              == After(phase, now, peers, touched + {id})
  {
  }

  lemma AfterKeepsKeys(phase: Phase, now: Time, peers: PeerMap, touched: set<NodeId>)
    requires WellKeyed(peers)
    ensures WellKeyed(After(phase, now, peers, touched))
  {
  }

  /** The first `k` of a list without repetition, or all of it. */
  lemma TakeSome<T>(s: seq<T>, k: nat)
    requires NoDup(s)
    ensures var r := s[..Min(k, |s|)];
            NoDup(r) && Elems(r) <= Elems(s) && |r| == Min(k, |Elems(s)|)
  {
    NoDupCardinality(s);
  }

  function IsHot(peers: PeerMap): NodeId -> bool { id => id in peers && peers[id].state.Hot? }
  function IsWarm(peers: PeerMap): NodeId -> bool { id => id in peers && peers[id].state.Warm? }
  function IsCold(peers: PeerMap): NodeId -> bool { id => id in peers && peers[id].state.Cold? }

  lemma CountsAll(peers: PeerMap, order: seq<NodeId>)
    requires NoDup(order) && Elems(order) == peers.Keys
    ensures Count(IsHot(peers), order) == |Hots(peers)|
    ensures Count(IsWarm(peers), order) == |Warms(peers)|
    ensures Count(IsCold(peers), order) == |Colds(peers)|
    ensures |order| == |peers| && |Hots(peers)| + |Warms(peers)| == |Actives(peers)|
  {
    assert forall id :: id in peers <==> id in Elems(order);
    CountOf(IsHot(peers), order, Hots(peers));
    CountOf(IsWarm(peers), order, Warms(peers));
    CountOf(IsCold(peers), order, Colds(peers));
    NoDupCardinality(order);
    assert Actives(peers) == Hots(peers) + Warms(peers);
  }

  /** What touching one more peer adds to the log. */
  lemma LogStep(phase: Phase, now: Time, peers: PeerMap, ids: seq<NodeId>, i: nat)
    requires i < |ids| && NoDup(ids) && Elems(ids) <= peers.Keys
    ensures Elems(ids[..i]) <= peers.Keys && Elems(ids[..i + 1]) == Elems(ids[..i]) + {ids[i]} <= peers.Keys
    ensures ids[i] in peers && ids[i] !in Elems(ids[..i])
    ensures LogOf(phase, now, peers, ids[..i + 1]) == LogOf(phase, now, peers, ids[..i]) +
              [Transition(ids[i], peers[ids[i]].state.Name(), Effect(phase, now, peers[ids[i]]).state.Name())]
    ensures DropsOf(phase, now, peers, ids[..i + 1]) == DropsOf(phase, now, peers, ids[..i]) +
              (if Drops(phase, now, peers[ids[i]]) then [ids[i]] else [])
  {
    assert ids[i] in Elems(ids);
    assert ids[..i + 1] == ids[..i] + [ids[i]];
    assert ids[..i + 1][..i] == ids[..i];
    assert Elems(ids[..i + 1]) == Elems(ids[..i]) + {ids[i]};
    assert Elems(ids[..i + 1]) <= Elems(ids);
  }

  lemma NoDemotion(cfg: Config, now: Time, peers: PeerMap)
    requires |Hots(peers)| <= cfg.targets.hotMax
    ensures DemoteSpec(cfg, now, peers, []) && After(Demote, now, peers, Elems([])) == peers
            && LogOf(Demote, now, peers, []) == []
  {
    BestOfNone(StaleKeys(now, peers), Hots(peers));
    assert Elems<NodeId>([]) == {};
  }

  lemma NoChurn(cfg: Config, now: Time, lastChurn: Time, peers: PeerMap)
    requires ChurnQuota(cfg, now, lastChurn, peers) == 0
    ensures ChurnSpec(cfg, now, lastChurn, peers, [], []) && After(Churn, now, peers, Elems([])) == peers
    ensures LogOf(Churn, now, peers, []) == [] && DropsOf(Churn, now, peers, []) == []
  {
    assert Elems<NodeId>([]) == {};
  }

  class Governor {
    var peers: PeerMap
    var targets: Targets
    var ourGroups: seq<GroupId>
    var lastChurn: Time
    var policy: DialPolicy

    ghost predicate Valid()
      reads this
    {
      WellKeyed(peers)
    }

    function Cfg(): Config
      reads this
    {
      Config(targets, ourGroups, policy)
    }

    function State(): GovState
      reads this
    {
      GovState(peers, lastChurn)
    }

    constructor (targets: Targets, ourGroups: seq<GroupId>, policy: DialPolicy, now: Time)
      ensures Valid() && State() == GovState(map[], now) && Cfg() == Config(targets, ourGroups, policy)
    {
      this.peers := map[];
      this.targets := targets;
      this.ourGroups := ourGroups;
      this.lastChurn := now;
      this.policy := policy;
    }

    method SetGroups(groups: seq<GroupId>)
      modifies this`ourGroups
      ensures ourGroups == groups
    {
      ourGroups := groups;
    }

    method AddPeer(id: NodeId, addrs: seq<string>, groups: seq<GroupId>, now: Time)
      requires Valid()
      modifies this`peers
      ensures Valid() && peers == WithAdded(old(peers), id, addrs, groups, now)
    {
      if id in peers {
        peers := peers[id := peers[id].(addrs := addrs, groups := groups)];
      } else {
        peers := peers[id := NewPeer(id, addrs, groups, now)];
      }
    }

    method RecordActivity(id: NodeId, rtt: Option<Millis>, now: Time)
      requires Valid()
      modifies this`peers
      ensures Valid() && peers == WithActivity(old(peers), id, rtt, now)
    {
      if id in peers {
        var p := peers[id].(lastActivity := now);
        if rtt.Some? {
          p := p.(rttMs := rtt);
        }
        peers := peers[id := p];
      }
    }

    method RecordItemsDelivered(id: NodeId, count: nat, now: Time)
      requires Valid()
      modifies this`peers
      ensures Valid() && peers == WithDelivered(old(peers), id, count, now)
    {
      if id in peers {
        peers := peers[id := peers[id].(itemsDelivered := peers[id].itemsDelivered + count, lastActivity := now)];
      }
    }

    method MarkConnected(id: NodeId, now: Time)
      requires Valid()
      modifies this`peers
      ensures Valid() && peers == WithConnected(old(peers), id, now)
    {
      if id in peers {
        if peers[id].state == Cold {
          peers := peers[id := peers[id].(state := Warm, connectedSince := Some(now), lastActivity := now)];
        }
      }
    }

    method MarkDisconnected(id: NodeId, now: Time)
      requires Valid()
      modifies this`peers
      ensures Valid() && peers == WithDisconnected(old(peers), id, now)
    {
      if id in peers {
        var p := peers[id];
        if p.state.IsActive() {
          p := p.(state := Cold, connectedSince := None);
          p := p.(disconnectCount := p.disconnectCount + 1, lastDisconnected := Some(now));
          peers := peers[id := p];
        }
      }
    }

    method MarkDialFailed(id: NodeId, now: Time)
      requires Valid()
      modifies this`peers
      ensures Valid() && peers == WithDialFailed(old(peers), id, now)
    {
      if id in peers {
        var p := peers[id];
        peers := peers[id := p.(disconnectCount := p.disconnectCount + 1, lastDisconnected := Some(now))];
      }
    }

    method SetPeerRelay(id: NodeId, isRelay: bool)
      requires Valid()
      modifies this`peers
      ensures Valid() && peers == WithRelay(old(peers), id, isRelay)
    {
      if id in peers {
        peers := peers[id := peers[id].(isRelay := isRelay)];
      }
    }

    method ReplaceNodeId(old_: NodeId, id: NodeId, groups: seq<GroupId>) returns (replaced: bool)
      requires Valid()
      modifies this`peers
      ensures Valid() && peers == WithReplaced(old(peers), old_, id, groups)
      ensures replaced <==> old_ in old(peers) || (id in old(peers) && old(peers)[id].state.IsActive())
    {
      if id in peers && peers[id].state.IsActive() {
        if old_ in peers {
          var placeholder := peers[old_];
          peers := peers - {old_};
          if placeholder.isRelay {
            if id in peers {
              peers := peers[id := peers[id].(isRelay := true)];
            }
          }
        } else {
          assert peers - {old_} == peers;
        }
        return true;
      }
      if old_ in peers {
        var p := peers[old_];
        peers := peers - {old_};
        peers := peers[id := p.(nodeId := id, groups := groups)];
        return true;
      }
      return false;
    }

    method BanPeer(id: NodeId, reason: string, now: Time)
      requires Valid()
      modifies this`peers
      ensures Valid() && peers == WithBan(old(peers), id, reason, now)
    {
      if id in peers {
        var escalation := match peers[id].state
          case Banned(_, _, e) => e + 1
          case _ => 1;
        var duration := BAN_BASE_DURATION * escalation;
        peers := peers[id := peers[id].(state := Banned(now + duration, reason, escalation), connectedSince := None)];
      }
    }

    /** Counts by state, as one pass over the map. */
    method Counts() returns (hot: nat, warm: nat, cold: nat, banned: nat)
      ensures hot == |Hots(peers)| && warm == |Warms(peers)| && cold == |Colds(peers)|
      ensures hot + warm + cold + banned == |peers|
      ensures hot + warm == |Actives(peers)|
    {
      hot, warm, cold, banned := 0, 0, 0, 0;
      var order := Enumerate(peers.Keys);
      for i := 0 to |order|
        invariant hot + warm + cold + banned == i
        invariant hot == Count(IsHot(peers), order[..i])
        invariant warm == Count(IsWarm(peers), order[..i])
        invariant cold == Count(IsCold(peers), order[..i])
      {
        assert order[i] in Elems(order);
        assert order[..i + 1][..i] == order[..i];
        match peers[order[i]].state
        case Hot => hot := hot + 1;
        case Warm => warm := warm + 1;
        case Cold => cold := cold + 1;
        case Banned(_, _, _) => banned := banned + 1;
      }
      assert order[..|order|] == order;
      CountsAll(peers, order);
    }

    /** The ids of the peers satisfying `want`, in iteration order. */
    method Collect(want: PeerInfo -> bool) returns (ids: seq<NodeId>)
      requires Valid()
      ensures NoDup(ids)
      ensures Elems(ids) == set id | id in peers && want(peers[id])
    {
      var order := Enumerate(peers.Keys);
      ids := [];
      for i := 0 to |order|
        invariant NoDup(ids)
        invariant Elems(ids) == set id | id in order[..i] && id in peers && want(peers[id])
      {
        var id := order[i];
        assert id in Elems(order);
        assert order[..i + 1] == order[..i] + [id];
        if want(peers[id]) {
          assert id !in order[..i];
          assert id !in Elems(ids);
          assert Elems(ids + [peers[id].nodeId]) == Elems(ids) + {id};
          ids := ids + [peers[id].nodeId];
        }
      }
      assert order[..|order|] == order;
      assert forall id :: id in peers ==> id in Elems(order);
    }

    /**
      * Moves each listed peer as `phase` does, logging the transition and, for an active peer turned Cold, the
      * disconnect.
      */
    method MoveAll(phase: Phase, now: Time, ids: seq<NodeId>, acts: Actions) returns (acts': Actions)
      requires Valid() && NoDup(ids) && Elems(ids) <= peers.Keys
      modifies this`peers
      ensures Valid() && peers == After(phase, now, old(peers), Elems(ids))
      ensures acts'.connect == acts.connect
      ensures acts'.disconnect == acts.disconnect + DropsOf(phase, now, old(peers), ids)
      ensures acts'.transitions == acts.transitions + LogOf(phase, now, old(peers), ids)
    {
      ghost var before := peers;
      var drops: seq<NodeId>, log: seq<Transition> := [], [];
      assert After(phase, now, before, Elems(ids[..0])) == before;
      for i := 0 to |ids|
        invariant Elems(ids[..i]) <= before.Keys
        invariant peers == After(phase, now, before, Elems(ids[..i]))
        invariant drops == DropsOf(phase, now, before, ids[..i])
        invariant log == LogOf(phase, now, before, ids[..i])
      {
        var id := ids[i];
        LogStep(phase, now, before, ids, i);
        AfterOne(phase, now, before, Elems(ids[..i]), id);
        var p := peers[id];
        assert p == before[id];
        var q := Effect(phase, now, p);
        peers := peers[id := q];
        if p.state.IsActive() && q.state.Cold? {
          drops := drops + [id];
        }
        log := log + [Transition(id, p.state.Name(), q.state.Name())];
      }
      assert ids[..|ids|] == ids;
      AfterKeepsKeys(phase, now, before, Elems(ids));
      acts' := Actions(acts.connect, acts.disconnect + drops, acts.transitions + log);
    }

    method UnbanExpired(now: Time, acts: Actions) returns (acts': Actions, ghost unbanned: seq<NodeId>)
      requires Valid()
      modifies this`peers
      ensures Valid() && NoDup(unbanned) && Elems(unbanned) == ExpiredBans(old(peers), now)
      ensures peers == After(Unban, now, old(peers), Elems(unbanned))
      ensures acts' == acts.(transitions := acts.transitions + LogOf(Unban, now, old(peers), unbanned))
    {
      var ids := Collect((p: PeerInfo) => BanExpired(p, now));
      assert Elems(ids) == ExpiredBans(peers, now);
      unbanned := ids;
      NothingDropped(Unban, now, peers, ids);
      acts' := MoveAll(Unban, now, ids, acts);
    }

    method ReapDead(now: Time, acts: Actions) returns (acts': Actions, ghost reaped: seq<NodeId>)
      requires Valid()
      modifies this`peers
      ensures Valid() && NoDup(reaped) && Elems(reaped) == Dead(old(peers), now)
      ensures peers == After(Reap, now, old(peers), Elems(reaped))
      ensures acts' == acts.(transitions := acts.transitions + LogOf(Reap, now, old(peers), reaped),
                             disconnect := acts.disconnect + DropsOf(Reap, now, old(peers), reaped))
    {
      var ids := Collect((p: PeerInfo) => p.state.IsActive() && Silent(p, now));
      assert Elems(ids) == Dead(peers, now);
      reaped := ids;
      acts' := MoveAll(Reap, now, ids, acts);
    }

    method PromoteColdToWarm(now: Time, acts: Actions) returns (acts': Actions, dialled: seq<NodeId>)
      requires Valid()
      ensures DialSpec(Cfg(), now, peers, dialled)
      ensures acts' == acts.(connect := acts.connect + dialled)
    {
      var hot, warm, cold, _ := Counts();
      var active := warm + hot;
      if active >= targets.warmMax {
        BestOfNone(OverlapKeys(Cfg(), peers), DialCandidates(Cfg(), now, peers));
        return acts, [];
      }
      var needed := targets.warmMax - active;
      var keys := OverlapKeys(Cfg(), peers);
      var dialPolicy := policy;
      var found := Collect((p: PeerInfo) => p.state.Cold? && IsDialable(dialPolicy, p) && BackoffOver(p, now));
      assert Elems(found) == DialCandidates(Cfg(), now, peers);
      NoDupCardinality(found);
      var candidates := SelectBest(keys, found, needed);
      NoDupCardinality(candidates);
      if candidates == [] {
        // The same filter again, unsorted: it cannot find anyone either.
        assert found == [];
        candidates := found[..Min(needed, |found|)];
      }
      dialled := candidates;
      acts' := acts.(connect := acts.connect + candidates);
    }

    /** Keeps the entry with the better score. */
    method BestByScore(ids: seq<NodeId>, now: Time) returns (best: NodeId)
      requires ids != [] && Elems(ids) <= peers.Keys
      ensures best in ids
      ensures forall id :: id in ids ==> Score(peers[id], now) <= Score(peers[best], now)
    {
      assert forall k :: 0 <= k < |ids| ==> ids[k] in Elems(ids);
      best := ids[0];
      for i := 1 to |ids|
        invariant best in ids
        invariant forall k :: 0 <= k < i ==> Score(peers[ids[k]], now) <= Score(peers[best], now)
      {
        if Score(peers[best], now) <= Score(peers[ids[i]], now) {
          best := ids[i];
        }
      }
    }

    method WorstScore(ids: seq<NodeId>, now: Time) returns (worst: Option<real>)
      requires Elems(ids) <= peers.Keys
      ensures worst.None? <==> ids == []
      ensures worst.Some? ==> exists id :: id in ids && Score(peers[id], now) == worst.value
      ensures worst.Some? ==> forall id :: id in ids ==> worst.value <= Score(peers[id], now)
    {
      assert forall k :: 0 <= k < |ids| ==> ids[k] in Elems(ids);
      if ids == [] {
        return None;
      }
      var low := Score(peers[ids[0]], now);
      for i := 1 to |ids|
        invariant exists id :: id in ids && Score(peers[id], now) == low
        invariant forall k :: 0 <= k < i ==> low <= Score(peers[ids[k]], now)
      {
        if Score(peers[ids[i]], now) < low {
          low := Score(peers[ids[i]], now);
        }
      }
      worst := Some(low);
    }

    /** The one best eligible peer if it outperforms a hot peer and `hotMax` leaves room. */
    method PickOutperformer(now: Time, hot: nat, eligible: seq<NodeId>) returns (ids: seq<NodeId>)
      requires Valid() && hot == |Hots(peers)| >= targets.hotMin
      requires NoDup(eligible) && Elems(eligible) == EligibleWarm(now, peers)
      ensures PromoteSpec(Cfg(), now, peers, ids)
    {
      var hotIds := Collect((p: PeerInfo) => p.state.Hot?);
      assert Elems(hotIds) == Hots(peers);
      var worst := WorstScore(hotIds, now);
      ids := [];
      if eligible != [] {
        var best := BestByScore(eligible, now);
        assert best in Elems(eligible);
        if hot < targets.hotMax && worst.Some? && Score(peers[best], now) > worst.value {
          ids := [best];
        }
      }
      assert forall id :: id in Elems(eligible) <==> id in eligible;
      assert forall id :: id in Elems(hotIds) <==> id in hotIds;
      OutperformerMeetsSpec(Cfg(), now, peers, worst, ids);
    }

    method PromoteWarmToHot(now: Time, acts: Actions) returns (acts': Actions, ghost promoted: seq<NodeId>)
      requires Valid()
      modifies this`peers
      ensures Valid() && PromoteSpec(Cfg(), now, old(peers), promoted)
      ensures peers == After(Promote, now, old(peers), Elems(promoted))
      ensures acts' == acts.(transitions := acts.transitions + LogOf(Promote, now, old(peers), promoted))
    {
      var hot, _, _, _ := Counts();
      var eligible := Collect((p: PeerInfo) => p.state.Warm? && CooledDown(p, now));
      assert Elems(eligible) == EligibleWarm(now, peers);
      var ids;
      if hot >= targets.hotMin {
        ids := PickOutperformer(now, hot, eligible);
      } else {
        ids := SelectBest(ScoreKeys(now, peers), eligible, targets.hotMin - hot);
      }
      promoted := ids;
      NothingDropped(Promote, now, peers, ids);
      acts' := MoveAll(Promote, now, ids, acts);
    }

    /** The `excess` hot peers to give up first: stale ones, then those with the worst score. */
    method WorstHot(now: Time, excess: nat) returns (ids: seq<NodeId>)
      requires Valid()
      ensures NoDup(ids) && Best(StaleKeys(now, peers), Hots(peers), Elems(ids), excess)
    {
      var hotIds := Collect((p: PeerInfo) => p.state.Hot?);
      assert Elems(hotIds) == Hots(peers);
      ids := SelectBest(StaleKeys(now, peers), hotIds, excess);
    }

    method DemoteExcessHot(now: Time, acts: Actions) returns (acts': Actions, ghost demoted: seq<NodeId>)
      requires Valid()
      modifies this`peers
      ensures Valid() && DemoteSpec(Cfg(), now, old(peers), demoted)
      ensures peers == After(Demote, now, old(peers), Elems(demoted))
      ensures acts' == acts.(transitions := acts.transitions + LogOf(Demote, now, old(peers), demoted))
    {
      var hot, _, _, _ := Counts();
      if hot <= targets.hotMax {
        NoDemotion(Cfg(), now, peers);
        return acts, [];
      }
      var excess := hot - targets.hotMax;
      var ids := WorstHot(now, excess);
      demoted := ids;
      NothingDropped(Demote, now, peers, ids);
      acts' := MoveAll(Demote, now, ids, acts);
    }

    method ChurnPeers(now: Time, acts: Actions)
      returns (acts': Actions, ghost churned: seq<NodeId>, ghost redialled: seq<NodeId>)
      requires Valid()
      modifies this`peers, this`lastChurn
      ensures Valid() && ChurnSpec(Cfg(), now, old(lastChurn), old(peers), churned, redialled)
      ensures peers == After(Churn, now, old(peers), Elems(churned))
      ensures lastChurn == if ChurnDue(Cfg(), now, old(lastChurn)) then now else old(lastChurn)
      ensures acts' == Actions(acts.connect + redialled,
                               acts.disconnect + DropsOf(Churn, now, old(peers), churned),
                               acts.transitions + LogOf(Churn, now, old(peers), churned))
    {
      churned, redialled := [], [];
      acts' := acts;
      if Since(now, lastChurn) < targets.churnInterval {
        NoChurn(Cfg(), now, lastChurn, peers);
        return;
      }
      ghost var was := lastChurn;
      lastChurn := now;
      var _, warm, cold, _ := Counts();
      var churnCount := ChurnCount(warm, targets.churnFraction);
      if churnCount == 0 || cold == 0 {
        NoChurn(Cfg(), now, was, peers);
        return;
      }
      var warmIds := Collect((p: PeerInfo) => p.state.Warm?);
      assert Elems(warmIds) == Warms(peers);
      TakeSome(warmIds, churnCount);
      var demoted := warmIds[..Min(churnCount, |warmIds|)];
      churned := demoted;
      acts' := MoveAll(Churn, now, demoted, acts);
      var dialPolicy := policy;
      var coldIds := Collect((p: PeerInfo) => p.state.Cold? && IsDialable(dialPolicy, p));
      assert Elems(coldIds) == ColdDialable(Cfg(), peers);
      TakeSome(coldIds, churnCount);
      redialled := coldIds[..Min(churnCount, |coldIds|)];
      acts' := acts'.(connect := acts'.connect + coldIds[..Min(churnCount, |coldIds|)]);
    }

    method RemoveAll(ids: seq<NodeId>)
      requires Valid()
      modifies this`peers
      ensures Valid() && peers == old(peers) - Elems(ids)
    {
      ghost var before := peers;
      assert before - Elems(ids[..0]) == before;
      for i := 0 to |ids|
        invariant peers == before - Elems(ids[..i])
      {
        assert ids[..i + 1] == ids[..i] + [ids[i]];
        assert Elems(ids[..i + 1]) == Elems(ids[..i]) + {ids[i]};
        peers := peers - {ids[i]};
      }
      assert ids[..|ids|] == ids;
    }

    method EvictExcessCold() returns (ghost evicted: seq<NodeId>)
      requires Valid()
      modifies this`peers
      ensures Valid() && EvictSpec(Cfg(), old(peers), evicted)
      ensures peers == old(peers) - Elems(evicted)
    {
      var _, _, cold, _ := Counts();
      if cold <= targets.coldMax {
        BestOfNone(AgeKeys(peers), Colds(peers));
        assert peers - Elems([]) == peers;
        return [];
      }
      var excess := cold - targets.coldMax;
      var coldIds := Collect((p: PeerInfo) => p.state.Cold?);
      assert Elems(coldIds) == Colds(peers);
      var ids := SelectBest(AgeKeys(peers), coldIds, excess);
      evicted := ids;
      RemoveAll(ids);
    }

    /** The seven phases in order. `trace` names the peers each phase touched. */
    method Tick(now: Time) returns (acts: Actions, ghost trace: Trace)
      requires Valid()
      modifies this`peers, this`lastChurn
      ensures Valid()
      ensures Ticked(Cfg(), now, old(State()), trace, State(), acts)
    {
      ghost var s, cfg := State(), Cfg();
      ghost var unbanned, reaped, dialled, promoted, demoted, churned, redialled, evicted;
      acts := Actions([], [], []);
      acts, unbanned := UnbanExpired(now, acts);
      ghost var p1 := peers;
      acts, reaped := ReapDead(now, acts);
      ghost var p2 := peers;
      acts, dialled := PromoteColdToWarm(now, acts);
      acts, promoted := PromoteWarmToHot(now, acts);
      ghost var p3 := peers;
      acts, demoted := DemoteExcessHot(now, acts);
      ghost var p4 := peers;
      assert lastChurn == s.lastChurn && Cfg() == cfg;
      acts, churned, redialled := ChurnPeers(now, acts);
      assert Cfg() == cfg && ChurnSpec(cfg, now, s.lastChurn, p4, churned, redialled);
      ghost var p5 := peers;
      evicted := EvictExcessCold();
      trace := Trace(unbanned, reaped, dialled, promoted, demoted, churned, redialled, evicted);
      ghost var s' := State();
      assert Cfg() == cfg && s == old(State());
      assert Ticked(cfg, now, s, trace, s', acts) by {
        PhasesMakeATick(cfg, now, s, trace, s', acts, p1, p2, p3, p4, p5);
      }
    }
  }

  /** Phases that never turn an active peer Cold ask for no disconnects. */
  lemma {:induction false} NothingDropped(phase: Phase, now: Time, peers: PeerMap, ids: seq<NodeId>)
    requires Elems(ids) <= peers.Keys
    requires forall id :: id in ids ==> !Drops(phase, now, peers[id])
    ensures DropsOf(phase, now, peers, ids) == []
    decreases |ids|
  {
    if ids == [] {
    } else {
      assert Elems(ids[..|ids| - 1]) <= Elems(ids);
      NothingDropped(phase, now, peers, ids[..|ids| - 1]);
    }
  }

  /** Promoting the one best eligible peer, or no one, meets the specification once `hotMin` is reached. */
  lemma OutperformerMeetsSpec(cfg: Config, now: Time, peers: PeerMap, worst: Option<real>, ids: seq<NodeId>)
    requires |Hots(peers)| >= cfg.targets.hotMin
    requires worst.None? <==> Hots(peers) == {}
    requires worst.Some? ==> exists h :: h in Hots(peers) && Score(peers[h], now) == worst.value
    requires worst.Some? ==> forall h :: h in Hots(peers) ==> worst.value <= Score(peers[h], now)
    requires ids == [] || (ids == [ids[0]] && ids[0] in EligibleWarm(now, peers) && |Hots(peers)| < cfg.targets.hotMax
                           && worst.Some? && worst.value < Score(peers[ids[0]], now)
                           && forall w :: w in EligibleWarm(now, peers) ==>
                              Score(peers[w], now) <= Score(peers[ids[0]], now))
    requires ids == [] ==> |Hots(peers)| >= cfg.targets.hotMax || worst.None?
                           || forall w :: w in EligibleWarm(now, peers) ==> Score(peers[w], now) <= worst.value
    ensures PromoteSpec(cfg, now, peers, ids)
  {
    var pool := EligibleWarm(now, peers);
    if ids == [] {
      BestOfNone(ScoreKeys(now, peers), pool);
    } else {
      assert Elems(ids) == {ids[0]};
      SubsetCardinality({ids[0]}, pool);
      var h :| h in Hots(peers) && Score(peers[h], now) == worst.value;
      assert SomeWarmBeatsAHot(now, peers);
    }
  }
}
