/** What every tick guarantees, whatever state it starts from. */
module GovernorTheorems {
  import opened Collections
  import opened Era
  import opened Peers

  // ---- How the phases move the hot and active sets -----------------------

  lemma ReapSets(now: Time, p: PeerMap, touched: set<NodeId>)
    ensures Actives(After(Reap, now, p, touched)) <= Actives(p)
    ensures Hots(After(Reap, now, p, touched)) == Hots(p) - touched
  {
  }

  lemma UnbanSets(now: Time, p: PeerMap, touched: set<NodeId>)
    requires touched == ExpiredBans(p, now)
    ensures Actives(After(Unban, now, p, touched)) == Actives(p)
    ensures Hots(After(Unban, now, p, touched)) == Hots(p)
  {
  }

  lemma PromoteSets(now: Time, p: PeerMap, touched: set<NodeId>)
    requires touched <= Warms(p)
    ensures Actives(After(Promote, now, p, touched)) == Actives(p)
    ensures Hots(After(Promote, now, p, touched)) == Hots(p) + touched && Hots(p) !! touched
  {
  }

  lemma DemoteSets(now: Time, p: PeerMap, touched: set<NodeId>)
    requires touched <= Hots(p)
    ensures Actives(After(Demote, now, p, touched)) == Actives(p)
    ensures Hots(After(Demote, now, p, touched)) == Hots(p) - touched
  {
  }

  lemma ChurnSets(now: Time, p: PeerMap, touched: set<NodeId>)
    requires touched <= Warms(p)
    ensures Actives(After(Churn, now, p, touched)) == Actives(p) - touched
    ensures Hots(After(Churn, now, p, touched)) == Hots(p)
  {
  }

  lemma EvictSets(p: PeerMap, touched: set<NodeId>)
    requires touched <= Colds(p)
    ensures Actives(p - touched) == Actives(p)
    ensures Hots(p - touched) == Hots(p)
  {
  }

  /** The active and hot sets across a whole tick. */
  lemma TickSets(cfg: Config, now: Time, s: GovState, t: Trace, s': GovState, acts: Actions)
    requires Ticked(cfg, now, s, t, s', acts)
    ensures Actives(AfterReap(now, s, t)) <= Actives(s.peers)
    ensures Hots(AfterReap(now, s, t)) <= Hots(s.peers)
    ensures Elems(t.churned) <= Actives(AfterReap(now, s, t))
    ensures Actives(s'.peers) == Actives(AfterReap(now, s, t)) - Elems(t.churned)
    ensures Hots(AfterPromote(now, s, t)) == Hots(AfterReap(now, s, t)) + Elems(t.promoted)
    ensures Hots(AfterReap(now, s, t)) !! Elems(t.promoted)
    ensures Elems(t.demoted) <= Hots(AfterPromote(now, s, t))
    ensures Hots(s'.peers) == Hots(AfterPromote(now, s, t)) - Elems(t.demoted)
  {
    UnbanSets(now, s.peers, Elems(t.unbanned));
    ReapSets(now, AfterUnban(now, s, t), Elems(t.reaped));
    PromoteSets(now, AfterReap(now, s, t), Elems(t.promoted));
    DemoteSets(now, AfterPromote(now, s, t), Elems(t.demoted));
    ChurnSets(now, AfterDemote(now, s, t), Elems(t.churned));
    EvictSets(AfterChurn(now, s, t), Elems(t.evicted));
  }

  // ---- Dial budget -------------------------------------------------------

  /** A fraction of at most one never churns more peers than there are. */
  lemma ChurnCountBounded(warm: nat, fraction: real)
    requires fraction <= 1.0
    ensures ChurnCount(warm, fraction) <= warm
  {
    assert warm as real * fraction <= warm as real * 1.0;
  }

  lemma DialLength(cfg: Config, now: Time, peers: PeerMap, dialled: seq<NodeId>)
    requires DialSpec(cfg, now, peers, dialled)
    ensures |dialled| <= Max(0, cfg.targets.warmMax - |Actives(peers)|)
  {
    NoDupCardinality(dialled);
  }

  lemma ChurnLength(cfg: Config, now: Time, lastChurn: Time, peers: PeerMap, churned: seq<NodeId>,
                    redialled: seq<NodeId>)
    requires ChurnSpec(cfg, now, lastChurn, peers, churned, redialled)
    requires cfg.targets.churnFraction <= 1.0
    ensures |redialled| <= |churned|
  {
    ChurnCountBounded(|Warms(peers)|, cfg.targets.churnFraction);
  }

  lemma ConnectLength(cfg: Config, now: Time, s: GovState, t: Trace, s': GovState, acts: Actions)
    requires Ticked(cfg, now, s, t, s', acts) && cfg.targets.churnFraction <= 1.0
    ensures |acts.connect| <= Max(0, cfg.targets.warmMax - |Actives(AfterReap(now, s, t))|) + |t.churned|
  {
    DialLength(cfg, now, AfterReap(now, s, t), t.dialled);
    ChurnLength(cfg, now, s.lastChurn, AfterDemote(now, s, t), t.churned, t.redialled);
  }

  lemma ActiveLoss(cfg: Config, now: Time, s: GovState, t: Trace, s': GovState, acts: Actions)
    requires Ticked(cfg, now, s, t, s', acts)
    ensures |Actives(s'.peers)| == |Actives(AfterReap(now, s, t))| - |t.churned|
    ensures |Actives(AfterReap(now, s, t))| <= |Actives(s.peers)|
  {
    TickSets(cfg, now, s, t, s', acts);
    NoDupCardinality(t.churned);
    DifferenceCardinality(Actives(AfterReap(now, s, t)), Elems(t.churned));
    SubsetCardinality(Actives(AfterReap(now, s, t)), Actives(s.peers));
  }

  /** Even if every dial of this tick succeeds, the node stays within `warmMax`, or within what it had. */
  lemma DialBudget(cfg: Config, now: Time, s: GovState, t: Trace, s': GovState, acts: Actions)
    requires Ticked(cfg, now, s, t, s', acts)
    requires cfg.targets.churnFraction <= 1.0
    ensures |Actives(s'.peers)| + |acts.connect| <= Max(cfg.targets.warmMax, |Actives(s.peers)|)
  {
    ConnectLength(cfg, now, s, t, s', acts);
    ActiveLoss(cfg, now, s, t, s', acts);
  }

  // ---- Hot quota ---------------------------------------------------------

  lemma DemotionLength(cfg: Config, now: Time, peers: PeerMap, demoted: seq<NodeId>)
    requires DemoteSpec(cfg, now, peers, demoted)
    ensures |demoted| == |Elems(demoted)| == Max(0, |Hots(peers)| - cfg.targets.hotMax)
  {
    NoDupCardinality(demoted);
  }

  lemma PromotionLength(cfg: Config, now: Time, peers: PeerMap, promoted: seq<NodeId>)
    requires PromoteSpec(cfg, now, peers, promoted)
    ensures var hot, eligible := |Hots(peers)|, |EligibleWarm(now, peers)|;
            && (hot < cfg.targets.hotMin ==> |Elems(promoted)| == Min(cfg.targets.hotMin - hot, eligible))
            && (hot >= cfg.targets.hotMin ==> |Elems(promoted)| <= Min(1, Max(0, cfg.targets.hotMax - hot)))
  {
  }

  /** The size of the hot set after reaping, after promotion and at the end of the tick. */
  lemma HotNumbers(cfg: Config, now: Time, s: GovState, t: Trace, s': GovState, acts: Actions)
    requires Ticked(cfg, now, s, t, s', acts)
    ensures |Hots(AfterReap(now, s, t))| <= |Hots(s.peers)|
    ensures |Hots(AfterPromote(now, s, t))| == |Hots(AfterReap(now, s, t))| + |Elems(t.promoted)|
    ensures |Hots(s'.peers)| == |Hots(AfterPromote(now, s, t))| - |t.demoted|
  {
    TickSets(cfg, now, s, t, s', acts);
    NoDupCardinality(t.demoted);
    SubsetCardinality(Hots(AfterReap(now, s, t)), Hots(s.peers));
    DifferenceCardinality(Hots(AfterPromote(now, s, t)), Elems(t.demoted));
  }

  /** No tick leaves more than `hotMax` hot peers, whatever the targets. */
  lemma HotAtMostMax(cfg: Config, now: Time, s: GovState, t: Trace, s': GovState, acts: Actions)
    requires Ticked(cfg, now, s, t, s', acts)
    ensures |Hots(s'.peers)| <= cfg.targets.hotMax
  {
    HotNumbers(cfg, now, s, t, s', acts);
    DemotionLength(cfg, now, AfterPromote(now, s, t), t.demoted);
  }

  /** What promotion and demotion make of a hot set within the quota. */
  lemma HotOutcome(cfg: Config, now: Time, peers: PeerMap, promoted: seq<NodeId>, demoted: seq<NodeId>)
    requires PromoteSpec(cfg, now, peers, promoted) && DemoteSpec(cfg, now, After(Promote, now, peers, Elems(promoted)),
               demoted)
    requires cfg.targets.hotMin <= cfg.targets.hotMax
    ensures |Hots(peers)| <= cfg.targets.hotMax ==> demoted == []
    ensures |Hots(peers)| + |Elems(promoted)| - |demoted| >= Min(cfg.targets.hotMin,
              |Hots(peers)| + |EligibleWarm(now, peers)|)
  {
    PromotionLength(cfg, now, peers, promoted);
    PromoteSets(now, peers, Elems(promoted));
    DemotionLength(cfg, now, After(Promote, now, peers, Elems(promoted)), demoted);
  }

  /** With `hotMin <= hotMax`, a tick that starts within the quota never has to demote. */
  lemma DemotionNeverActs(cfg: Config, now: Time, s: GovState, t: Trace, s': GovState, acts: Actions)
    requires Ticked(cfg, now, s, t, s', acts)
    requires cfg.targets.hotMin <= cfg.targets.hotMax
    requires |Hots(s.peers)| <= cfg.targets.hotMax
    ensures t.demoted == []
  {
    HotNumbers(cfg, now, s, t, s', acts);
    HotOutcome(cfg, now, AfterReap(now, s, t), t.promoted, t.demoted);
  }

  /** Ticks fill the hot set up to `hotMin` as far as eligible warm peers allow. */
  lemma HotAtLeastMin(cfg: Config, now: Time, s: GovState, t: Trace, s': GovState, acts: Actions)
    requires Ticked(cfg, now, s, t, s', acts)
    requires cfg.targets.hotMin <= cfg.targets.hotMax
    ensures |Hots(s'.peers)| >=
            Min(cfg.targets.hotMin, |Hots(AfterReap(now, s, t))| + |EligibleWarm(now, AfterReap(now, s, t))|)
  {
    var peers := AfterReap(now, s, t);
    HotOutcome(cfg, now, peers, t.promoted, t.demoted);
    assert |Hots(s'.peers)| == |Hots(peers)| + |Elems(t.promoted)| - |t.demoted| by {
      HotNumbers(cfg, now, s, t, s', acts);
    }
  }

  // ---- Freshness ---------------------------------------------------------

  /** Hot peers have been heard from; silent warm ones were hot at the start and are still cooling down. */
  predicate Fresh(now: Time, start: PeerMap, peers: PeerMap) {
    && peers.Keys <= start.Keys
    && forall id :: id in peers ==>
         && peers[id].lastActivity == start[id].lastActivity
         && (peers[id].state.Hot? ==> !Silent(peers[id], now))
         && (peers[id].state.Warm? && Silent(peers[id], now) ==> start[id].state.Hot? && !CooledDown(peers[id], now))
  }

  lemma ReapMakesFresh(now: Time, start: PeerMap, touched: set<NodeId>)
    requires touched == ExpiredBans(start, now)
    ensures var p := After(Unban, now, start, touched);
            Fresh(now, start, After(Reap, now, p, Dead(p, now)))
  {
  }

  lemma LaterPhasesKeepFresh(now: Time, start: PeerMap, p: PeerMap, promoted: set<NodeId>, demoted: set<NodeId>,
                             churned: set<NodeId>)
    requires Fresh(now, start, p)
    requires promoted <= EligibleWarm(now, p)
    ensures Fresh(now, start, After(Promote, now, p, promoted))
    ensures demoted <= Hots(p) ==> Fresh(now, start, After(Demote, now, p, demoted))
    ensures Fresh(now, start, After(Churn, now, p, churned))
  {
  }

  lemma TickMakesFresh(cfg: Config, now: Time, s: GovState, t: Trace, s': GovState, acts: Actions)
    requires Ticked(cfg, now, s, t, s', acts)
    ensures Fresh(now, s.peers, s'.peers)
  {
    ReapMakesFresh(now, s.peers, Elems(t.unbanned));
    LaterPhasesKeepFresh(now, s.peers, AfterReap(now, s, t), Elems(t.promoted), {}, {});
    LaterPhasesKeepFresh(now, s.peers, AfterPromote(now, s, t), {}, Elems(t.demoted), {});
    LaterPhasesKeepFresh(now, s.peers, AfterDemote(now, s, t), {}, {}, Elems(t.churned));
  }

  /** After a tick every hot peer has been heard from, and a silent warm peer was hot until this tick. */
  lemma PostTickFreshness(cfg: Config, now: Time, s: GovState, t: Trace, s': GovState, acts: Actions)
    requires Ticked(cfg, now, s, t, s', acts)
    ensures forall id :: id in Hots(s'.peers) ==> !Silent(s'.peers[id], now)
    ensures forall id :: id in Warms(s'.peers) && Silent(s'.peers[id], now) ==> id in Hots(s.peers)
  {
    TickMakesFresh(cfg, now, s, t, s', acts);
  }

  /** Nothing was heard from `id` and it did not reconnect between the two states. */
  predicate QuietFor(before: PeerMap, after: PeerMap, id: NodeId) {
    id in after ==>
      && id in before
      && after[id].lastActivity == before[id].lastActivity
      && (after[id].state.IsActive() ==> after[id].state == before[id].state)
  }

  /** One tick drops a silent peer that was not hot, and a silent hot peer at least stops being hot. */
  lemma TickDemotesSilent(cfg: Config, now: Time, s: GovState, t: Trace, s': GovState, acts: Actions, id: NodeId)
    requires Ticked(cfg, now, s, t, s', acts)
    requires id in s.peers && Silent(s.peers[id], now)
    ensures id !in Hots(s'.peers)
    ensures id !in Hots(s.peers) ==> id !in Actives(s'.peers)
    ensures id in s'.peers ==> s'.peers[id].lastActivity == s.peers[id].lastActivity
  {
    TickMakesFresh(cfg, now, s, t, s', acts);
  }

  /** A peer silent past the timeout is not active after two ticks in a row. */
  lemma SilentPeerIsDropped(cfg: Config, now: Time, s: GovState, t: Trace, s1: GovState, acts: Actions, s2: GovState,
                            cfg': Config, now': Time, t': Trace, s3: GovState, acts': Actions, id: NodeId)
    requires Ticked(cfg, now, s, t, s1, acts)
    requires Ticked(cfg', now', s2, t', s3, acts')
    requires now <= now' && QuietFor(s1.peers, s2.peers, id)
    requires id in s.peers && Silent(s.peers[id], now)
    ensures id !in Actives(s3.peers)
  {
    TickDemotesSilent(cfg, now, s, t, s1, acts, id);
    if id in s2.peers {
      TickDemotesSilent(cfg', now', s2, t', s3, acts', id);
    } else {
      TickMakesFresh(cfg', now', s2, t', s3, acts');
    }
  }

  // ---- Dialling and eviction ---------------------------------------------

  /** The backoff doubles from one minute and never exceeds fifteen; it never shrinks as failures add up. */
  lemma BackoffGrows(count: nat)
    ensures ReconnectBackoff(count) <= ReconnectBackoff(count + 1) <= RECONNECT_BACKOFF_MAX
    ensures 0 < count < 5 ==> ReconnectBackoff(count) == RECONNECT_BACKOFF_BASE * Pow2(count)
    ensures count >= 5 ==> ReconnectBackoff(count) == RECONNECT_BACKOFF_MAX
  {
    assert Pow2(1) == 2;
    assert Pow2(2) == 4;
    assert Pow2(3) == 8;
    assert Pow2(4) == 16;
    assert Pow2(5) == 32;
    assert count == 0 || count == 1 || count == 2 || count == 3 || count == 4 || count >= 5;
  }

  lemma EvictedAreOldest(cfg: Config, peers: PeerMap, evicted: seq<NodeId>, gone: NodeId, kept: NodeId)
    requires EvictSpec(cfg, peers, evicted)
    requires gone in Elems(evicted) && kept in Colds(peers) && kept !in Elems(evicted)
    ensures peers[gone].lastActivity <= peers[kept].lastActivity
    ensures |Colds(peers - Elems(evicted))| == cfg.targets.coldMax
  {
    assert AgeKeys(peers)[gone].major <= AgeKeys(peers)[kept].major;
    assert Colds(peers - Elems(evicted)) == Colds(peers) - Elems(evicted);
    DifferenceCardinality(Colds(peers), Elems(evicted));
    SubsetCardinality({gone}, Elems(evicted));
  }

  lemma IdlenessUnmoved(now: Time, s: GovState, t: Trace, id: NodeId)
    requires id in s.peers
    ensures AfterChurn(now, s, t).Keys == s.peers.Keys
    ensures AfterChurn(now, s, t)[id].lastActivity == s.peers[id].lastActivity
  {
    assert AfterReap(now, s, t)[id].lastActivity == s.peers[id].lastActivity;
    assert AfterDemote(now, s, t)[id].lastActivity == AfterReap(now, s, t)[id].lastActivity;
  }

  lemma EvictionTrims(cfg: Config, peers: PeerMap, evicted: seq<NodeId>)
    requires EvictSpec(cfg, peers, evicted)
    ensures |Colds(peers - Elems(evicted))| == Min(cfg.targets.coldMax, |Colds(peers)|)
  {
    assert Colds(peers - Elems(evicted)) == Colds(peers) - Elems(evicted);
    DifferenceCardinality(Colds(peers), Elems(evicted));
  }

  /** No tick leaves more than `coldMax` cold peers. */
  lemma ColdAtMostMax(cfg: Config, now: Time, s: GovState, t: Trace, s': GovState, acts: Actions)
    requires Ticked(cfg, now, s, t, s', acts)
    ensures |Colds(s'.peers)| <= cfg.targets.coldMax
  {
    EvictionTrims(cfg, AfterChurn(now, s, t), t.evicted);
  }

  /**
    * A tick forgets a peer only if the cold ones are then at `coldMax`, and no cold one it keeps was idle for longer.
    */
  lemma EvictionIsOldestFirst(cfg: Config, now: Time, s: GovState, t: Trace, s': GovState, acts: Actions, gone: NodeId,
                              kept: NodeId)
    requires Ticked(cfg, now, s, t, s', acts)
    requires gone in s.peers && gone !in s'.peers
    requires kept in s'.peers && s'.peers[kept].state.Cold? && kept in s.peers
    ensures s.peers[gone].lastActivity <= s.peers[kept].lastActivity
    ensures |Colds(s'.peers)| == cfg.targets.coldMax
  {
    IdlenessUnmoved(now, s, t, gone);
    IdlenessUnmoved(now, s, t, kept);
    EvictedAreOldest(cfg, AfterChurn(now, s, t), t.evicted, gone, kept);
  }
}
