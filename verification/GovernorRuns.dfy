/** What holds over every run of the governor: ticks interleaved with connection events in any order. */
module GovernorRuns {
  import opened Collections
  import opened Era
  import opened Peers
  import opened GovernorModel
  import opened GovernorTheorems

  datatype Event =
    | TickEvent(at: Time, cfg: Config, trace: Trace, acts: Actions)
    | Added(at: Time, id: NodeId, addrs: seq<string>, groups: seq<GroupId>)
    | Activity(at: Time, id: NodeId, rtt: Option<Millis>)
    | Delivered(at: Time, id: NodeId, count: nat)
    | Connected(at: Time, id: NodeId)
    | Disconnected(at: Time, id: NodeId)
    | DialFailed(at: Time, id: NodeId)
    | RelayFlag(at: Time, id: NodeId, isRelay: bool)
    | Replaced(at: Time, old_: NodeId, id: NodeId, groups: seq<GroupId>)
    | Ban(at: Time, id: NodeId, reason: string)

  ghost predicate Step(targets: Targets, s: GovState, e: Event, s': GovState) {
    if e.TickEvent? then e.cfg.targets == targets && Ticked(e.cfg, e.at, s, e.trace, s', e.acts)
    else s' == s.(peers := Updated(s.peers, e))
  }

  function Updated(peers: PeerMap, e: Event): PeerMap
    requires !e.TickEvent?
  {
    match e
    case Added(at, id, addrs, groups) => WithAdded(peers, id, addrs, groups, at)
    case Activity(at, id, rtt) => WithActivity(peers, id, rtt, at)
    case Delivered(at, id, count) => WithDelivered(peers, id, count, at)
    case Connected(at, id) => WithConnected(peers, id, at)
    case Disconnected(at, id) => WithDisconnected(peers, id, at)
    case DialFailed(at, id) => WithDialFailed(peers, id, at)
    case RelayFlag(at, id, isRelay) => WithRelay(peers, id, isRelay)
    case Replaced(at, old_, id, groups) => WithReplaced(peers, old_, id, groups)
    case Ban(at, id, reason) => WithBan(peers, id, reason, at)
  }

  /** `states[i]` becomes `states[i + 1]` by `events[i]`, and the clock never goes back. */
  ghost predicate IsRun(targets: Targets, states: seq<GovState>, events: seq<Event>) {
    && |states| == |events| + 1
    && (forall i {:trigger events[i]} :: 0 <= i < |events| ==> Step(targets, states[i], events[i], states[i + 1]))
    && (forall i, j :: 0 <= i <= j < |events| ==> events[i].at <= events[j].at)
  }

  // ---- Hot quota over runs -----------------------------------------------

  lemma RenamingAddsNoHot(peers: PeerMap, old_: NodeId, id: NodeId, groups: seq<GroupId>)
    ensures |Hots(WithReplaced(peers, old_, id, groups))| <= |Hots(peers)|
  {
    var after := WithReplaced(peers, old_, id, groups);
    if old_ in Hots(peers) && !(id in peers && peers[id].state.IsActive()) {
      assert Hots(after) == Hots(peers) - {old_} + {id};
    } else {
      assert Hots(after) <= Hots(peers);
      SubsetCardinality(Hots(after), Hots(peers));
    }
  }

  /** Connection events never add a hot peer. */
  lemma EventsAddNoHot(peers: PeerMap, e: Event)
    requires !e.TickEvent?
    ensures |Hots(Updated(peers, e))| <= |Hots(peers)|
  {
    if e.Replaced? {
      RenamingAddsNoHot(peers, e.old_, e.id, e.groups);
    } else {
      assert Hots(Updated(peers, e)) <= Hots(peers);
      SubsetCardinality(Hots(Updated(peers, e)), Hots(peers));
    }
  }

  lemma RunQuotaStep(targets: Targets, states: seq<GovState>, events: seq<Event>, i: nat)
    requires IsRun(targets, states, events) && i < |events| && |Hots(states[i].peers)| <= targets.hotMax
    ensures |Hots(states[i + 1].peers)| <= targets.hotMax
  {
    HotQuotaStep(targets, states[i], events[i], states[i + 1]);
  }

  lemma RunNeverDemotes(targets: Targets, states: seq<GovState>, events: seq<Event>, i: nat)
    requires IsRun(targets, states, events) && i < |events| && events[i].TickEvent?
    requires targets.hotMin <= targets.hotMax && |Hots(states[i].peers)| <= targets.hotMax
    ensures events[i].trace.demoted == []
  {
    assert Step(targets, states[i], events[i], states[i + 1]);
    DemotionNeverActs(events[i].cfg, events[i].at, states[i], events[i].trace, states[i + 1], events[i].acts);
  }

  /** With `hotMin <= hotMax`, every reachable state is within `hotMax` and excess demotion never acts. */
  lemma HotQuotaHolds(targets: Targets, states: seq<GovState>, events: seq<Event>, n: nat)
    requires IsRun(targets, states, events) && n <= |events|
    requires targets.hotMin <= targets.hotMax
    requires |Hots(states[0].peers)| <= targets.hotMax
    ensures |Hots(states[n].peers)| <= targets.hotMax
    ensures n < |events| && events[n].TickEvent? ==> events[n].trace.demoted == []
  {
    for i := 0 to n
      invariant |Hots(states[i].peers)| <= targets.hotMax
    {
      RunQuotaStep(targets, states, events, i);
    }
    if n < |events| && events[n].TickEvent? {
      RunNeverDemotes(targets, states, events, n);
    }
  }

  lemma HotQuotaStep(targets: Targets, s: GovState, e: Event, s': GovState)
    requires Step(targets, s, e, s') && |Hots(s.peers)| <= targets.hotMax
    ensures |Hots(s'.peers)| <= targets.hotMax
  {
    if e.TickEvent? {
      HotAtMostMax(e.cfg, e.at, s, e.trace, s', e.acts);
    } else {
      EventsAddNoHot(s.peers, e);
    }
  }

  // ---- Hysteresis over runs ----------------------------------------------

  /** A hot peer's last reaping demotion is further back than the dead timeout. */
  predicate HotCooled(peers: PeerMap, clock: Time) {
    forall id :: id in peers && peers[id].state.Hot? ==> CooledDown(peers[id], clock)
  }

  lemma PhasesKeepCooled(now: Time, p: PeerMap, reaped: set<NodeId>, promoted: set<NodeId>, demoted: set<NodeId>,
                         churned: set<NodeId>)
    requires HotCooled(p, now) && promoted <= EligibleWarm(now, p)
    ensures HotCooled(After(Unban, now, p, reaped), now)
    ensures HotCooled(After(Reap, now, p, reaped), now)
    ensures HotCooled(After(Promote, now, p, promoted), now)
    ensures HotCooled(After(Demote, now, p, demoted), now)
    ensures HotCooled(After(Churn, now, p, churned), now)
  {
  }

  lemma TickKeepsCooled(cfg: Config, now: Time, s: GovState, t: Trace, s': GovState, acts: Actions)
    requires Ticked(cfg, now, s, t, s', acts) && HotCooled(s.peers, now)
    ensures HotCooled(s'.peers, now)
  {
    PhasesKeepCooled(now, s.peers, Elems(t.unbanned), {}, {}, {});
    PhasesKeepCooled(now, AfterUnban(now, s, t), Elems(t.reaped), {}, {}, {});
    PhasesKeepCooled(now, AfterReap(now, s, t), {}, Elems(t.promoted), {}, {});
    PhasesKeepCooled(now, AfterPromote(now, s, t), {}, {}, Elems(t.demoted), {});
    PhasesKeepCooled(now, AfterDemote(now, s, t), {}, {}, {}, Elems(t.churned));
  }

  lemma StepKeepsCooled(targets: Targets, s: GovState, e: Event, s': GovState, clock: Time)
    requires Step(targets, s, e, s') && clock <= e.at && HotCooled(s.peers, clock)
    ensures HotCooled(s'.peers, e.at)
  {
    assert HotCooled(s.peers, e.at);
    if e.TickEvent? {
      TickKeepsCooled(e.cfg, e.at, s, e.trace, s', e.acts);
    }
  }

  lemma RunStepCooled(targets: Targets, states: seq<GovState>, events: seq<Event>, i: nat, clock: Time)
    requires IsRun(targets, states, events) && i < |events| && clock <= events[i].at
             && HotCooled(states[i].peers, clock)
    ensures HotCooled(states[i + 1].peers, events[i].at)
  {
    StepKeepsCooled(targets, states[i], events[i], states[i + 1], clock);
  }

  /** In every reachable state a hot peer's last reaping demotion lies further back than the dead timeout. */
  lemma RunKeepsCooled(targets: Targets, states: seq<GovState>, events: seq<Event>, n: nat, clock: Time)
    requires IsRun(targets, states, events) && 0 < n <= |events|
    requires HotCooled(states[0].peers, clock) && clock <= events[0].at
    ensures HotCooled(states[n].peers, events[n - 1].at)
  {
    RunStepCooled(targets, states, events, 0, clock);
    for i := 1 to n
      invariant HotCooled(states[i].peers, events[i - 1].at)
    {
      RunStepCooled(targets, states, events, i, events[i - 1].at);
    }
  }

  /** The key an entry is found under after the event, or none if it was evicted, dropped or overwritten. */
  function Follow(s: GovState, e: Event, key: NodeId): Option<NodeId> {
    match e
    case TickEvent(_, _, trace, _) => if key in trace.evicted then None else Some(key)
    case Replaced(_, old_, id, _) =>
      var keep := id in s.peers && s.peers[id].state.IsActive();
      if old_ !in s.peers then Some(key)
      else if keep then (if key == old_ then None else Some(key))
      else if key == old_ then Some(id)
      else if key == id then None
      else Some(key)
    case _ => Some(key)
  }

  /** This tick's reaping demotes the hot entry under `key`. */
  predicate ReapsHot(s: GovState, e: Event, key: NodeId) {
    e.TickEvent? && key in e.trace.reaped && key in s.peers && s.peers[key].state.Hot?
  }

  /** Where an entry goes, its demotion mark goes, and only reaping moves the mark. */
  predicate MarkRule(s: GovState, e: Event, s': GovState, key: NodeId, key': NodeId) {
    key in s.peers ==>
      && key' in s'.peers
      && s'.peers[key'].demotedAt == (if ReapsHot(s, e, key) then Some(e.at) else s.peers[key].demotedAt)
  }

  lemma MarkFollowsEntry(targets: Targets, s: GovState, e: Event, s': GovState, key: NodeId, key': NodeId)
    requires Step(targets, s, e, s') && Follow(s, e, key) == Some(key')
    ensures MarkRule(s, e, s', key, key')
  {
    if e.TickEvent? && key in s.peers {
      TickMark(e.cfg, e.at, s, e.trace, s', e.acts, key);
    }
  }

  lemma PhaseMark(phase: Phase, now: Time, p: PeerMap, touched: set<NodeId>, key: NodeId)
    requires key in p
    ensures After(phase, now, p, touched)[key].demotedAt ==
            (if phase == Reap && key in touched && p[key].state.Hot? then Some(now) else p[key].demotedAt)
  {
  }

  lemma MarkAcrossPhases(now: Time, s: GovState, t: Trace, key: NodeId)
    requires Elems(t.unbanned) == ExpiredBans(s.peers, now) && key in s.peers
    ensures key in AfterChurn(now, s, t)
    ensures AfterChurn(now, s, t)[key].demotedAt ==
            (if key in Elems(t.reaped) && s.peers[key].state.Hot? then Some(now) else s.peers[key].demotedAt)
  {
    PhaseMark(Unban, now, s.peers, Elems(t.unbanned), key);
    PhaseMark(Reap, now, AfterUnban(now, s, t), Elems(t.reaped), key);
    PhaseMark(Promote, now, AfterReap(now, s, t), Elems(t.promoted), key);
    PhaseMark(Demote, now, AfterPromote(now, s, t), Elems(t.demoted), key);
    PhaseMark(Churn, now, AfterDemote(now, s, t), Elems(t.churned), key);
  }

  lemma TickMark(cfg: Config, now: Time, s: GovState, t: Trace, s': GovState, acts: Actions, key: NodeId)
    requires Ticked(cfg, now, s, t, s', acts) && key in s.peers && key !in t.evicted
    ensures key in s'.peers
    ensures s'.peers[key].demotedAt
              == (if key in t.reaped && s.peers[key].state.Hot? then Some(now) else s.peers[key].demotedAt)
  {
    MarkAcrossPhases(now, s, t, key);
  }

  /** `keys` follows one entry from state `i` to state `j` of the run without losing it. */
  ghost predicate Follows(states: seq<GovState>, events: seq<Event>, keys: seq<NodeId>, i: nat, j: nat)
    requires |states| == |events| + 1 == |keys| && i <= j <= |events|
  {
    && keys[i] in states[i].peers
    && forall k :: i <= k < j ==> Follow(states[k], events[k], keys[k]) == Some(keys[k + 1])
  }

  lemma RunObeysMarkRule(targets: Targets, states: seq<GovState>, events: seq<Event>, keys: seq<NodeId>, i: nat, j: nat)
    requires IsRun(targets, states, events) && |keys| == |states| && i <= j <= |events|
    requires Follows(states, events, keys, i, j)
    ensures forall k :: i <= k < j ==> MarkRule(states[k], events[k], states[k + 1], keys[k], keys[k + 1])
  {
    forall k | i <= k < j
      ensures MarkRule(states[k], events[k], states[k + 1], keys[k], keys[k + 1])
    {
      assert Follow(states[k], events[k], keys[k]) == Some(keys[k + 1]);
      assert Step(targets, states[k], events[k], states[k + 1]);
      MarkFollowsEntry(targets, states[k], events[k], states[k + 1], keys[k], keys[k + 1]);
    }
  }

  lemma {:induction false} MarkPersists(states: seq<GovState>, events: seq<Event>, keys: seq<NodeId>, i: nat, j: nat)
    requires |states| == |events| + 1 == |keys| && i < j <= |events|
    requires forall k :: i <= k < j ==> MarkRule(states[k], events[k], states[k + 1], keys[k], keys[k + 1])
    requires ReapsHot(states[i], events[i], keys[i])
    requires forall k :: i < k < j ==> !ReapsHot(states[k], events[k], keys[k])
    ensures keys[j] in states[j].peers && states[j].peers[keys[j]].demotedAt == Some(events[i].at)
    decreases j
  {
    if j > i + 1 {
      MarkPersists(states, events, keys, i, j - 1);
    }
    assert MarkRule(states[j - 1], events[j - 1], states[j], keys[j - 1], keys[j]);
  }

  /**
    * A hot peer demoted by reaping is not hot again until more than the dead timeout has passed, whatever happens in
    * between.
    */
  lemma Hysteresis(targets: Targets, states: seq<GovState>, events: seq<Event>, keys: seq<NodeId>, i: nat, j: nat,
                   clock: Time)
    requires IsRun(targets, states, events) && |keys| == |states| && i < j <= |events|
    requires HotCooled(states[0].peers, clock) && clock <= events[0].at
    requires Follows(states, events, keys, i, j)
    requires ReapsHot(states[i], events[i], keys[i])
    requires forall k :: i < k < j ==> !ReapsHot(states[k], events[k], keys[k])
    requires keys[j] in states[j].peers && states[j].peers[keys[j]].state.Hot?
    ensures events[j - 1].at - events[i].at > DEAD_TIMEOUT
  {
    DemotionIsMarked(targets, states, events, keys, i, j);
    RunKeepsCooled(targets, states, events, j, clock);
    CooledSince(states[j].peers, keys[j], events[j - 1].at, events[i].at);
  }

  lemma DemotionIsMarked(targets: Targets, states: seq<GovState>, events: seq<Event>, keys: seq<NodeId>, i: nat, j: nat)
    requires IsRun(targets, states, events) && |keys| == |states| && i < j <= |events|
             && Follows(states, events, keys, i, j)
    requires ReapsHot(states[i], events[i], keys[i]) && forall k :: i < k < j ==>
               !ReapsHot(states[k], events[k], keys[k])
    ensures keys[j] in states[j].peers && states[j].peers[keys[j]].demotedAt == Some(events[i].at)
  {
    RunObeysMarkRule(targets, states, events, keys, i, j);
    MarkPersists(states, events, keys, i, j);
  }

  lemma CooledSince(peers: PeerMap, key: NodeId, now: Time, demoted: Time)
    requires HotCooled(peers, now) && key in peers && peers[key].state.Hot? && peers[key].demotedAt == Some(demoted)
    ensures now - demoted > DEAD_TIMEOUT
  {
  }
}
