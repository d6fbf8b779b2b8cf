/**
  * What the governor remembers about a peer, field by field: which events change a record, and what a run adds up to.
  */
module PeerRecords {
  import opened Collections
  import opened Era
  import opened Peers
  import opened PeerOrder
  import opened GovernorModel
  import opened GovernorRuns

  // ---- One tick ----------------------------------------------------------

  /** What no phase touches. */
  predicate SameProfile(p: PeerInfo, q: PeerInfo) {
    && p.nodeId == q.nodeId && p.addrs == q.addrs && p.groups == q.groups && p.rttMs == q.rttMs
    && p.lastActivity == q.lastActivity && p.itemsDelivered == q.itemsDelivered
    && p.lastDisconnected == q.lastDisconnected && p.isRelay == q.isRelay
  }

  lemma PhaseKeepsProfile(phase: Phase, now: Time, peers: PeerMap, touched: set<NodeId>, id: NodeId)
    requires id in peers
    ensures var p, q := peers[id], After(phase, now, peers, touched)[id];
            && SameProfile(p, q)
            && q.disconnectCount == (if id in touched && phase.Promote? then 0 else p.disconnectCount)
            && (id in touched && phase.Churn? ==> q.connectedSince.None?)
            && (id in touched && phase.Reap? && p.state.IsActive() ==> q.connectedSince.None?)
            && (id !in touched || phase.Unban? || phase.Promote? || phase.Demote? ==>
               q.connectedSince == p.connectedSince)
  {
  }

  /**
    * A tick leaves a peer's profile alone. It forgets the failures of the peers it promotes, and the connection time of
    * those it reaps or churns.
    */
  lemma TickKeepsRecord(cfg: Config, now: Time, s: GovState, t: Trace, s': GovState, acts: Actions, id: NodeId)
    requires Ticked(cfg, now, s, t, s', acts) && id in s.peers && id in s'.peers
    ensures var p, q := s.peers[id], s'.peers[id];
            && SameProfile(p, q)
            && q.disconnectCount == (if id in t.promoted then 0 else p.disconnectCount)
            && q.connectedSince == (if id in t.reaped || id in t.churned then None else p.connectedSince)
  {
    TickNames(cfg, now, s, t, s', acts);
    PhasesKeepRecord(now, s, t, id);
    assert id in t.promoted <==> id in Elems(t.promoted);
    assert id in t.reaped <==> id in Elems(t.reaped);
    assert id in t.churned <==> id in Elems(t.churned);
  }

  lemma PhasesKeepRecord(now: Time, s: GovState, t: Trace, id: NodeId)
    requires Names(now, s, t) && id in s.peers
    ensures var p, q := s.peers[id], AfterChurn(now, s, t)[id];
            && SameProfile(p, q)
            && q.disconnectCount == (if id in Elems(t.promoted) then 0 else p.disconnectCount)
            && q.connectedSince ==
               (if id in Elems(t.reaped) || id in Elems(t.churned) then None else p.connectedSince)
  {
    PhaseKeepsProfile(Unban, now, s.peers, Elems(t.unbanned), id);
    PhaseKeepsProfile(Reap, now, AfterUnban(now, s, t), Elems(t.reaped), id);
    PhaseKeepsProfile(Promote, now, AfterReap(now, s, t), Elems(t.promoted), id);
    PhaseKeepsProfile(Demote, now, AfterPromote(now, s, t), Elems(t.demoted), id);
    PhaseKeepsProfile(Churn, now, AfterDemote(now, s, t), Elems(t.churned), id);
  }

  // ---- One event ---------------------------------------------------------

  /** The event is about this peer, but no renaming. */
  predicate About(e: Event, id: NodeId) { !e.TickEvent? && !e.Replaced? && e.id == id }

  predicate Renames(e: Event, id: NodeId) { e.Replaced? && (e.id == id || e.old_ == id) }

  /** The peer was heard from. */
  predicate Heard(e: Event, id: NodeId, p: PeerInfo) {
    About(e, id) && (e.Activity? || e.Delivered? || (e.Connected? && p.state.Cold?))
  }

  /** A connection of the peer ended, or a dial to it failed. */
  predicate Fails(e: Event, id: NodeId, p: PeerInfo) {
    About(e, id) && (e.DialFailed? || (e.Disconnected? && p.state.IsActive()))
  }

  /** What an event makes of each field of a record. */
  predicate Follows(e: Event, id: NodeId, p: PeerInfo, q: PeerInfo) {
    && q.itemsDelivered == p.itemsDelivered + (if About(e, id) && e.Delivered? then e.count else 0)
    && q.rttMs == (if About(e, id) && e.Activity? && e.rtt.Some? then e.rtt else p.rttMs)
    && q.isRelay == (if About(e, id) && e.RelayFlag? then e.isRelay else p.isRelay)
    && q.addrs == (if About(e, id) && e.Added? then e.addrs else p.addrs)
    && q.groups == (if About(e, id) && e.Added? then e.groups else p.groups)
    && q.lastActivity == (if Heard(e, id, p) then e.at else p.lastActivity)
    && q.lastDisconnected == (if Fails(e, id, p) then Some(e.at) else p.lastDisconnected)
    && q.disconnectCount == (if Fails(e, id, p) then p.disconnectCount + 1
                             else if e.TickEvent? && id in e.trace.promoted then 0
                             else p.disconnectCount)
  }

  lemma EventFollows(peers: PeerMap, e: Event, id: NodeId)
    requires !e.TickEvent? && id in peers && !Renames(e, id)
    ensures id in Updated(peers, e) && Follows(e, id, peers[id], Updated(peers, e)[id])
  {
  }

  /** A peer not known before starts cold, with an empty record. */
  lemma NewPeerIsBlank(peers: PeerMap, id: NodeId, addrs: seq<string>, groups: seq<GroupId>, now: Time)
    requires id !in peers
    ensures var p := WithAdded(peers, id, addrs, groups, now)[id];
            && p.nodeId == id && p.addrs == addrs && p.groups == groups && p.state == Cold && p.lastActivity == now
            && p.itemsDelivered == p.disconnectCount == 0 && !p.isRelay && p.rttMs == None
            && p.connectedSince == p.demotedAt == p.lastDisconnected == None
  {
  }

  /**
    * Renaming moves the record as it is, under the new name and with the given groups. If the new name is connected,
    * its own record stays, and only a relay flag is added to it.
    */
  lemma RenamingMovesRecord(peers: PeerMap, old_: NodeId, id: NodeId, groups: seq<GroupId>)
    requires old_ in peers && old_ != id
    ensures var after := WithReplaced(peers, old_, id, groups);
            && old_ !in after && id in after && after.Keys == peers.Keys - {old_} + {id}
            && (forall k :: k in peers && k != old_ && k != id ==> after[k] == peers[k])
            && (if id in peers && peers[id].state.IsActive()
                then after[id] == peers[id].(isRelay := peers[id].isRelay || peers[old_].isRelay)
                else after[id] == peers[old_].(nodeId := id, groups := groups))
  {
  }

  /** The state after an event between ticks: connected, disconnected or banned, or as before. */
  lemma EventMovesState(peers: PeerMap, e: Event, id: NodeId)
    requires !e.TickEvent? && id in peers && !Renames(e, id)
    ensures var p, q := peers[id], Updated(peers, e)[id];
            q.state == if About(e, id) && e.Connected? && p.state.Cold? then Warm
                       else if About(e, id) && e.Disconnected? && p.state.IsActive() then Cold
                       else if About(e, id) && e.Ban? then q.state
                       else p.state
    ensures About(e, id) && e.Ban? ==> Updated(peers, e)[id].state.Banned?
  {
  }

  lemma TickFollows(e: Event, id: NodeId, p: PeerInfo, q: PeerInfo)
    requires e.TickEvent? && SameProfile(p, q)
    requires q.disconnectCount == (if id in e.trace.promoted then 0 else p.disconnectCount)
    ensures Follows(e, id, p, q)
  {
  }

  /** One step of a run, ticks included. */
  lemma StepFollows(targets: Targets, s: GovState, e: Event, s': GovState, id: NodeId)
    requires Step(targets, s, e, s') && id in s.peers && id in s'.peers && !Renames(e, id)
    ensures Follows(e, id, s.peers[id], s'.peers[id])
  {
    if e.TickEvent? {
      TickKeepsRecord(e.cfg, e.at, s, e.trace, s', e.acts, id);
      TickFollows(e, id, s.peers[id], s'.peers[id]);
    } else {
      EventFollows(s.peers, e, id);
    }
  }

  // ---- Whole runs --------------------------------------------------------

  /** The items that the events say the peer delivered. */
  function Deliveries(events: seq<Event>, id: NodeId): nat {
    if events == [] then 0
    else
      var e := events[|events| - 1];
      Deliveries(events[..|events| - 1], id) + if About(e, id) && e.Delivered? then e.count else 0
  }

  /** The last round-trip time that the events report for the peer, or else the given one. */
  function LastRoundTrip(rtt: Option<Millis>, events: seq<Event>, id: NodeId): Option<Millis> {
    if events == [] then rtt
    else
      var e := events[|events| - 1];
      if About(e, id) && e.Activity? && e.rtt.Some? then e.rtt
      else LastRoundTrip(rtt, events[..|events| - 1], id)
  }

  function LastFlag(flag: bool, events: seq<Event>, id: NodeId): bool {
    if events == [] then flag
    else
      var e := events[|events| - 1];
      if About(e, id) && e.RelayFlag? then e.isRelay else LastFlag(flag, events[..|events| - 1], id)
  }

  /** The peer is known from step `i` to step `j`, and no renaming concerns it. */
  predicate Known(states: seq<GovState>, events: seq<Event>, id: NodeId, i: nat, j: nat)
    requires i <= j < |states| == |events| + 1
  {
    && (forall k :: i <= k <= j ==> id in states[k].peers)
    && (forall k :: i <= k < j ==> !Renames(events[k], id))
  }

  /** What the record says after these events. */
  predicate Remembers(p: PeerInfo, q: PeerInfo, events: seq<Event>, id: NodeId) {
    && q.itemsDelivered == p.itemsDelivered + Deliveries(events, id)
    && q.rttMs == LastRoundTrip(p.rttMs, events, id)
    && q.isRelay == LastFlag(p.isRelay, events, id)
  }

  lemma RemembersOneMore(p: PeerInfo, q: PeerInfo, r: PeerInfo, events: seq<Event>, e: Event, id: NodeId)
    requires Remembers(p, q, events, id) && Follows(e, id, q, r)
    ensures Remembers(p, r, events + [e], id)
  {
    assert (events + [e])[..|events|] == events;
  }

  lemma RemembersNext(p: PeerInfo, q: PeerInfo, r: PeerInfo, events: seq<Event>, i: nat, k: nat, id: NodeId)
    requires i <= k < |events| && Remembers(p, q, events[i..k], id) && Follows(events[k], id, q, r)
    ensures Remembers(p, r, events[i..k + 1], id)
  {
    assert events[i..k + 1] == events[i..k] + [events[k]];
    RemembersOneMore(p, q, r, events[i..k], events[k], id);
  }

  /** The record of a peer follows the events from step `i` to step `j`. */
  predicate RecordFollows(states: seq<GovState>, events: seq<Event>, id: NodeId, i: nat, j: nat)
    requires i <= j < |states| == |events| + 1 && Known(states, events, id, i, j)
  {
    forall k {:trigger events[k]} :: i <= k < j ==>
      Follows(events[k], id, states[k].peers[id], states[k + 1].peers[id])
  }

  lemma RunRecordFollows(targets: Targets, states: seq<GovState>, events: seq<Event>, id: NodeId, i: nat, j: nat)
    requires IsRun(targets, states, events) && i <= j < |states| && Known(states, events, id, i, j)
    ensures RecordFollows(states, events, id, i, j)
  {
    forall k | i <= k < j
      ensures Follows(events[k], id, states[k].peers[id], states[k + 1].peers[id])
    {
      RunStepFollows(targets, states, events, id, k);
    }
  }

  lemma RecordRemembers(states: seq<GovState>, events: seq<Event>, id: NodeId, i: nat, j: nat)
    requires i <= j < |states| == |events| + 1 && Known(states, events, id, i, j)
    requires RecordFollows(states, events, id, i, j)
    ensures Remembers(states[i].peers[id], states[j].peers[id], events[i..j], id)
  {
    var p := states[i].peers[id];
    RemembersNothing(p, events[i..i], id);
    for k := i to j
      invariant Remembers(p, states[k].peers[id], events[i..k], id)
    {
      assert id in states[k].peers && id in states[k + 1].peers;
      RemembersNext(p, states[k].peers[id], states[k + 1].peers[id], events, i, k, id);
    }
  }

  /** While a peer is known, its record adds up its deliveries, and holds the last round trip and flag reported. */
  lemma RunRemembers(targets: Targets, states: seq<GovState>, events: seq<Event>, id: NodeId, i: nat, j: nat)
    requires IsRun(targets, states, events) && i <= j < |states| && Known(states, events, id, i, j)
    ensures Remembers(states[i].peers[id], states[j].peers[id], events[i..j], id)
  {
    RunRecordFollows(targets, states, events, id, i, j);
    RecordRemembers(states, events, id, i, j);
  }

  lemma RemembersNothing(p: PeerInfo, events: seq<Event>, id: NodeId)
    requires events == []
    ensures Remembers(p, p, events, id)
  {
  }

  lemma RunStepFollows(targets: Targets, states: seq<GovState>, events: seq<Event>, id: NodeId, k: nat)
    requires IsRun(targets, states, events) && k < |events|
    requires id in states[k].peers && id in states[k + 1].peers && !Renames(events[k], id)
    ensures Follows(events[k], id, states[k].peers[id], states[k + 1].peers[id])
  {
    StepFollows(targets, states[k], events[k], states[k + 1], id);
  }

  // ---- Connection times --------------------------------------------------

  /** Only connected peers have a connection time. */
  predicate TimesAreLive(peers: PeerMap) {
    forall id :: id in peers && peers[id].connectedSince.Some? ==> peers[id].state.IsActive()
  }

  lemma PhaseKeepsTimes(phase: Phase, now: Time, peers: PeerMap, touched: set<NodeId>)
    requires TimesAreLive(peers) && (phase.Unban? ==> forall id :: id in touched && id in peers ==>
               peers[id].state.Banned?)
    ensures TimesAreLive(After(phase, now, peers, touched))
  {
  }

  lemma TickKeepsTimes(cfg: Config, now: Time, s: GovState, t: Trace, s': GovState, acts: Actions)
    requires Ticked(cfg, now, s, t, s', acts) && TimesAreLive(s.peers)
    ensures TimesAreLive(s'.peers)
  {
    TickNames(cfg, now, s, t, s', acts);
    PhaseKeepsTimes(Unban, now, s.peers, Elems(t.unbanned));
    PhaseKeepsTimes(Reap, now, AfterUnban(now, s, t), Elems(t.reaped));
    PhaseKeepsTimes(Promote, now, AfterReap(now, s, t), Elems(t.promoted));
    PhaseKeepsTimes(Demote, now, AfterPromote(now, s, t), Elems(t.demoted));
    PhaseKeepsTimes(Churn, now, AfterDemote(now, s, t), Elems(t.churned));
  }

  lemma EventKeepsTimes(peers: PeerMap, e: Event)
    requires !e.TickEvent? && TimesAreLive(peers)
    ensures TimesAreLive(Updated(peers, e))
  {
  }

  /** In every run only connected peers have a connection time, so a score never counts time not connected. */
  lemma RunKeepsTimes(targets: Targets, states: seq<GovState>, events: seq<Event>, n: nat)
    requires IsRun(targets, states, events) && n < |states| && TimesAreLive(states[0].peers)
    ensures TimesAreLive(states[n].peers)
  {
    for i := 0 to n
      invariant TimesAreLive(states[i].peers)
    {
      StepKeepsTimes(targets, states[i], events[i], states[i + 1]);
    }
  }

  lemma StepKeepsTimes(targets: Targets, s: GovState, e: Event, s': GovState)
    requires Step(targets, s, e, s') && TimesAreLive(s.peers)
    ensures TimesAreLive(s'.peers)
  {
    if e.TickEvent? {
      TickKeepsTimes(e.cfg, e.at, s, e.trace, s', e.acts);
    } else {
      EventKeepsTimes(s.peers, e);
    }
  }

  // ---- Bans --------------------------------------------------------------

  /** Bans of one peer, one after the other. */
  function BannedAt(peers: PeerMap, id: NodeId, times: seq<Time>, reasons: seq<string>): PeerMap
    requires |times| == |reasons|
  {
    if times == [] then peers
    else
      var n := |times| - 1;
      WithBan(BannedAt(peers, id, times[..n], reasons[..n]), id, reasons[n], times[n])
  }

  /** The n-th ban in a row lasts n hours from the moment it is pronounced. */
  lemma {:induction false} BansEscalate(peers: PeerMap, id: NodeId, times: seq<Time>, reasons: seq<string>)
    requires |times| == |reasons| > 0 && id in peers && !peers[id].state.Banned?
    ensures var n, after := |times|, BannedAt(peers, id, times, reasons);
            id in after && after[id].state == Banned(times[n - 1] + n * 3600 * SECOND, reasons[n - 1], n)
    decreases |times|
  {
    var n := |times| - 1;
    if n > 0 {
      BansEscalate(peers, id, times[..n], reasons[..n]);
    }
  }
}
