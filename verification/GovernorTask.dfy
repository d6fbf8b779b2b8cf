/** The governor's event loop: the steps that keep the governor and the peer pool in step. */
module GovernorTask {
  import opened Collections
  import opened Peers
  import opened GovernorModel
  import opened PeerPoolModel

  // ---- A tick keeps the pool in step -------------------------------------

  lemma TickLogConcat(pool: PoolMap, l1: seq<Transition>, l2: seq<Transition>, l3: seq<Transition>, l4: seq<Transition>,
                      l5: seq<Transition>)
    ensures ApplyLog(pool, l1 + l2 + l3 + l4 + l5) ==
            ApplyLog(ApplyLog(ApplyLog(ApplyLog(ApplyLog(pool, l1), l2), l3), l4), l5)
  {
    LogConcat(pool, l1, l2);
    LogConcat(pool, l1 + l2, l3);
    LogConcat(pool, l1 + l2 + l3, l4);
    LogConcat(pool, l1 + l2 + l3 + l4, l5);
  }

  /** The part of `Ticked` that the mirror depends on. */
  ghost predicate Touches(now: Time, s: GovState, t: Trace) {
    && NoDup(t.unbanned) && Elems(t.unbanned) == ExpiredBans(s.peers, now)
    && NoDup(t.reaped) && Elems(t.reaped) == Dead(AfterUnban(now, s, t), now)
    && NoDup(t.promoted) && Elems(t.promoted) <= Warms(AfterReap(now, s, t))
    && NoDup(t.demoted) && Elems(t.demoted) <= Hots(AfterPromote(now, s, t))
    && NoDup(t.churned) && Elems(t.churned) <= Warms(AfterDemote(now, s, t))
  }

  function TickDrops(now: Time, s: GovState, t: Trace): set<NodeId>
    requires Elems(t.reaped) <= s.peers.Keys && Elems(t.churned) <= s.peers.Keys
  {
    Elems(DropsOf(Reap, now, AfterUnban(now, s, t), t.reaped))
      + Elems(DropsOf(Churn, now, AfterDemote(now, s, t), t.churned))
  }

  lemma MirrorUnban(now: Time, pool: PoolMap, s: GovState, t: Trace)
    requires NoDup(t.unbanned) && Elems(t.unbanned) == ExpiredBans(s.peers, now) && Agree(pool, s.peers)
    ensures Mirrors(ApplyLog(pool, LogOf(Unban, now, s.peers, t.unbanned)), AfterUnban(now, s, t), {})
  {
    assert Mirrors(pool, s.peers, {});
    assert forall id :: id in t.unbanned ==> id in Elems(t.unbanned);
    NothingDropped(Unban, now, s.peers, t.unbanned);
    MirrorPhase(Unban, now, pool, s.peers, t.unbanned, {});
    assert {} + Elems(DropsOf(Unban, now, s.peers, t.unbanned)) == {};
  }

  lemma MirrorUntilReap(now: Time, pool: PoolMap, s: GovState, t: Trace)
    requires Touches(now, s, t) && Agree(pool, s.peers)
    ensures Mirrors(ApplyLog(ApplyLog(pool, LogOf(Unban, now, s.peers, t.unbanned)),
              LogOf(Reap, now, AfterUnban(now, s, t), t.reaped)),
                    AfterReap(now, s, t), Elems(DropsOf(Reap, now, AfterUnban(now, s, t), t.reaped)))
  {
    MirrorUnban(now, pool, s, t);
    var pool1 := ApplyLog(pool, LogOf(Unban, now, s.peers, t.unbanned));
    MirrorPhase(Reap, now, pool1, AfterUnban(now, s, t), t.reaped, {});
    assert {} + Elems(DropsOf(Reap, now, AfterUnban(now, s, t), t.reaped))
      == Elems(DropsOf(Reap, now, AfterUnban(now, s, t), t.reaped));
  }

  lemma MirrorSteady(phase: Phase, now: Time, pool: PoolMap, p: PeerMap, ids: seq<NodeId>, gone: set<NodeId>)
    requires Mirrors(pool, p, gone) && NoDup(ids)
    requires (phase == Promote && Elems(ids) <= Warms(p)) || (phase == Demote && Elems(ids) <= Hots(p))
    ensures Mirrors(ApplyLog(pool, LogOf(phase, now, p, ids)), After(phase, now, p, Elems(ids)), gone)
  {
    MirrorPhase(phase, now, pool, p, ids, gone);
    assert forall id :: id in ids ==> id in Elems(ids);
    NothingDropped(phase, now, p, ids);
    assert gone + Elems(DropsOf(phase, now, p, ids)) == gone;
  }

  lemma MirrorWholeTick(now: Time, pool: PoolMap, s: GovState, t: Trace)
    requires Touches(now, s, t) && Agree(pool, s.peers)
    ensures Mirrors(
              ApplyLog(pool, LogOf(Unban, now, s.peers, t.unbanned) + LogOf(Reap, now, AfterUnban(now, s, t), t.reaped)
                             + LogOf(Promote, now, AfterReap(now, s, t), t.promoted)
                             + LogOf(Demote, now, AfterPromote(now, s, t), t.demoted)
                             + LogOf(Churn, now, AfterDemote(now, s, t), t.churned)),
              AfterChurn(now, s, t), TickDrops(now, s, t))
  {
    var p1, p2, p3, p4 := AfterUnban(now, s, t), AfterReap(now, s, t), AfterPromote(now, s, t), AfterDemote(now, s, t);
    var l1, l2 := LogOf(Unban, now, s.peers, t.unbanned), LogOf(Reap, now, p1, t.reaped);
    var l3, l4, l5 := LogOf(Promote, now, p2, t.promoted), LogOf(Demote, now, p3, t.demoted),
      LogOf(Churn, now, p4, t.churned);
    var gone := Elems(DropsOf(Reap, now, p1, t.reaped));
    TickLogConcat(pool, l1, l2, l3, l4, l5);
    MirrorUntilReap(now, pool, s, t);
    var pool2 := ApplyLog(ApplyLog(pool, l1), l2);
    MirrorSteady(Promote, now, pool2, p2, t.promoted, gone);
    var pool3 := ApplyLog(pool2, l3);
    MirrorSteady(Demote, now, pool3, p3, t.demoted, gone);
    MirrorPhase(Churn, now, ApplyLog(pool3, l4), p4, t.churned, gone);
  }

  lemma MirrorIsAgreement(pool: PoolMap, peers: PeerMap, gone: set<NodeId>, evicted: set<NodeId>)
    requires Mirrors(pool, peers, gone) && evicted <= Colds(peers)
    ensures Agree(pool - gone, peers - evicted)
  {
    assert Actives(peers - evicted) == Actives(peers);
  }

  /** A peer dropped by reaping is not dropped again by churn in the same tick. */
  lemma ReapedStayCold(now: Time, s: GovState, t: Trace)
    requires Touches(now, s, t)
    ensures Elems(DropsOf(Reap, now, AfterUnban(now, s, t), t.reaped)) !! Elems(DropsOf(Churn, now,
              AfterDemote(now, s, t), t.churned))
  {
    var p1, p2, p3, p4 := AfterUnban(now, s, t), AfterReap(now, s, t), AfterPromote(now, s, t), AfterDemote(now, s, t);
    DropsAreTouched(Reap, now, p1, t.reaped);
    DropsAreTouched(Churn, now, p4, t.churned);
    forall id | id in Elems(DropsOf(Reap, now, p1, t.reaped))
      ensures id !in Elems(DropsOf(Churn, now, p4, t.churned))
    {
      assert id in Elems(t.reaped) && p2[id].state.Cold?;
      assert p3[id].state.Cold?;
      assert p4[id].state.Cold?;
    }
  }

  lemma ReplayAgrees(now: Time, pool: PoolMap, s: GovState, t: Trace, acts: Actions)
    requires Touches(now, s, t) && Agree(pool, s.peers)
    requires Elems(t.evicted) <= Colds(AfterChurn(now, s, t))
    requires acts.disconnect == DropsOf(Reap, now, AfterUnban(now, s, t), t.reaped)
               + DropsOf(Churn, now, AfterDemote(now, s, t), t.churned)
    requires acts.transitions ==
               LogOf(Unban, now, s.peers, t.unbanned) + LogOf(Reap, now, AfterUnban(now, s, t), t.reaped)
               + LogOf(Promote, now, AfterReap(now, s, t), t.promoted)
               + LogOf(Demote, now, AfterPromote(now, s, t), t.demoted)
               + LogOf(Churn, now, AfterDemote(now, s, t), t.churned)
    ensures Agree(Applied(pool, acts), AfterChurn(now, s, t) - Elems(t.evicted))
    ensures NoDup(acts.disconnect) && Elems(acts.disconnect) <= pool.Keys
  {
    var reaped, churned := DropsOf(Reap, now, AfterUnban(now, s, t), t.reaped),
      DropsOf(Churn, now, AfterDemote(now, s, t), t.churned);
    DropsAreTouched(Reap, now, AfterUnban(now, s, t), t.reaped);
    DropsAreTouched(Churn, now, AfterDemote(now, s, t), t.churned);
    ReapedStayCold(now, s, t);
    NoDupConcat(reaped, churned);
    MirrorWholeTick(now, pool, s, t);
    LogKeepsKeys(pool, acts.transitions);
    MirrorIsAgreement(ApplyLog(pool, acts.transitions), AfterChurn(now, s, t), Elems(acts.disconnect),
      Elems(t.evicted));
  }

  /**
    * Replaying a tick's actions brings the pool back into exact agreement; every requested disconnect is of a held
    * peer, once.
    */
  lemma TickKeepsAgreement(cfg: Config, now: Time, pool: PoolMap, s: GovState, t: Trace, s': GovState, acts: Actions)
    requires Ticked(cfg, now, s, t, s', acts) && Agree(pool, s.peers)
    ensures Agree(Applied(pool, acts), s'.peers)
    ensures NoDup(acts.disconnect) && Elems(acts.disconnect) <= pool.Keys
  {
    assert Touches(now, s, t);
    ReplayAgrees(now, pool, s, t, acts);
  }

  // ---- Connect and disconnect events -------------------------------------

  /** The governor's peers after a connection by `id`, dialled under `placeholder` if it came from a pending dial. */
  function ConnectedPeers(peers: PeerMap, placeholder: Option<NodeId>, id: NodeId, addrs: seq<string>,
                          now: Time): PeerMap {
    match placeholder
    case Some(old_) => WithConnected(if old_ != id then WithReplaced(peers, old_, id, []) else peers, id, now)
    case None => WithConnected(if id in peers then peers else WithAdded(peers, id, addrs, [], now), id, now)
  }

  /**
    * A connection without a pending dial: a known peer keeps its record and turns warm if it was cold, an unknown one
    * is added warm; no other entry changes.
    */
  lemma ConnectKeepsRecords(peers: PeerMap, id: NodeId, addrs: seq<string>, now: Time)
    ensures var after := ConnectedPeers(peers, None, id, addrs, now);
            && after.Keys == peers.Keys + {id}
            && (forall k :: k in peers && k != id ==> after[k] == peers[k])
            && (id in peers && !peers[id].state.Cold? ==> after[id] == peers[id])
            && (id in peers && peers[id].state.Cold? ==>
                  after[id] == peers[id].(state := Warm, connectedSince := Some(now), lastActivity := now))
            && (id !in peers ==>
                  after[id] == PeerInfo(id, addrs, Warm, [], None, now, 0, Some(now), None, 0, None, false))
  {
  }

  /** The entry the connection lands on is cold or already warm, and no connected entry is moved or dropped by it. */
  predicate LandsInStep(peers: PeerMap, placeholder: Option<NodeId>, id: NodeId) {
    match placeholder
    case None => id in peers ==> peers[id].state.Cold? || peers[id].state.Warm?
    case Some(old_) =>
      if old_ == id then id in peers && (peers[id].state.Cold? || peers[id].state.Warm?)
      else if id in peers && peers[id].state.IsActive() then
        peers[id].state.Warm? && (old_ in peers ==> !peers[old_].state.IsActive())
      else if old_ in peers then peers[old_].state.Cold?
      else id in peers && peers[id].state.Cold?
  }

  /**
    * The pool always files a new connection as warm; that agrees with the governor exactly when the connection lands in
    * step.
    */
  lemma ConnectKeepsAgreementIff(pool: PoolMap, peers: PeerMap, placeholder: Option<NodeId>, id: NodeId,
                                 addrs: seq<string>, now: Time, handle: PeerHandle)
    requires Agree(pool, peers) && handle.state == Warm
    ensures Agree(pool[id := handle], ConnectedPeers(peers, placeholder, id, addrs, now))
            <==> LandsInStep(peers, placeholder, id)
  {
    var after, pool' := ConnectedPeers(peers, placeholder, id, addrs, now), pool[id := handle];
    if LandsInStep(peers, placeholder, id) {
      assert Actives(after) == Actives(peers) + {id};
    } else {
      assert id in pool';
      match placeholder {
        case None =>
        case Some(old_) =>
          assert old_ in peers && peers[old_].state.IsActive() ==> old_ in pool';
      }
    }
  }

  lemma DisconnectKeepsAgreement(pool: PoolMap, peers: PeerMap, id: NodeId, now: Time)
    requires Agree(pool, peers)
    ensures Agree(pool - {id}, WithDisconnected(peers, id, now))
  {
    assert Actives(WithDisconnected(peers, id, now)) == Actives(peers) - {id};
  }

  // ---- The event loop ----------------------------------------------------

  /** The first known address of a peer, if any. */
  function AddressOf(peers: PeerMap): NodeId -> seq<string> {
    id => if id in peers && peers[id].addrs != [] then [peers[id].addrs[0]] else []
  }

  /** The addresses dialled for the peers to connect, in order; peers without an address are passed over. */
  function DialsOf(peers: PeerMap, connect: seq<NodeId>): seq<string> { FlatMap(AddressOf(peers), connect) }

  /** Each dialled address remembers the peer it was dialled for, the latest one if several share it. */
  function Remembered(peers: PeerMap, pending: map<string, NodeId>, connect: seq<NodeId>): map<string, NodeId> {
    if connect == [] then pending
    else
      var id, before := connect[|connect| - 1], Remembered(peers, pending, connect[..|connect| - 1]);
      if AddressOf(peers)(id) == [] then before else before[AddressOf(peers)(id)[0] := id]
  }

  /** A dialled address keeps the peer it was last dialled for, if no later one shares it. */
  lemma {:induction false} RememberedFor(peers: PeerMap, pending: map<string, NodeId>, connect: seq<NodeId>, i: nat)
    requires i < |connect| && connect[i] in peers && peers[connect[i]].addrs != []
    requires forall j :: i < j < |connect| && connect[j] in peers && peers[connect[j]].addrs != [] ==>
               peers[connect[j]].addrs[0] != peers[connect[i]].addrs[0]
    ensures var a := peers[connect[i]].addrs[0];
            a in Remembered(peers, pending, connect) && Remembered(peers, pending, connect)[a] == connect[i]
    ensures peers[connect[i]].addrs[0] in DialsOf(peers, connect)
    decreases |connect|
  {
    var n := |connect| - 1;
    var init := connect[..n];
    assert connect == init + [connect[n]];
    FlatMapAppend(AddressOf(peers), init, connect[n]);
    if i < n {
      assert init[i] == connect[i] && forall j :: 0 <= j < n ==> init[j] == connect[j];
      RememberedFor(peers, pending, init, i);
    }
  }

  /** The first of the addresses that a dial is pending to. */
  function FirstPending(pending: map<string, NodeId>, addrs: seq<string>): (r: Option<string>)
    ensures r.None? ==> forall i :: 0 <= i < |addrs| ==> addrs[i] !in pending
    ensures r.Some? ==> r.value in pending
                        && exists i :: 0 <= i < |addrs| && addrs[i] == r.value && forall j :: 0 <= j < i ==>
                           addrs[j] !in pending
  {
    if addrs == [] then None
    else
      var init, last := addrs[..|addrs| - 1], addrs[|addrs| - 1];
      var first := FirstPending(pending, init);
      if first.Some? then first else if last in pending then Some(last) else None
  }

  /** Whom that dial was made for. */
  function Placeholder(pending: map<string, NodeId>, addrs: seq<string>): Option<NodeId> {
    match FirstPending(pending, addrs)
    case None => None
    case Some(a) => Some(pending[a])
  }

  function WithoutPending(pending: map<string, NodeId>, addrs: seq<string>): map<string, NodeId> {
    match FirstPending(pending, addrs)
    case None => pending
    case Some(a) => pending - {a}
  }

  /** A peer that answers at the first address known of it is taken for the one that was dialled there. */
  lemma DialledIsRecognised(peers: PeerMap, pending: map<string, NodeId>, connect: seq<NodeId>, i: nat,
                            addrs: seq<string>)
    requires i < |connect| && connect[i] in peers && peers[connect[i]].addrs != []
    requires forall j :: i < j < |connect| && connect[j] in peers && peers[connect[j]].addrs != [] ==>
               peers[connect[j]].addrs[0] != peers[connect[i]].addrs[0]
    requires addrs != [] && addrs[0] == peers[connect[i]].addrs[0]
    ensures var after := Remembered(peers, pending, connect);
            Placeholder(after, addrs) == Some(connect[i]) && WithoutPending(after, addrs) == after - {addrs[0]}
  {
    RememberedFor(peers, pending, connect, i);
    assert addrs[..0] == [];
    FirstIsFirst(Remembered(peers, pending, connect), addrs, 0);
  }

  lemma {:induction false} FirstIsFirst(pending: map<string, NodeId>, addrs: seq<string>, i: nat)
    requires i < |addrs| && addrs[i] in pending && FirstPending(pending, addrs[..i]).None?
    ensures FirstPending(pending, addrs) == Some(addrs[i])
    decreases |addrs|
  {
    var init := addrs[..|addrs| - 1];
    if i < |init| {
      assert init[..i] == addrs[..i];
      FirstIsFirst(pending, init, i);
    }
  }

  class GovernorLoop {
    const governor: Governor
    const pool: PeerPool
    var pendingDials: map<string, NodeId>

    constructor (governor: Governor, pool: PeerPool)
      ensures this.governor == governor && this.pool == pool && pendingDials == map[]
    {
      this.governor := governor;
      this.pool := pool;
      pendingDials := map[];
    }

    ghost predicate InStep()
      reads this, governor, pool
    {
      governor.Valid() && Agree(pool.inner, governor.peers)
    }

    /** One tick: the swarm is told to drop exactly the governor's disconnects and to dial its connects. */
    method OnTick(now: Time, groups: seq<GroupId>)
      returns (drops: seq<NodeId>, dials: seq<string>, ghost acts: Actions, ghost trace: Trace)
      requires InStep()
      modifies this`pendingDials, governor`peers, governor`lastChurn, governor`ourGroups, pool`inner
      ensures InStep()
      ensures Ticked(old(governor.Cfg()).(ourGroups := groups), now, old(governor.State()), trace, governor.State(),
                acts)
      ensures drops == acts.disconnect && NoDup(drops)
      ensures dials == DialsOf(governor.peers, acts.connect) && |dials| <= |acts.connect|
      ensures pendingDials == Remembered(governor.peers, old(pendingDials), acts.connect)
    {
      ghost var cfg, before := governor.Cfg().(ourGroups := groups), governor.State();
      governor.SetGroups(groups);
      assert governor.Cfg() == cfg && governor.State() == before;
      var connect;
      drops, connect, acts, trace := TickAndReplay(now);
      assert governor.Cfg() == cfg;
      ghost var after := governor.State();
      dials := DialAll(connect);
      assert governor.State() == after;
    }

    method TickAndReplay(now: Time)
      returns (drops: seq<NodeId>, connect: seq<NodeId>, ghost acts: Actions, ghost trace: Trace)
      requires InStep()
      modifies governor`peers, governor`lastChurn, pool`inner
      ensures InStep()
      ensures Ticked(governor.Cfg(), now, old(governor.State()), trace, governor.State(), acts)
      ensures drops == acts.disconnect && NoDup(drops) && connect == acts.connect
    {
      ghost var before, held := governor.State(), pool.inner;
      var actions;
      actions, trace := governor.Tick(now);
      TickKeepsAgreement(governor.Cfg(), now, held, before, trace, governor.State(), actions);
      drops := pool.ApplyGovernorActions(actions);
      connect, acts := actions.connect, actions;
    }

    method DialAll(connect: seq<NodeId>) returns (dials: seq<string>)
      modifies this`pendingDials
      ensures dials == DialsOf(governor.peers, connect) && |dials| <= |connect|
      ensures pendingDials == Remembered(governor.peers, old(pendingDials), connect)
    {
      dials := [];
      for i := 0 to |connect|
        invariant dials == DialsOf(governor.peers, connect[..i]) && |dials| <= i
        invariant pendingDials == Remembered(governor.peers, old(pendingDials), connect[..i])
      {
        var id := connect[i];
        assert connect[..i + 1][..i] == connect[..i];
        if id in governor.peers && governor.peers[id].addrs != [] {
          var addr := governor.peers[id].addrs[0];
          pendingDials := pendingDials[addr := id];
          dials := dials + [addr];
        }
      }
      assert connect[..|connect|] == connect;
    }

    /** Takes the pending dial to the first of the addresses that has one. */
    method TakePending(addrs: seq<string>) returns (placeholder: Option<NodeId>)
      modifies this`pendingDials
      ensures placeholder == Placeholder(old(pendingDials), addrs)
              && pendingDials == WithoutPending(old(pendingDials), addrs)
    {
      for i := 0 to |addrs|
        invariant pendingDials == old(pendingDials) && FirstPending(pendingDials, addrs[..i]).None?
      {
        assert addrs[..i + 1][..i] == addrs[..i];
        if addrs[i] in pendingDials {
          FirstIsFirst(pendingDials, addrs, i);
          placeholder := Some(pendingDials[addrs[i]]);
          pendingDials := pendingDials - {addrs[i]};
          return;
        }
      }
      assert addrs[..|addrs|] == addrs;
      placeholder := None;
    }

    /**
      * A new connection: the governor files it, the pool files it as warm. They agree afterwards exactly when it landed
      * in step.
      */
    method OnConnected(id: NodeId, addrs: seq<string>, now: Time) returns (placeholder: Option<NodeId>)
      requires InStep()
      modifies this`pendingDials, governor`peers, pool`inner
      ensures governor.Valid() && placeholder == Placeholder(old(pendingDials), addrs)
      ensures pendingDials == WithoutPending(old(pendingDials), addrs)
      ensures governor.peers == ConnectedPeers(old(governor.peers), placeholder, id, addrs, now)
      ensures InStep() <==> LandsInStep(old(governor.peers), placeholder, id)
    {
      ghost var peers, held := governor.peers, pool.inner;
      placeholder := TakePending(addrs);
      if placeholder.Some? {
        if placeholder.value != id {
          var _ := governor.ReplaceNodeId(placeholder.value, id, []);
        }
        governor.MarkConnected(id, now);
      } else if id in governor.peers {
        governor.MarkConnected(id, now);
      } else {
        governor.AddPeer(id, addrs, [], now);
        governor.MarkConnected(id, now);
      }
      var isRelay := id in governor.peers && governor.peers[id].isRelay;
      pool.Insert(id, addrs, [], Warm, 1, isRelay);
      ConnectKeepsAgreementIff(held, peers, placeholder, id, addrs, now, pool.inner[id]);
    }

    method OnDisconnected(id: NodeId, now: Time)
      requires InStep()
      modifies governor`peers, pool`inner
      ensures InStep() && governor.peers == WithDisconnected(old(governor.peers), id, now)
    {
      DisconnectKeepsAgreement(pool.inner, governor.peers, id, now);
      var _ := pool.Remove(id);
      governor.MarkDisconnected(id, now);
    }
  }

  // ---- Agreement over whole runs -----------------------------------------

  datatype LoopState = LoopState(gov: GovState, pool: PoolMap, pending: map<string, NodeId>)

  /**
    * What the loop handles. A discovery may set the relay flag, as seeding a bootnode does. New addresses from an
    * identification, or groups from the exchange after a connect, refresh both tables; a later exchange only the pool.
    */
  datatype LoopEvent =
    | Ticks(at: Time, cfg: Config, trace: Trace, acts: Actions)
    | PeerConnected(at: Time, id: NodeId, addrs: seq<string>, handle: PeerHandle)
    | PeerDisconnected(at: Time, id: NodeId)
    | PingRtt(at: Time, id: NodeId, rtt: Millis)
    | Identified(at: Time, old_: NodeId, id: NodeId)
    | Discovered(at: Time, id: NodeId, addrs: seq<string>, groups: seq<GroupId>, relay: bool)
    | Refreshed(at: Time, id: NodeId, addrs: seq<string>, groups: seq<GroupId>, handle: PeerHandle)
    | Regrouped(id: NodeId, handle: PeerHandle)
    | DialFailure(at: Time, id: NodeId)

  ghost predicate LoopStep(s: LoopState, e: LoopEvent, s': LoopState) {
    match e
    case Ticks(at, cfg, trace, acts) =>
      && Ticked(cfg, at, s.gov, trace, s'.gov, acts) && s'.pool == Applied(s.pool, acts)
      && s'.pending == Remembered(s'.gov.peers, s.pending, acts.connect)
    case PeerConnected(at, id, addrs, handle) =>
      && handle.state == Warm
      && s' == LoopState(s.gov.(peers := ConnectedPeers(s.gov.peers, Placeholder(s.pending, addrs), id, addrs, at)),
                         s.pool[id := handle],
                         WithoutPending(s.pending, addrs))
    case PeerDisconnected(at, id) =>
      s' == s.(gov := s.gov.(peers := WithDisconnected(s.gov.peers, id, at)), pool := s.pool - {id})
    case PingRtt(at, id, rtt) =>
      s' == s.(gov := s.gov.(peers := WithActivity(s.gov.peers, id, Some(rtt), at)),
               pool := if id in s.pool then s.pool[id := s.pool[id].(rttMs := Some(rtt))] else s.pool)
    case Identified(at, old_, id) =>
      && old_ in s.gov.peers && s.gov.peers[old_].state.Cold? && old_ != id
      && s' == s.(gov := s.gov.(peers := WithReplaced(s.gov.peers, old_, id, [])))
    case Discovered(at, id, addrs, groups, relay) =>
      var added := WithAdded(s.gov.peers, id, addrs, groups, at);
      s' == s.(gov := s.gov.(peers := if relay then WithRelay(added, id, true) else added))
    case Refreshed(at, id, addrs, groups, handle) =>
      && (id in s.pool ==> handle.state == s.pool[id].state)
      && s' == s.(gov := s.gov.(peers := WithAdded(s.gov.peers, id, addrs, groups, at)),
                  pool := if id in s.pool then s.pool[id := handle] else s.pool)
    case Regrouped(id, handle) =>
      && id in s.pool && handle.state == s.pool[id].state
      && s' == s.(pool := s.pool[id := handle])
    case DialFailure(at, id) => s' == s.(gov := s.gov.(peers := WithDialFailed(s.gov.peers, id, at)))
  }

  ghost predicate IsLoopRun(states: seq<LoopState>, events: seq<LoopEvent>) {
    && |states| == |events| + 1
    && forall i {:trigger events[i]} :: 0 <= i < |events| ==> LoopStep(states[i], events[i], states[i + 1])
  }

  predicate Agrees(s: LoopState) { Agree(s.pool, s.gov.peers) }

  /** A connect lands in step with the governor; no other event is in question. */
  predicate EventInStep(s: LoopState, e: LoopEvent) {
    e.PeerConnected? ==> LandsInStep(s.gov.peers, Placeholder(s.pending, e.addrs), e.id)
  }

  /** A placeholder that is not connected takes another name. */
  lemma IdentifiedAgrees(pool: PoolMap, peers: PeerMap, old_: NodeId, id: NodeId)
    requires Agree(pool, peers) && old_ in peers && peers[old_].state.Cold? && old_ != id
    ensures Agree(pool, WithReplaced(peers, old_, id, []))
  {
    assert Actives(WithReplaced(peers, old_, id, [])) == Actives(peers);
  }

  lemma AddedAgrees(pool: PoolMap, peers: PeerMap, id: NodeId, addrs: seq<string>, groups: seq<GroupId>, now: Time)
    requires Agree(pool, peers)
    ensures Agree(pool, WithAdded(peers, id, addrs, groups, now))
            && Agree(pool, WithRelay(WithAdded(peers, id, addrs, groups, now), id, true))
  {
    assert Actives(WithAdded(peers, id, addrs, groups, now)) == Actives(peers);
    assert Actives(WithRelay(WithAdded(peers, id, addrs, groups, now), id, true)) == Actives(peers);
  }

  lemma HandleAgrees(pool: PoolMap, peers: PeerMap, id: NodeId, handle: PeerHandle)
    requires Agree(pool, peers) && id in pool && handle.state == pool[id].state
    ensures Agree(pool[id := handle], peers)
  {
  }

  lemma FailureAgrees(pool: PoolMap, peers: PeerMap, id: NodeId, now: Time)
    requires Agree(pool, peers)
    ensures Agree(pool, WithDialFailed(peers, id, now))
  {
    assert Actives(WithDialFailed(peers, id, now)) == Actives(peers);
  }

  lemma ActivityAgrees(pool: PoolMap, peers: PeerMap, id: NodeId, rtt: Option<Millis>, now: Time)
    requires Agree(pool, peers)
    ensures Agree(pool, WithActivity(peers, id, rtt, now))
  {
    assert Actives(WithActivity(peers, id, rtt, now)) == Actives(peers);
  }

  /** The events that neither make nor end a connection. */
  lemma QuietStepAgrees(s: LoopState, e: LoopEvent, s': LoopState)
    requires LoopStep(s, e, s') && Agrees(s) && !e.Ticks? && !e.PeerConnected? && !e.PeerDisconnected?
    ensures Agrees(s')
  {
    match e
    case PingRtt(at, id, rtt) =>
      ActivityAgrees(s.pool, s.gov.peers, id, Some(rtt), at);
      if id in s.pool {
        HandleAgrees(s.pool, s'.gov.peers, id, s'.pool[id]);
      }
    case Identified(_, old_, id) => IdentifiedAgrees(s.pool, s.gov.peers, old_, id);
    case Discovered(at, id, addrs, groups, _) => AddedAgrees(s.pool, s.gov.peers, id, addrs, groups, at);
    case Refreshed(at, id, addrs, groups, handle) =>
      AddedAgrees(s.pool, s.gov.peers, id, addrs, groups, at);
      if id in s.pool {
        HandleAgrees(s.pool, s'.gov.peers, id, handle);
      }
    case Regrouped(id, handle) => HandleAgrees(s.pool, s.gov.peers, id, handle);
    case DialFailure(at, id) => FailureAgrees(s.pool, s.gov.peers, id, at);
  }

  /**
    * Every event keeps the two in agreement, but for a connect that does not land in step, and that always breaks it.
    */
  lemma LoopStepKeepsAgreementIff(s: LoopState, e: LoopEvent, s': LoopState)
    requires LoopStep(s, e, s') && Agrees(s)
    ensures Agrees(s') <==> EventInStep(s, e)
  {
    match e
    case Ticks(at, cfg, trace, acts) => TickKeepsAgreement(cfg, at, s.pool, s.gov, trace, s'.gov, acts);
    case PeerConnected(at, id, addrs, handle) =>
      ConnectKeepsAgreementIff(s.pool, s.gov.peers, Placeholder(s.pending, addrs), id, addrs, at, handle);
    case PeerDisconnected(at, id) => DisconnectKeepsAgreement(s.pool, s.gov.peers, id, at);
    case _ => QuietStepAgrees(s, e, s');
  }

  predicate AllInStep(states: seq<LoopState>, events: seq<LoopEvent>)
    requires |states| == |events| + 1
  {
    forall i :: 0 <= i < |events| ==> EventInStep(states[i], events[i])
  }

  /**
    * From an agreeing start, the pool and the governor agree after every event of a run if and only if every connect in
    * it lands in step.
    */
  lemma AgreementHoldsIff(states: seq<LoopState>, events: seq<LoopEvent>)
    requires IsLoopRun(states, events) && Agrees(states[0])
    ensures (forall n :: 0 <= n <= |events| ==> Agrees(states[n])) <==> AllInStep(states, events)
  {
    if forall n :: 0 <= n <= |events| ==> Agrees(states[n]) {
      forall i | 0 <= i < |events|
        ensures EventInStep(states[i], events[i])
      {
        assert Agrees(states[i]) && Agrees(states[i + 1]);
        RunStepAgrees(states, events, i);
      }
    }
    if AllInStep(states, events) {
      forall n | 0 <= n <= |events|
        ensures Agrees(states[n])
      {
        InStepAgrees(states, events, n);
      }
    }
  }

  lemma RunExtends(states: seq<LoopState>, events: seq<LoopEvent>, e: LoopEvent, s': LoopState)
    requires IsLoopRun(states, events) && LoopStep(states[|events|], e, s')
    ensures IsLoopRun(states + [s'], events + [e])
  {
    var ss, es := states + [s'], events + [e];
    forall i | 0 <= i < |es|
      ensures LoopStep(ss[i], es[i], ss[i + 1])
    {
      if i < |events| {
        assert es[i] == events[i] && ss[i] == states[i] && ss[i + 1] == states[i + 1];
      } else {
        assert es[i] == e && ss[i] == states[|events|] && ss[i + 1] == s';
      }
    }
  }

  lemma InStepAgrees(states: seq<LoopState>, events: seq<LoopEvent>, n: nat)
    requires IsLoopRun(states, events) && n <= |events| && Agrees(states[0]) && AllInStep(states, events)
    ensures Agrees(states[n])
  {
    for i := 0 to n
      invariant Agrees(states[i])
    {
      assert EventInStep(states[i], events[i]);
      RunStepAgrees(states, events, i);
    }
  }

  lemma RunStepAgrees(states: seq<LoopState>, events: seq<LoopEvent>, i: nat)
    requires IsLoopRun(states, events) && i < |events| && Agrees(states[i])
    ensures Agrees(states[i + 1]) <==> EventInStep(states[i], events[i])
  {
    LoopStepKeepsAgreementIff(states[i], events[i], states[i + 1]);
  }
}
