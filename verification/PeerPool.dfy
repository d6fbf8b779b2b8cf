/** The pool of connected peers, which replays the governor's action log to mirror its decisions. */
module PeerPoolModel {
  import opened Collections
  import opened Peers

  datatype PeerHandle = PeerHandle(
    nodeId: NodeId,
    addrs: seq<string>,
    state: PeerState,
    groups: seq<GroupId>,
    groupIntersection: seq<GroupId>,
    rttMs: Option<Millis>,
    protocolVersion: nat,
    isRelay: bool,
    itemsDelivered: nat)

  type PoolMap = map<NodeId, PeerHandle>

  // ---- Specification -----------------------------------------------------

  function ApplyOne(pool: PoolMap, tr: Transition): PoolMap {
    if tr.id !in pool then pool
    else if tr.to == "hot" then pool[tr.id := pool[tr.id].(state := Hot)]
    else if tr.to == "warm" then pool[tr.id := pool[tr.id].(state := Warm)]
    else pool
  }

  function ApplyLog(pool: PoolMap, log: seq<Transition>): PoolMap {
    if log == [] then pool
    else ApplyOne(ApplyLog(pool, log[..|log| - 1]), log[|log| - 1])
  }

  function Applied(pool: PoolMap, acts: Actions): PoolMap {
    ApplyLog(pool, acts.transitions) - Elems(acts.disconnect)
  }

  function Intersection(groups: seq<GroupId>, ours: set<GroupId>): seq<GroupId> {
    if groups == [] then []
    else
      Intersection(groups[..|groups| - 1], ours)
      + (if groups[|groups| - 1] in ours then [groups[|groups| - 1]] else [])
  }

  /** Exactly the common groups are kept, each as often as it was given. */
  lemma {:induction false} IntersectionKeeps(groups: seq<GroupId>, ours: set<GroupId>, g: GroupId)
    ensures multiset(Intersection(groups, ours))[g] == if g in ours then multiset(groups)[g] else 0
    decreases |groups|
  {
    if groups == [] {
    } else {
      var init, last := groups[..|groups| - 1], groups[|groups| - 1];
      IntersectionKeeps(init, ours, g);
      assert groups == init + [last];
    }
  }

  /** The pool holds exactly the governor's warm and hot peers, in the same states. */
  predicate Agree(pool: PoolMap, peers: PeerMap) {
    && pool.Keys == Actives(peers)
    && forall id :: id in pool ==> pool[id].state == peers[id].state
  }

  class PeerPool {
    var inner: PoolMap
    var ourGroups: seq<GroupId>
    var learnedGroups: Option<set<GroupId>>

    constructor (ourGroups: seq<GroupId>, learned: Option<set<GroupId>>)
      ensures inner == map[] && this.ourGroups == ourGroups && learnedGroups == learned
    {
      inner := map[];
      this.ourGroups := ourGroups;
      learnedGroups := learned;
    }

    function EffectiveGroups(): set<GroupId>
      reads this
    {
      Elems(ourGroups) + (if learnedGroups.Some? then learnedGroups.value else {})
    }

    method ComputeIntersection(peerGroups: seq<GroupId>) returns (r: seq<GroupId>)
      ensures r == Intersection(peerGroups, EffectiveGroups())
    {
      r := [];
      for i := 0 to |peerGroups|
        invariant r == Intersection(peerGroups[..i], EffectiveGroups())
      {
        assert peerGroups[..i + 1][..i] == peerGroups[..i];
        if peerGroups[i] in ourGroups || (learnedGroups.Some? && peerGroups[i] in learnedGroups.value) {
          r := r + [peerGroups[i]];
        }
      }
      assert peerGroups[..|peerGroups|] == peerGroups;
    }

    method Insert(id: NodeId, addrs: seq<string>, peerGroups: seq<GroupId>, state: PeerState, version: nat,
                  isRelay: bool)
      modifies this`inner
      ensures inner == old(inner)[id := PeerHandle(id, addrs, state, peerGroups,
                Intersection(peerGroups, EffectiveGroups()),
                                                   None, version, isRelay, 0)]
    {
      var common := ComputeIntersection(peerGroups);
      inner := inner[id := PeerHandle(id, addrs, state, peerGroups, common, None, version, isRelay, 0)];
    }

    method Remove(id: NodeId) returns (removed: Option<PeerHandle>)
      modifies this`inner
      ensures inner == old(inner) - {id}
      ensures removed == if id in old(inner) then Some(old(inner)[id]) else None
    {
      removed := if id in inner then Some(inner[id]) else None;
      inner := inner - {id};
    }

    method UpdateRtt(id: NodeId, rtt: Millis)
      modifies this`inner
      ensures inner == if id in old(inner) then old(inner)[id := old(inner)[id].(rttMs := Some(rtt))] else old(inner)
    {
      if id in inner {
        inner := inner[id := inner[id].(rttMs := Some(rtt))];
      }
    }

    method ApplyTransitions(log: seq<Transition>)
      modifies this`inner
      ensures inner == ApplyLog(old(inner), log)
    {
      ghost var before := inner;
      for i := 0 to |log|
        invariant inner == ApplyLog(before, log[..i])
      {
        assert log[..i + 1][..i] == log[..i];
        var tr := log[i];
        if tr.id in inner {
          if tr.to == "hot" {
            inner := inner[tr.id := inner[tr.id].(state := Hot)];
          } else if tr.to == "warm" {
            inner := inner[tr.id := inner[tr.id].(state := Warm)];
          }
        }
      }
      assert log[..|log|] == log;
    }

    /** Replays the log, then removes the disconnected peers and returns those it held. */
    method ApplyGovernorActions(acts: Actions) returns (removed: seq<NodeId>)
      modifies this`inner
      ensures inner == Applied(old(inner), acts)
      ensures NoDup(removed) && Elems(removed) == Elems(acts.disconnect) * old(inner).Keys
      ensures NoDup(acts.disconnect) && Elems(acts.disconnect) <= old(inner).Keys ==> removed == acts.disconnect
    {
      ghost var start := inner;
      ApplyTransitions(acts.transitions);
      LogKeepsKeys(start, acts.transitions);
      ghost var before := inner;
      var drop := acts.disconnect;
      removed := [];
      assert before - Elems(drop[..0]) == before;
      for i := 0 to |drop|
        invariant inner == before - Elems(drop[..i])
        invariant NoDup(removed) && Elems(removed) == Elems(drop[..i]) * before.Keys
        invariant NoDup(drop) && Elems(drop) <= before.Keys ==> removed == drop[..i]
      {
        assert drop[..i + 1] == drop[..i] + [drop[i]];
        assert Elems(drop[..i + 1]) == Elems(drop[..i]) + {drop[i]};
        assert drop[i] in Elems(drop);
        assert NoDup(drop) ==> drop[i] !in Elems(drop[..i]);
        if drop[i] in inner {
          assert drop[i] !in Elems(removed);
          assert Elems(removed + [drop[i]]) == Elems(removed) + {drop[i]};
          removed := removed + [drop[i]];
        }
        inner := inner - {drop[i]};
      }
      assert drop[..|drop|] == drop;
    }
  }

  // ---- Replaying a phase's log mirrors the phase -------------------------

  lemma {:induction false} LogKeepsKeys(pool: PoolMap, log: seq<Transition>)
    ensures ApplyLog(pool, log).Keys == pool.Keys
  {
    if log == [] {
    } else {
      LogKeepsKeys(pool, log[..|log| - 1]);
    }
  }

  lemma {:induction false} LogConcat(pool: PoolMap, a: seq<Transition>, b: seq<Transition>)
    ensures ApplyLog(pool, a + b) == ApplyLog(ApplyLog(pool, a), b)
  {
    if b == [] {
      assert a + b == a;
    } else {
      LogConcat(pool, a, b[..|b| - 1]);
      assert (a + b)[..|a + b| - 1] == a + b[..|b| - 1];
    }
  }

  /** As `Agree`, except that the peers in `gone` are still held although the governor has dropped them. */
  predicate Mirrors(pool: PoolMap, peers: PeerMap, gone: set<NodeId>) {
    && gone !! Actives(peers)
    && pool.Keys == Actives(peers) + gone
    && forall id :: id in Actives(peers) ==> pool[id].state == peers[id].state
  }

  /** No peer that is not connected becomes active. */
  predicate NoActivation(phase: Phase, now: Time, peers: PeerMap, touched: set<NodeId>) {
    forall id :: id in touched && id in peers && Effect(phase, now, peers[id]).state.IsActive() ==>
      peers[id].state.IsActive()
  }

  lemma MirrorOne(phase: Phase, now: Time, pool: PoolMap, peers: PeerMap, touched: set<NodeId>, id: NodeId,
                  gone: set<NodeId>)
    requires id in peers && id !in touched && NoActivation(phase, now, peers, {id})
    requires Mirrors(pool, After(phase, now, peers, touched), gone)
    ensures var tr := Transition(id, peers[id].state.Name(), Effect(phase, now, peers[id]).state.Name());
            Mirrors(ApplyOne(pool, tr), After(phase, now, peers, touched + {id}),
                    gone + (if Drops(phase, now, peers[id]) then {id} else {}))
  {
    var q := Effect(phase, now, peers[id]);
    var before, after := After(phase, now, peers, touched), After(phase, now, peers, touched + {id});
    assert after == before[id := q];
    assert before[id] == peers[id];
    assert Actives(after) == if q.state.IsActive() then Actives(before) else Actives(before) - {id};
  }

  lemma LastTouched(phase: Phase, now: Time, pool: PoolMap, peers: PeerMap, ids: seq<NodeId>)
    requires ids != [] && NoDup(ids) && Elems(ids) <= peers.Keys
    ensures var init, last := ids[..|ids| - 1], ids[|ids| - 1];
            && last in peers && last !in Elems(init) && Elems(init) <= peers.Keys && Elems(ids) == Elems(init) + {last}
            && ApplyLog(pool, LogOf(phase, now, peers, ids)) ==
               ApplyOne(ApplyLog(pool, LogOf(phase, now, peers, init)),
                        Transition(last, peers[last].state.Name(), Effect(phase, now, peers[last]).state.Name()))
            && Elems(DropsOf(phase, now, peers, ids)) ==
               Elems(DropsOf(phase, now, peers, init)) + (if Drops(phase, now, peers[last]) then {last} else {})
  {
    var init, last := ids[..|ids| - 1], ids[|ids| - 1];
    assert last in Elems(ids) && Elems(init) <= Elems(ids);
    assert ids == init + [last];
    var log, drops := LogOf(phase, now, peers, init), DropsOf(phase, now, peers, init);
    assert LogOf(phase, now, peers, ids)[..|log|] == log;
    assert Elems(drops + [last]) == Elems(drops) + {last};
    assert drops + [] == drops;
  }

  lemma FewerActivations(phase: Phase, now: Time, peers: PeerMap, touched: set<NodeId>, fewer: set<NodeId>)
    requires fewer <= touched && NoActivation(phase, now, peers, touched)
    ensures NoActivation(phase, now, peers, fewer)
  {
  }

  /** The mirror after replaying what a phase logged for `ids`. */
  ghost predicate MirrorsUpTo(phase: Phase, now: Time, pool: PoolMap, peers: PeerMap, ids: seq<NodeId>,
                              gone: set<NodeId>)
  {
    && Elems(ids) <= peers.Keys
    && Mirrors(ApplyLog(pool, LogOf(phase, now, peers, ids)), After(phase, now, peers, Elems(ids)),
               gone + Elems(DropsOf(phase, now, peers, ids)))
  }

  lemma MirrorLast(phase: Phase, now: Time, pool: PoolMap, peers: PeerMap, ids: seq<NodeId>, gone: set<NodeId>)
    requires ids != [] && NoDup(ids) && Elems(ids) <= peers.Keys && NoActivation(phase, now, peers, {ids[|ids| - 1]})
    requires MirrorsUpTo(phase, now, pool, peers, ids[..|ids| - 1], gone)
    ensures MirrorsUpTo(phase, now, pool, peers, ids, gone)
  {
    var init, last := ids[..|ids| - 1], ids[|ids| - 1];
    LastTouched(phase, now, pool, peers, ids);
    var gone' := gone + Elems(DropsOf(phase, now, peers, init));
    MirrorOne(phase, now, ApplyLog(pool, LogOf(phase, now, peers, init)), peers, Elems(init), last, gone');
    assert gone' + (if Drops(phase, now, peers[last]) then {last} else {}) == gone
      + Elems(DropsOf(phase, now, peers, ids));
  }

  /** Replaying what a phase logged keeps the mirror exact; what it dropped is still to be removed. */
  lemma MirrorPhase(phase: Phase, now: Time, pool: PoolMap, peers: PeerMap, ids: seq<NodeId>, gone: set<NodeId>)
    requires NoDup(ids) && Elems(ids) <= peers.Keys && NoActivation(phase, now, peers, Elems(ids))
    requires Mirrors(pool, peers, gone)
    ensures Mirrors(ApplyLog(pool, LogOf(phase, now, peers, ids)), After(phase, now, peers, Elems(ids)),
                    gone + Elems(DropsOf(phase, now, peers, ids)))
  {
    assert After(phase, now, peers, Elems([])) == peers && gone + Elems<NodeId>([]) == gone;
    for i := 0 to |ids|
      invariant MirrorsUpTo(phase, now, pool, peers, ids[..i], gone)
    {
      assert ids[..i + 1][..i] == ids[..i];
      assert Elems(ids[..i + 1]) <= Elems(ids) && ids[i] in Elems(ids);
      FewerActivations(phase, now, peers, Elems(ids), {ids[i]});
      MirrorLast(phase, now, pool, peers, ids[..i + 1], gone);
    }
    assert ids[..|ids|] == ids;
  }

  function Dropped(phase: Phase, now: Time, peers: PeerMap, ids: seq<NodeId>): set<NodeId> {
    set id | id in ids && id in peers && Drops(phase, now, peers[id])
  }

  lemma {:induction false} DropsAreTouched(phase: Phase, now: Time, peers: PeerMap, ids: seq<NodeId>)
    requires NoDup(ids) && Elems(ids) <= peers.Keys
    ensures NoDup(DropsOf(phase, now, peers, ids))
    ensures Elems(DropsOf(phase, now, peers, ids)) == Dropped(phase, now, peers, ids)
    decreases |ids|
  {
    if ids == [] {
    } else {
      var init, last := ids[..|ids| - 1], ids[|ids| - 1];
      assert last in Elems(ids) && Elems(init) <= Elems(ids);
      assert ids == init + [last];
      DropsAreTouched(phase, now, peers, init);
      var drops := DropsOf(phase, now, peers, init);
      assert last !in init;
      assert last !in Elems(drops);
      if Drops(phase, now, peers[last]) {
        assert Elems(drops + [last]) == Elems(drops) + {last};
        assert Dropped(phase, now, peers, ids) == Dropped(phase, now, peers, init) + {last};
      } else {
        assert drops + [] == drops;
        assert Dropped(phase, now, peers, ids) == Dropped(phase, now, peers, init);
      }
    }
  }
}
