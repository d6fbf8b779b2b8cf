/**
  * A connect that does not land in step, as the loop can reach it: a peer is dialled, its entry is evicted by a later
  * tick while the dial is pending, and then the peer connects. The governor no longer knows it; the pool files it as
  * warm.
  */
module LateConnect {
  import opened Collections
  import opened Ranking
  import opened Peers
  import opened GovernorModel
  import opened PeerPoolModel
  import opened GovernorTask

  function Cfg(): Config { Config(Targets(0, 0, 0, 1, 1, 10, 0.0), [], All) }

  function First(): PeerMap { map[1 := NewPeer(1, ["a"], [], 0)] }
  function Second(): PeerMap { map[1 := NewPeer(1, ["a"], [], 0), 2 := NewPeer(2, ["b"], [], 1)] }
  function Third(): PeerMap { map[2 := NewPeer(2, ["b"], [], 1)] }

  function Idle(dialled: seq<NodeId>, evicted: seq<NodeId>): Trace { Trace([], [], dialled, [], [], [], [], evicted) }

  /** Only cold peers, none banned: nothing to unban, reap, promote, demote or churn. */
  predicate AllCold(peers: PeerMap) { forall id :: id in peers ==> peers[id].state.Cold? }

  lemma ColdSets(peers: PeerMap, now: Time)
    requires AllCold(peers)
    ensures Hots(peers) == {} == Warms(peers) == Actives(peers) && Colds(peers) == peers.Keys
    ensures ExpiredBans(peers, now) == {} == Dead(peers, now) == EligibleWarm(now, peers)
  {
  }

  lemma NobodyMoved(phase: Phase, now: Time, peers: PeerMap)
    ensures After(phase, now, peers, Elems([])) == peers
  {
  }

  lemma QuietPhases(now: Time, peers: PeerMap)
    requires AllCold(peers)
    ensures PromoteSpec(Cfg(), now, peers, []) && DemoteSpec(Cfg(), now, peers, [])
  {
    ColdSets(peers, now);
    BestOfNone(ScoreKeys(now, peers), EligibleWarm(now, peers));
    BestOfNone(StaleKeys(now, peers), Hots(peers));
  }

  lemma NoChurning(now: Time, peers: PeerMap)
    requires AllCold(peers) && now < 10
    ensures ChurnSpec(Cfg(), now, 0, peers, [], []) && !ChurnDue(Cfg(), now, 0)
  {
    NoChurn(Cfg(), now, 0, peers);
  }

  /** A tick over cold peers only dials and evicts. */
  lemma ColdTick(now: Time, peers: PeerMap, dialled: seq<NodeId>, evicted: seq<NodeId>, after: PeerMap)
    requires AllCold(peers) && now < 10 && DialSpec(Cfg(), now, peers, dialled) && EvictSpec(Cfg(), peers, evicted)
    requires after == peers - Elems(evicted)
    ensures Ticked(Cfg(), now, GovState(peers, 0), Idle(dialled, evicted), GovState(after, 0), Actions(dialled, [], []))
  {
    ColdSets(peers, now);
    QuietPhases(now, peers);
    NoChurning(now, peers);
    NobodyMoved(Unban, now, peers);
    NobodyMoved(Reap, now, peers);
    NobodyMoved(Promote, now, peers);
    NobodyMoved(Demote, now, peers);
    NobodyMoved(Churn, now, peers);
    assert Elems<NodeId>([]) == {};
    QuietLog(now, peers, dialled);
    PhasesMakeATick(Cfg(), now, GovState(peers, 0), Idle(dialled, evicted), GovState(after, 0),
      Actions(dialled, [], []),
                    peers, peers, peers, peers, peers);
  }

  lemma QuietLog(now: Time, peers: PeerMap, dialled: seq<NodeId>)
    ensures [] + LogOf(Unban, now, peers, []) + LogOf(Reap, now, peers, []) + LogOf(Promote, now, peers, [])
            + LogOf(Demote, now, peers, []) + LogOf(Churn, now, peers, []) == []
    ensures [] + DropsOf(Reap, now, peers, []) + DropsOf(Churn, now, peers, []) == []
    ensures [] + dialled + [] == dialled
  {
  }

  lemma OneOf(id: NodeId)
    ensures NoDup([id]) && Elems([id]) == {id} && |Elems([id])| == 1
  {
    NoDupCardinality([id]);
  }

  /** Any one candidate may be dialled: none shares a group with us, and there is room for one. */
  lemma DialsOne(now: Time, peers: PeerMap, id: NodeId)
    requires AllCold(peers) && id in DialCandidates(Cfg(), now, peers)
    ensures DialSpec(Cfg(), now, peers, [id])
  {
    OneOf(id);
    ColdSets(peers, now);
    SubsetCardinality({id}, DialCandidates(Cfg(), now, peers));
  }

  lemma EvictsNone(peers: PeerMap)
    requires AllCold(peers) && |peers| <= 1
    ensures EvictSpec(Cfg(), peers, [])
  {
    ColdSets(peers, 0);
    BestOfNone(AgeKeys(peers), Colds(peers));
  }

  /** Of two cold peers the longer idle one goes. */
  lemma EvictsOne(peers: PeerMap, id: NodeId)
    requires AllCold(peers) && |peers| == 2 && id in peers && forall other :: other in peers ==>
               peers[id].lastActivity <= peers[other].lastActivity
    ensures EvictSpec(Cfg(), peers, [id])
  {
    OneOf(id);
    ColdSets(peers, 0);
    assert |Colds(peers)| == 2;
  }

  lemma FirstFacts()
    ensures AllCold(First()) && 1 in DialCandidates(Cfg(), 0, First()) && |First()| == 1
  {
    assert First().Keys == {1};
    assert |First()| == |First().Keys|;
  }

  lemma SecondFacts()
    ensures AllCold(Second()) && 2 in DialCandidates(Cfg(), 1, Second()) && |Second()| == 2
    ensures 1 in Second() && forall other :: other in Second() ==>
              Second()[1].lastActivity <= Second()[other].lastActivity
    ensures Second() - {1} == Third()
  {
    var both: set<NodeId> := {1, 2};
    assert Second().Keys == both && |both| == 2;
    assert |Second()| == |Second().Keys|;
  }

  /** A tick that dials one peer and evicts nobody. */
  lemma DialingTick(now: Time, peers: PeerMap, id: NodeId)
    requires AllCold(peers) && now < 10 && id in DialCandidates(Cfg(), now, peers) && |peers| <= 1
    ensures Ticked(Cfg(), now, GovState(peers, 0), Idle([id], []), GovState(peers, 0), Actions([id], [], []))
  {
    DialsOne(now, peers, id);
    EvictsNone(peers);
    assert Elems<NodeId>([]) == {};
    ColdTick(now, peers, [id], [], peers);
  }

  /** A tick that dials one peer and evicts another. */
  lemma EvictingTick(now: Time, peers: PeerMap, id: NodeId, old_: NodeId, after: PeerMap)
    requires AllCold(peers) && now < 10 && id in DialCandidates(Cfg(), now, peers) && |peers| == 2 && old_ in peers
    requires forall other :: other in peers ==> peers[old_].lastActivity <= peers[other].lastActivity
    requires after == peers - {old_}
    ensures Ticked(Cfg(), now, GovState(peers, 0), Idle([id], [old_]), GovState(after, 0), Actions([id], [], []))
  {
    DialsOne(now, peers, id);
    EvictsOne(peers, old_);
    OneOf(old_);
    ColdTick(now, peers, [id], [old_], after);
  }

  // ---- The run -----------------------------------------------------------

  function Handle(): PeerHandle { PeerHandle(1, ["a"], Warm, [], [], None, 1, false, 0) }

  function S0(): LoopState { LoopState(GovState(map[], 0), map[], map[]) }
  function S1(): LoopState { LoopState(GovState(First(), 0), map[], map[]) }
  function S2(): LoopState { LoopState(GovState(First(), 0), map[], map["a" := 1]) }
  function S3(): LoopState { LoopState(GovState(Second(), 0), map[], map["a" := 1]) }
  function S4(): LoopState { LoopState(GovState(Third(), 0), map[], map["a" := 1, "b" := 2]) }
  function S5(): LoopState { LoopState(GovState(Third(), 0), map[1 := Handle()], map["b" := 2]) }

  function FindFirst(): LoopEvent { Discovered(0, 1, ["a"], [], false) }
  function TickFirst(): LoopEvent { Ticks(0, Cfg(), Idle([1], []), Actions([1], [], [])) }
  function FindSecond(): LoopEvent { Discovered(1, 2, ["b"], [], false) }
  function TickSecond(): LoopEvent { Ticks(1, Cfg(), Idle([2], [1]), Actions([2], [], [])) }
  function Connect(): LoopEvent { PeerConnected(1, 1, ["a"], Handle()) }

  lemma NothingApplied(connect: seq<NodeId>)
    ensures Applied(map[], Actions(connect, [], [])) == map[]
  {
  }

  lemma OneRemembered(peers: PeerMap, pending: map<string, NodeId>, id: NodeId, addr: string)
    requires id in peers && peers[id].addrs == [addr]
    ensures Remembered(peers, pending, [id]) == pending[addr := id]
  {
    assert [id][..0] == [];
  }

  lemma FirstTickStep()
    ensures LoopStep(S1(), TickFirst(), S2())
  {
    FirstFacts();
    DialingTick(0, First(), 1);
    NothingApplied([1]);
    OneRemembered(First(), map[], 1, "a");
  }

  lemma SecondTickStep()
    ensures LoopStep(S3(), TickSecond(), S4())
  {
    SecondFacts();
    EvictingTick(1, Second(), 2, 1, Third());
    NothingApplied([2]);
    OneRemembered(Third(), map["a" := 1], 2, "b");
  }

  lemma FoundSteps()
    ensures LoopStep(S0(), FindFirst(), S1()) && LoopStep(S2(), FindSecond(), S3())
  {
    assert WithAdded(map[], 1, ["a"], [], 0) == First();
    assert WithAdded(First(), 2, ["b"], [], 1) == Second();
  }

  lemma ConnectStep()
    ensures LoopStep(S4(), Connect(), S5())
  {
    var pending: map<string, NodeId> := map["a" := 1, "b" := 2];
    assert ["a"][..0] == [];
    assert FirstPending(pending, ["a"]) == Some("a");
    assert pending - {"a"} == map["b" := 2];
    assert ConnectedPeers(Third(), Some(1), 1, ["a"], 1) == Third();
  }

  lemma RunUntilFound() returns (states: seq<LoopState>, events: seq<LoopEvent>)
    ensures IsLoopRun(states, events) && states[0] == S0() && states[|events|] == S1()
  {
    states, events := [S0()], [];
    FoundSteps();
    RunExtends(states, events, FindFirst(), S1());
    states, events := states + [S1()], events + [FindFirst()];
  }

  lemma RunUntilDial() returns (states: seq<LoopState>, events: seq<LoopEvent>)
    ensures IsLoopRun(states, events) && states[0] == S0() && states[|events|] == S2()
  {
    states, events := RunUntilFound();
    FirstTickStep();
    RunExtends(states, events, TickFirst(), S2());
    states, events := states + [S2()], events + [TickFirst()];
  }

  lemma RunUntilEviction() returns (states: seq<LoopState>, events: seq<LoopEvent>)
    ensures IsLoopRun(states, events) && states[0] == S0() && states[|events|] == S4()
  {
    states, events := RunUntilDial();
    FoundSteps();
    RunExtends(states, events, FindSecond(), S3());
    states, events := states + [S3()], events + [FindSecond()];
    SecondTickStep();
    RunExtends(states, events, TickSecond(), S4());
    states, events := states + [S4()], events + [TickSecond()];
  }

  lemma LastState()
    ensures 1 in S5().pool && 1 !in S5().gov.peers && !Agrees(S5()) && Agrees(S0())
  {
    assert Actives(S5().gov.peers) == {} == Actives(S0().gov.peers);
  }

  /**
    * From an empty start: a peer is found and dialled; another is found and dialled, and the first evicted; then the
    * first connects. The pool ends with a peer that the governor does not know.
    */
  lemma LateConnectDisagrees() returns (states: seq<LoopState>, events: seq<LoopEvent>)
    ensures IsLoopRun(states, events) && states[0] == LoopState(GovState(map[], 0), map[], map[]) && Agrees(states[0])
    ensures var s := states[|events|]; 1 in s.pool && 1 !in s.gov.peers && !Agrees(s)
  {
    states, events := RunUntilEviction();
    ConnectStep();
    RunExtends(states, events, Connect(), S5());
    states, events := states + [S5()], events + [Connect()];
    LastState();
  }
}
