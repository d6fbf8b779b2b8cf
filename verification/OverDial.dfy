/** The dial budget needs a churn fraction of at most one: above it, one warm and one cold peer suffice to break it. */
module OverDial {
  import opened Collections
  import opened Ranking
  import opened Peers

  function Plain(id: NodeId, state: PeerState): PeerInfo {
    PeerInfo(id, [], state, [], None, 0, 0, None, None, 0, None, false)
  }

  function Before(): PeerMap { map[1 := Plain(1, Warm), 2 := Plain(2, Cold)] }
  function Churned(): PeerMap { map[1 := Plain(1, Cold), 2 := Plain(2, Cold)] }

  function Cfg(fraction: real): Config { Config(Targets(0, 0, 0, 1, 2, 0, fraction), [], All) }

  lemma SetsBefore()
    ensures Actives(Before()) == {1} == Warms(Before()) && Hots(Before()) == {} && Colds(Before()) == {2}
    ensures ExpiredBans(Before(), 0) == {} == Dead(Before(), 0)
  {
  }

  lemma SetsAfter(fraction: real)
    ensures Actives(Churned()) == {} && Colds(Churned()) == {1, 2} == ColdDialable(Cfg(fraction), Churned())
    ensures After(Churn, 0, Before(), {1}) == Churned()
  {
  }

  lemma NobodyTouched(phase: Phase)
    ensures After(phase, 0, Before(), Elems([])) == Before()
    ensures Elems([]) == ExpiredBans(Before(), 0) == Dead(Before(), 0)
  {
    SetsBefore();
  }

  lemma OneChurned()
    ensures After(Churn, 0, Before(), Elems([1])) == Churned()
    ensures Churned() - Elems([]) == Churned()
  {
    assert Elems([1]) == {1};
  }

  lemma QuietPhases(fraction: real)
    ensures DialSpec(Cfg(fraction), 0, Before(), [])
    ensures PromoteSpec(Cfg(fraction), 0, Before(), [])
    ensures DemoteSpec(Cfg(fraction), 0, Before(), [])
    ensures EvictSpec(Cfg(fraction), Churned(), [])
  {
    SetsBefore();
    SetsAfter(fraction);
    BestOfNone(OverlapKeys(Cfg(fraction), Before()), DialCandidates(Cfg(fraction), 0, Before()));
    BestOfNone(ScoreKeys(0, Before()), EligibleWarm(0, Before()));
    BestOfNone(StaleKeys(0, Before()), Hots(Before()));
    BestOfNone(AgeKeys(Churned()), Colds(Churned()));
  }

  lemma BusyChurn(fraction: real)
    requires fraction > 1.0
    ensures ChurnSpec(Cfg(fraction), 0, 0, Before(), [1], [1, 2])
  {
    SetsBefore();
    SetsAfter(fraction);
    assert Elems([1]) == {1} && Elems([1, 2]) == {1, 2};
    var ids: set<NodeId> := {1, 2};
    assert |Warms(Before())| == 1 && |ids| == 2;
    assert ColdDialable(Cfg(fraction), After(Churn, 0, Before(), Elems([1]))) == ids;
    assert ChurnQuota(Cfg(fraction), 0, 0, Before()) == ChurnCount(1, fraction) >= 2;
  }

  function Touched(): Trace { Trace([], [], [], [], [], [1], [1, 2], []) }

  function Asked(): Actions {
    assert Elems([1]) == {1};
    Actions([1, 2], DropsOf(Churn, 0, Before(), [1]), LogOf(Churn, 0, Before(), [1]))
  }

  lemma QuietLog(log: seq<Transition>, drops: seq<NodeId>)
    ensures [] + LogOf(Unban, 0, Before(), []) + LogOf(Reap, 0, Before(), []) + LogOf(Promote, 0, Before(), [])
            + LogOf(Demote, 0, Before(), []) + log == log
    ensures [] + DropsOf(Reap, 0, Before(), []) + drops == drops
  {
  }

  lemma OverTick(fraction: real)
    requires fraction > 1.0
    ensures Ticked(Cfg(fraction), 0, GovState(Before(), 0), Touched(), GovState(Churned(), 0), Asked())
  {
    QuietPhases(fraction);
    BusyChurn(fraction);
    QuietLog(Asked().transitions, Asked().disconnect);
    NobodyTouched(Unban);
    NobodyTouched(Reap);
    NobodyTouched(Promote);
    NobodyTouched(Demote);
    OneChurned();
    PhasesMakeATick(Cfg(fraction), 0, GovState(Before(), 0), Touched(), GovState(Churned(), 0), Asked(),
                    Before(), Before(), Before(), Before(), Churned());
  }

  lemma OverdialAboveOne(fraction: real)
    returns (cfg: Config, s: GovState, t: Trace, s': GovState, acts: Actions)
    requires fraction > 1.0
    ensures cfg.targets.churnFraction == fraction && Ticked(cfg, 0, s, t, s', acts)
    ensures |Actives(s'.peers)| + |acts.connect| > Max(cfg.targets.warmMax, |Actives(s.peers)|)
  {
    OverTick(fraction);
    SetsBefore();
    SetsAfter(fraction);
    cfg, s, t, s', acts := Cfg(fraction), GovState(Before(), 0), Touched(), GovState(Churned(), 0), Asked();
  }
}
