/** Peers as the governor sees them, and what one tick may do to them. */
module Peers {
  import opened Collections
  import opened Era
  import opened Ranking

  type NodeId = nat
  type GroupId = string
  type Time = nat
  type Millis = r: real | 0.0 <= r witness 0.0

  datatype PeerState =
    | Cold
    | Warm
    | Hot
    | Banned(until: Time, reason: string, escalation: nat)
  {
    predicate IsActive() { Warm? || Hot? }

    function Name(): string {
      match this
      case Cold => "cold"
      case Warm => "warm"
      case Hot => "hot"
      case Banned(_, _, _) => "banned"
    }
  }

  datatype PeerInfo = PeerInfo(
    nodeId: NodeId,
    addrs: seq<string>,
    state: PeerState,
    groups: seq<GroupId>,
    rttMs: Option<Millis>,
    lastActivity: Time,
    itemsDelivered: nat,
    connectedSince: Option<Time>,
    demotedAt: Option<Time>,
    disconnectCount: nat,
    lastDisconnected: Option<Time>,
    isRelay: bool)

  type PeerMap = map<NodeId, PeerInfo>

  datatype DialPolicy = All | RelaysOnly | TrustedOnly(trusted: seq<NodeId>)

  datatype Targets = Targets(
    hotMin: nat,
    hotMax: nat,
    warmMin: nat,
    warmMax: nat,
    coldMax: nat,
    churnInterval: nat,
    churnFraction: real)

  datatype Config = Config(targets: Targets, ourGroups: seq<GroupId>, policy: DialPolicy)

  datatype Transition = Transition(id: NodeId, from: string, to: string)

  datatype Actions = Actions(connect: seq<NodeId>, disconnect: seq<NodeId>, transitions: seq<Transition>)

  /** Saturating, like `Instant::duration_since`. */
  function Since(now: Time, t: Time): nat {
    if t <= now then now - t else 0
  }

  // ---- Pure judgements about one peer ------------------------------------

  /** Items per second since connecting (at least one second), weighted by round-trip time. */
  function Score(p: PeerInfo, now: Time): real {
    var secs := match p.connectedSince
      case Some(s) => Since(now, s) as real / SECOND as real
      case None => 1.0;
    var elapsed := if secs < 1.0 then 1.0 else secs;
    var rttFactor := match p.rttMs
      case Some(r) => 1.0 / (1.0 + r / 100.0)
      case None => 0.5;
    p.itemsDelivered as real / elapsed * rttFactor
  }

  predicate HasGroupOverlap(p: PeerInfo, groups: seq<GroupId>) {
    exists g :: g in p.groups && g in groups
  }

  function Pow2(n: nat): nat { if n == 0 then 1 else 2 * Pow2(n - 1) }

  /** `min(2^min(count, 5) * 30s, 15min)`, zero if the peer never failed. */
  function ReconnectBackoff(count: nat): nat {
    if count == 0 then 0
    else Min(RECONNECT_BACKOFF_BASE * Pow2(Min(count, BACKOFF_SATURATION_COUNT)), RECONNECT_BACKOFF_MAX)
  }

  predicate IsDialable(policy: DialPolicy, p: PeerInfo) {
    match policy
    case All => true
    case RelaysOnly => p.isRelay
    case TrustedOnly(trusted) => p.nodeId in trusted
  }

  predicate BackoffOver(p: PeerInfo, now: Time) {
    p.lastDisconnected.Some? ==> Since(now, p.lastDisconnected.value) >= ReconnectBackoff(p.disconnectCount)
  }

  /** Not heard from for longer than the dead timeout. */
  predicate Silent(p: PeerInfo, now: Time) {
    Since(now, p.lastActivity) > DEAD_TIMEOUT
  }

  /** No reaping demotion, or one longer ago than the dead timeout. */
  predicate CooledDown(p: PeerInfo, now: Time) {
    p.demotedAt.Some? ==> Since(now, p.demotedAt.value) > DEAD_TIMEOUT
  }

  predicate BanExpired(p: PeerInfo, now: Time) {
    p.state.Banned? && p.state.until <= now
  }

  // ---- Sets of peers -----------------------------------------------------

  predicate WellKeyed(peers: PeerMap) {
    forall id :: id in peers ==> peers[id].nodeId == id
  }

  function Hots(peers: PeerMap): set<NodeId> { set id | id in peers && peers[id].state.Hot? }
  function Warms(peers: PeerMap): set<NodeId> { set id | id in peers && peers[id].state.Warm? }
  function Colds(peers: PeerMap): set<NodeId> { set id | id in peers && peers[id].state.Cold? }
  function Actives(peers: PeerMap): set<NodeId> { set id | id in peers && peers[id].state.IsActive() }

  function ExpiredBans(peers: PeerMap, now: Time): set<NodeId> {
    set id | id in peers && BanExpired(peers[id], now)
  }

  function Dead(peers: PeerMap, now: Time): set<NodeId> {
    set id | id in peers && peers[id].state.IsActive() && Silent(peers[id], now)
  }

  function ColdDialable(cfg: Config, peers: PeerMap): set<NodeId> {
    set id | id in peers && peers[id].state.Cold? && IsDialable(cfg.policy, peers[id])
  }

  function DialCandidates(cfg: Config, now: Time, peers: PeerMap): set<NodeId> {
    set id | id in ColdDialable(cfg, peers) && BackoffOver(peers[id], now)
  }

  function EligibleWarm(now: Time, peers: PeerMap): set<NodeId> {
    set id | id in peers && peers[id].state.Warm? && CooledDown(peers[id], now)
  }

  // ---- What each phase does to a peer it touches -------------------------

  datatype Phase = Unban | Reap | Promote | Demote | Churn

  function Effect(phase: Phase, now: Time, p: PeerInfo): PeerInfo {
    match phase
    case Unban => p.(state := Cold)
    case Reap =>
      if p.state.Hot? then p.(state := Warm, connectedSince := None, demotedAt := Some(now))
      else if p.state.Warm? then p.(state := Cold, connectedSince := None)
      else p
    case Promote => p.(state := Hot, disconnectCount := 0)
    case Demote => p.(state := Warm)
    case Churn => p.(state := Cold, connectedSince := None)
  }

  function After(phase: Phase, now: Time, peers: PeerMap, touched: set<NodeId>): PeerMap {
    map id | id in peers :: if id in touched then Effect(phase, now, peers[id]) else peers[id]
  }

  /** One log entry per touched peer, in the order they were touched. */
  function LogOf(phase: Phase, now: Time, peers: PeerMap, ids: seq<NodeId>): seq<Transition>
    requires Elems(ids) <= peers.Keys
  {
    if ids == [] then []
    else
      var last := ids[|ids| - 1];
      assert last in Elems(ids);
      assert Elems(ids[..|ids| - 1]) <= Elems(ids);
      LogOf(phase, now, peers, ids[..|ids| - 1]) +
      [Transition(last, peers[last].state.Name(), Effect(phase, now, peers[last]).state.Name())]
  }

  /** An active peer that a phase turns Cold is to be disconnected. */
  predicate Drops(phase: Phase, now: Time, p: PeerInfo) {
    p.state.IsActive() && Effect(phase, now, p).state.Cold?
  }

  function DropsOf(phase: Phase, now: Time, peers: PeerMap, ids: seq<NodeId>): seq<NodeId>
    requires Elems(ids) <= peers.Keys
  {
    if ids == [] then []
    else
      var last := ids[|ids| - 1];
      assert last in Elems(ids);
      assert Elems(ids[..|ids| - 1]) <= Elems(ids);
      DropsOf(phase, now, peers, ids[..|ids| - 1]) + (if Drops(phase, now, peers[last]) then [last] else [])
  }

  // ---- Sort keys of the selecting phases ---------------------------------

  /** Cold peers sharing a group with us are dialled first. */
  function OverlapKeys(cfg: Config, peers: PeerMap): map<NodeId, Key> {
    map id | id in peers :: Key(if HasGroupOverlap(peers[id], cfg.ourGroups) then 0 else 1, 0.0)
  }

  /** Best score first. */
  function ScoreKeys(now: Time, peers: PeerMap): map<NodeId, Key> {
    map id | id in peers :: Key(0, -Score(peers[id], now))
  }

  /** Stale first, then worst score. */
  function StaleKeys(now: Time, peers: PeerMap): map<NodeId, Key> {
    map id | id in peers ::
      Key(if Since(now, peers[id].lastActivity) > STALE_TIMEOUT then 0 else 1, Score(peers[id], now))
  }

  /** Longest idle first. */
  function AgeKeys(peers: PeerMap): map<NodeId, Key> {
    map id | id in peers :: Key(peers[id].lastActivity, 0.0)
  }

  // ---- Specification of each selecting phase -----------------------------

  /** Dial the best candidates until warm and hot together would reach `warmMax`. */
  ghost predicate DialSpec(cfg: Config, now: Time, peers: PeerMap, dialled: seq<NodeId>) {
    var active := |Actives(peers)|;
    var pool := DialCandidates(cfg, now, peers);
    && NoDup(dialled)
    && Best(OverlapKeys(cfg, peers), pool, Elems(dialled),
       if active < cfg.targets.warmMax then cfg.targets.warmMax - active else 0)
    && Ranked(OverlapKeys(cfg, peers), dialled)
  }

  /** Fill up to `hotMin` with the best-scoring eligible peers; otherwise promote at most one that beats a hot peer. */
  ghost predicate PromoteSpec(cfg: Config, now: Time, peers: PeerMap, promoted: seq<NodeId>) {
    var hot := |Hots(peers)|;
    var pool := EligibleWarm(now, peers);
    && NoDup(promoted)
    && Best(ScoreKeys(now, peers), pool, Elems(promoted),
            if hot < cfg.targets.hotMin then cfg.targets.hotMin - hot
            else if hot < cfg.targets.hotMax && SomeWarmBeatsAHot(now, peers) then 1
            else 0)
  }

  ghost predicate SomeWarmBeatsAHot(now: Time, peers: PeerMap) {
    exists w, h :: w in EligibleWarm(now, peers) && h in Hots(peers) && Score(peers[w], now) > Score(peers[h], now)
  }

  ghost predicate DemoteSpec(cfg: Config, now: Time, peers: PeerMap, demoted: seq<NodeId>) {
    var hot := |Hots(peers)|;
    && NoDup(demoted)
    && Best(StaleKeys(now, peers), Hots(peers), Elems(demoted),
       if cfg.targets.hotMax < hot then hot - cfg.targets.hotMax else 0)
  }

  /** `ceil(warm * fraction)`, converted to an unsigned count. */
  function ChurnCount(warm: nat, fraction: real): nat {
    Max(0, -((-(warm as real * fraction)).Floor))
  }

  predicate ChurnDue(cfg: Config, now: Time, lastChurn: Time) {
    Since(now, lastChurn) >= cfg.targets.churnInterval
  }

  /** How many warm peers this tick swaps for cold ones. */
  function ChurnQuota(cfg: Config, now: Time, lastChurn: Time, peers: PeerMap): nat {
    if ChurnDue(cfg, now, lastChurn) && Colds(peers) != {} then
      ChurnCount(|Warms(peers)|, cfg.targets.churnFraction)
    else 0
  }

  ghost predicate ChurnSpec(cfg: Config, now: Time, lastChurn: Time, peers: PeerMap, churned: seq<NodeId>,
                            redialled: seq<NodeId>) {
    var quota := ChurnQuota(cfg, now, lastChurn, peers);
    var pool := ColdDialable(cfg, After(Churn, now, peers, Elems(churned)));
    && NoDup(churned) && Elems(churned) <= Warms(peers) && |churned| == Min(quota, |Warms(peers)|)
    && NoDup(redialled) && Elems(redialled) <= pool && |redialled| == Min(quota, |pool|)
  }

  ghost predicate EvictSpec(cfg: Config, peers: PeerMap, evicted: seq<NodeId>) {
    var cold := |Colds(peers)|;
    && NoDup(evicted)
    && Best(AgeKeys(peers), Colds(peers), Elems(evicted),
       if cfg.targets.coldMax < cold then cold - cfg.targets.coldMax else 0)
  }

  // ---- A whole tick ------------------------------------------------------

  datatype GovState = GovState(peers: PeerMap, lastChurn: Time)

  /** The peers each phase of one tick touched, in order. */
  datatype Trace = Trace(
    unbanned: seq<NodeId>,
    reaped: seq<NodeId>,
    dialled: seq<NodeId>,
    promoted: seq<NodeId>,
    demoted: seq<NodeId>,
    churned: seq<NodeId>,
    redialled: seq<NodeId>,
    evicted: seq<NodeId>)

  function AfterUnban(now: Time, s: GovState, t: Trace): PeerMap { After(Unban, now, s.peers, Elems(t.unbanned)) }
  function AfterReap(now: Time, s: GovState, t: Trace): PeerMap {
    After(Reap, now, AfterUnban(now, s, t), Elems(t.reaped))
  }
  function AfterPromote(now: Time, s: GovState, t: Trace): PeerMap {
    After(Promote, now, AfterReap(now, s, t), Elems(t.promoted))
  }
  function AfterDemote(now: Time, s: GovState, t: Trace): PeerMap {
    After(Demote, now, AfterPromote(now, s, t), Elems(t.demoted))
  }
  function AfterChurn(now: Time, s: GovState, t: Trace): PeerMap {
    After(Churn, now, AfterDemote(now, s, t), Elems(t.churned))
  }

  /** The seven phases in order: `t` says whom each touched, `s'` and `acts` are the outcome. */
  ghost predicate Ticked(cfg: Config, now: Time, s: GovState, t: Trace, s': GovState, acts: Actions) {
    var p0 := s.peers;
    var p1 := AfterUnban(now, s, t);
    var p2 := AfterReap(now, s, t);
    var p3 := AfterPromote(now, s, t);
    var p4 := AfterDemote(now, s, t);
    var p5 := AfterChurn(now, s, t);
    && NoDup(t.unbanned) && Elems(t.unbanned) == ExpiredBans(p0, now)
    && NoDup(t.reaped) && Elems(t.reaped) == Dead(p1, now)
    && DialSpec(cfg, now, p2, t.dialled)
    && PromoteSpec(cfg, now, p2, t.promoted)
    && DemoteSpec(cfg, now, p3, t.demoted)
    && ChurnSpec(cfg, now, s.lastChurn, p4, t.churned, t.redialled)
    && EvictSpec(cfg, p5, t.evicted)
    && s'.peers == p5 - Elems(t.evicted)
    && s'.lastChurn == (if ChurnDue(cfg, now, s.lastChurn) then now else s.lastChurn)
    && acts.connect == t.dialled + t.redialled
    && acts.disconnect == DropsOf(Reap, now, p1, t.reaped) + DropsOf(Churn, now, p4, t.churned)
    && acts.transitions ==
         LogOf(Unban, now, p0, t.unbanned) + LogOf(Reap, now, p1, t.reaped) + LogOf(Promote, now, p2, t.promoted)
         + LogOf(Demote, now, p3, t.demoted) + LogOf(Churn, now, p4, t.churned)
  }

  /** Assembles the specification of a tick from what its phases did. */
  lemma PhasesMakeATick(cfg: Config, now: Time, s: GovState, t: Trace, s': GovState, acts: Actions,
                        p1: PeerMap, p2: PeerMap, p3: PeerMap, p4: PeerMap, p5: PeerMap)
    requires NoDup(t.unbanned) && Elems(t.unbanned) == ExpiredBans(s.peers, now)
             && p1 == After(Unban, now, s.peers, Elems(t.unbanned))
    requires NoDup(t.reaped) && Elems(t.reaped) == Dead(p1, now) && p2 == After(Reap, now, p1, Elems(t.reaped))
    requires DialSpec(cfg, now, p2, t.dialled)
    requires PromoteSpec(cfg, now, p2, t.promoted) && p3 == After(Promote, now, p2, Elems(t.promoted))
    requires DemoteSpec(cfg, now, p3, t.demoted) && p4 == After(Demote, now, p3, Elems(t.demoted))
    requires ChurnSpec(cfg, now, s.lastChurn, p4, t.churned, t.redialled)
             && p5 == After(Churn, now, p4, Elems(t.churned))
    requires EvictSpec(cfg, p5, t.evicted) && s'.peers == p5 - Elems(t.evicted)
    requires s'.lastChurn == if ChurnDue(cfg, now, s.lastChurn) then now else s.lastChurn
    requires acts.connect == [] + t.dialled + t.redialled
    requires acts.disconnect == [] + DropsOf(Reap, now, p1, t.reaped) + DropsOf(Churn, now, p4, t.churned)
    requires acts.transitions ==
               [] + LogOf(Unban, now, s.peers, t.unbanned) + LogOf(Reap, now, p1, t.reaped)
                 + LogOf(Promote, now, p2, t.promoted)
               + LogOf(Demote, now, p3, t.demoted) + LogOf(Churn, now, p4, t.churned)
    ensures Ticked(cfg, now, s, t, s', acts)
  {
    assert [] + t.dialled == t.dialled;
    assert [] + DropsOf(Reap, now, p1, t.reaped) == DropsOf(Reap, now, p1, t.reaped);
    assert [] + LogOf(Unban, now, s.peers, t.unbanned) == LogOf(Unban, now, s.peers, t.unbanned);
  }
}
