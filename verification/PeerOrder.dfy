/** Which peers a tick prefers, said of the peers themselves: their rates, groups, flags and idle times. */
module PeerOrder {
  import opened Collections
  import opened Era
  import opened Ranking
  import opened Peers

  // ---- What a score is ---------------------------------------------------

  /** The time the peer counts as connected: at least a second, and a second if it is not known. */
  function ConnectedFor(p: PeerInfo, now: Time): nat {
    if p.connectedSince.None? then SECOND else Max(SECOND, Since(now, p.connectedSince.value))
  }

  /** The round-trip time the peer counts with: 100 ms if none was measured. */
  function RoundTrip(p: PeerInfo): Millis { if p.rttMs.Some? then p.rttMs.value else 100.0 }

  lemma Quotient(a: real, b: real)
    requires b > 0.0
    ensures a / b * b == a
  {
  }

  lemma FactorIsInverse(r: real)
    requires r >= 0.0
    ensures 1.0 / (1.0 + r / 100.0) * (100.0 + r) == 100.0
  {
    var f := 1.0 + r / 100.0;
    assert 100.0 * f == 100.0 + r;
    Quotient(1.0, f);
    assert 1.0 / f * (100.0 * f) == 100.0 * (1.0 / f * f);
  }

  lemma RateTimesTime(items: real, held: real)
    requires held > 0.0
    ensures items / (held / SECOND as real) * held == items * SECOND as real
  {
    var secs := held / SECOND as real;
    Quotient(held, SECOND as real);
    assert secs > 0.0;
    Quotient(items, secs);
    assert items / secs * (secs * SECOND as real) == items / secs * secs * SECOND as real;
  }

  function Elapsed(p: PeerInfo, now: Time): (r: real)
    ensures r >= 1.0
  {
    var secs := match p.connectedSince
      case Some(s) => Since(now, s) as real / SECOND as real
      case None => 1.0;
    if secs < 1.0 then 1.0 else secs
  }

  lemma ElapsedIsConnectedFor(p: PeerInfo, now: Time)
    ensures Elapsed(p, now) == ConnectedFor(p, now) as real / SECOND as real
  {
  }

  lemma ScoreSplits(p: PeerInfo, now: Time)
    ensures Score(p, now) == p.itemsDelivered as real / Elapsed(p, now) *
                             (if p.rttMs.Some? then 1.0 / (1.0 + p.rttMs.value / 100.0) else 0.5)
  {
  }

  lemma ProductOf(rate: real, factor: real, held: real, weight: real, a: real, b: real)
    requires rate * held == a && factor * weight == b
    ensures rate * factor * (held * weight) == a * b
  {
    assert rate * factor * (held * weight) == (rate * held) * (factor * weight);
  }

  /** How long and how slowly the peer has been connected, in one number. */
  function Burden(p: PeerInfo, now: Time): (r: real)
    ensures r > 0.0
  {
    assert ConnectedFor(p, now) as real > 0.0;
    ConnectedFor(p, now) as real * (100.0 + RoundTrip(p))
  }

  /** The score times connection time and round-trip weight gives the items delivered back. */
  lemma ScoreIsRate(p: PeerInfo, now: Time)
    ensures Score(p, now) * Burden(p, now) == p.itemsDelivered as real * SECOND as real * 100.0
  {
    var held, rtt := ConnectedFor(p, now) as real, RoundTrip(p);
    var rate := p.itemsDelivered as real / Elapsed(p, now);
    var factor := if p.rttMs.Some? then 1.0 / (1.0 + p.rttMs.value / 100.0) else 0.5;
    ScoreSplits(p, now);
    ElapsedIsConnectedFor(p, now);
    RateTimesTime(p.itemsDelivered as real, held);
    FactorIsInverse(rtt);
    ProductOf(rate, factor, held, 100.0 + rtt, p.itemsDelivered as real * SECOND as real, 100.0);
  }

  /** The first product is the larger. */
  predicate More(a: real, b: real, c: real, d: real) { a * b > c * d }

  lemma CompareProducts(x: real, y: real, z: real)
    requires z > 0.0
    ensures x * z > y * z <==> x > y
  {
    if x > y {
      assert (x - y) * z > 0.0;
    } else {
      assert (y - x) * z >= 0.0;
    }
  }

  lemma CompareQuotients(x: real, y: real, p: real, q: real, a: real, b: real, k: real)
    requires p > 0.0 && q > 0.0 && k > 0.0 && x * p == a * k && y * q == b * k
    ensures x > y <==> More(a, q, b, p)
  {
    assert p * q > 0.0;
    CompareProducts(x, y, p * q);
    assert x * (p * q) == (x * p) * q == (a * k) * q == (a * q) * k;
    assert y * (p * q) == (y * q) * p == (b * k) * p == (b * p) * k;
    CompareProducts(a * q, b * p, k);
  }

  /** One peer delivered more than another for the time and the round trips of both. */
  predicate Outweighs(p: PeerInfo, q: PeerInfo, now: Time) {
    More(p.itemsDelivered as real, Burden(q, now), q.itemsDelivered as real, Burden(p, now))
  }

  /** One peer outscores another if and only if it delivered more for the time and the round trips of both. */
  lemma OutscoresIff(p: PeerInfo, q: PeerInfo, now: Time)
    ensures Score(p, now) > Score(q, now) <==> Outweighs(p, q, now)
  {
    ScoreIsRate(p, now);
    ScoreIsRate(q, now);
    var k := SECOND as real * 100.0;
    var a, b := p.itemsDelivered as real, q.itemsDelivered as real;
    assert a * SECOND as real * 100.0 == a * k && b * SECOND as real * 100.0 == b * k;
    CompareQuotients(Score(p, now), Score(q, now), Burden(p, now), Burden(q, now), a, b, k);
  }

  lemma CompareWeighted(n: real, m: real, a: real, b: real, h: real, x: real, y: real)
    requires n == m >= 0.0 && h > 0.0 && a == h * x && b == h * y
    ensures More(n, a, m, b) <==> n > 0.0 && x > y
  {
    if n > 0.0 {
      assert n * h > 0.0;
      CompareProducts(x, y, n * h);
      assert n * (h * x) == x * (n * h) && n * (h * y) == y * (n * h);
    }
  }

  lemma CompareEqual(n: real, m: real, a: real, b: real)
    requires a == b > 0.0
    ensures More(n, a, m, b) <==> n > m
  {
    CompareProducts(n, m, a);
  }

  lemma QuickerOutweighsIff(p: PeerInfo, q: PeerInfo, now: Time)
    requires p.itemsDelivered == q.itemsDelivered && p.connectedSince == q.connectedSince
    ensures Outweighs(p, q, now) <==> p.itemsDelivered > 0 && RoundTrip(p) < RoundTrip(q)
  {
    CompareWeighted(p.itemsDelivered as real, q.itemsDelivered as real, Burden(q, now), Burden(p, now),
      ConnectedFor(p, now) as real, 100.0 + RoundTrip(q), 100.0 + RoundTrip(p));
  }

  lemma BusierOutweighsIff(p: PeerInfo, q: PeerInfo, now: Time)
    requires p.connectedSince == q.connectedSince && RoundTrip(p) == RoundTrip(q)
    ensures Outweighs(p, q, now) <==> p.itemsDelivered > q.itemsDelivered
  {
    CompareEqual(p.itemsDelivered as real, q.itemsDelivered as real, Burden(q, now), Burden(p, now));
  }

  lemma NewerOutweighsIff(p: PeerInfo, q: PeerInfo, now: Time)
    requires p.itemsDelivered == q.itemsDelivered && RoundTrip(p) == RoundTrip(q)
    ensures Outweighs(p, q, now) <==> p.itemsDelivered > 0 && ConnectedFor(p, now) < ConnectedFor(q, now)
  {
    CompareWeighted(p.itemsDelivered as real, q.itemsDelivered as real, Burden(q, now), Burden(p, now),
      100.0 + RoundTrip(p), ConnectedFor(q, now) as real, ConnectedFor(p, now) as real);
  }

  /** Same items and connection time: the quicker peer scores higher, if there are items. */
  lemma QuickerOutscoresIff(p: PeerInfo, q: PeerInfo, now: Time)
    requires p.itemsDelivered == q.itemsDelivered && p.connectedSince == q.connectedSince
    ensures Score(p, now) > Score(q, now) <==> p.itemsDelivered > 0 && RoundTrip(p) < RoundTrip(q)
  {
    OutscoresIff(p, q, now);
    QuickerOutweighsIff(p, q, now);
  }

  /** Same connection time and round trip: the peer that delivered more scores higher. */
  lemma BusierOutscoresIff(p: PeerInfo, q: PeerInfo, now: Time)
    requires p.connectedSince == q.connectedSince && RoundTrip(p) == RoundTrip(q)
    ensures Score(p, now) > Score(q, now) <==> p.itemsDelivered > q.itemsDelivered
  {
    OutscoresIff(p, q, now);
    BusierOutweighsIff(p, q, now);
  }

  /**
    * Same items and round trip: the peer connected for less time scores higher; below a second that makes no
    * difference.
    */
  lemma NewerOutscoresIff(p: PeerInfo, q: PeerInfo, now: Time)
    requires p.itemsDelivered == q.itemsDelivered && RoundTrip(p) == RoundTrip(q)
    ensures Score(p, now) > Score(q, now) <==> p.itemsDelivered > 0 && ConnectedFor(p, now) < ConnectedFor(q, now)
  {
    OutscoresIff(p, q, now);
    NewerOutweighsIff(p, q, now);
  }

  // ---- Whom a tick touches -----------------------------------------------

  /** Whom each phase may touch. */
  predicate Names(now: Time, s: GovState, t: Trace) {
    && Elems(t.unbanned) == ExpiredBans(s.peers, now)
    && Elems(t.reaped) == Dead(AfterUnban(now, s, t), now)
    && Elems(t.promoted) <= EligibleWarm(now, AfterReap(now, s, t))
    && Elems(t.demoted) <= Hots(AfterPromote(now, s, t))
    && Elems(t.churned) <= Warms(AfterDemote(now, s, t))
    && Elems(t.evicted) <= Colds(AfterChurn(now, s, t))
  }

  lemma TickNames(cfg: Config, now: Time, s: GovState, t: Trace, s': GovState, acts: Actions)
    requires Ticked(cfg, now, s, t, s', acts)
    ensures Names(now, s, t) && s'.peers == AfterChurn(now, s, t) - Elems(t.evicted)
    ensures Elems(t.dialled) <= ColdDialable(cfg, AfterReap(now, s, t))
    ensures Elems(t.redialled) <= ColdDialable(cfg, AfterChurn(now, s, t))
  {
  }

  // ---- Whom a tick promotes ----------------------------------------------

  /** Warm, heard from lately, and not demoted lately. */
  predicate Ready(p: PeerInfo, now: Time) {
    && p.state.Warm? && Since(now, p.lastActivity) <= 90 * SECOND
    && (p.demotedAt.Some? ==> Since(now, p.demotedAt.value) > 90 * SECOND)
  }

  /** The first two phases leave a ready peer alone, and make none ready. */
  lemma ReadyBeforePromotion(now: Time, peers: PeerMap, unbanned: set<NodeId>, reaped: set<NodeId>, id: NodeId)
    requires unbanned == ExpiredBans(peers, now) && reaped == Dead(After(Unban, now, peers, unbanned), now)
    ensures var later := After(Reap, now, After(Unban, now, peers, unbanned), reaped);
            && (id in EligibleWarm(now, later) <==> id in peers && Ready(peers[id], now))
            && (id in peers && Ready(peers[id], now) ==> later[id] == peers[id])
  {
  }

  /** The peers up for promotion are those ready before the tick, and the tick has not touched them yet. */
  lemma ReadyIsEligible(cfg: Config, now: Time, s: GovState, t: Trace, s': GovState, acts: Actions, id: NodeId)
    requires Ticked(cfg, now, s, t, s', acts)
    ensures id in EligibleWarm(now, AfterReap(now, s, t)) <==> id in s.peers && Ready(s.peers[id], now)
    ensures id in s.peers && Ready(s.peers[id], now) ==> AfterReap(now, s, t)[id] == s.peers[id]
  {
    ReadyBeforePromotion(now, s.peers, Elems(t.unbanned), Elems(t.reaped), id);
  }

  /**
    * A promoted peer was ready, and no ready peer that is passed over outscores it. So if the two differ only in round
    * trip, items or connection time, the promoted one is not the slower, the idler or the longer connected.
    */
  lemma PromotionPrefersBetter(cfg: Config, now: Time, s: GovState, t: Trace, s': GovState, acts: Actions, a: NodeId,
                               b: NodeId)
    requires Ticked(cfg, now, s, t, s', acts) && a in t.promoted
    requires b in s.peers && Ready(s.peers[b], now) && b !in t.promoted
    ensures a in s.peers && Ready(s.peers[a], now)
    ensures var p, q := s.peers[a], s.peers[b];
            && (p.itemsDelivered == q.itemsDelivered > 0 && p.connectedSince == q.connectedSince ==>
                  RoundTrip(p) <= RoundTrip(q))
            && (p.connectedSince == q.connectedSince && RoundTrip(p) == RoundTrip(q) ==>
                  p.itemsDelivered >= q.itemsDelivered)
            && (p.itemsDelivered == q.itemsDelivered > 0 && RoundTrip(p) == RoundTrip(q) ==>
                  ConnectedFor(p, now) <= ConnectedFor(q, now))
  {
    PromotedOutscores(cfg, now, s, t, s', acts, a, b);
    NotWorse(s.peers[a], s.peers[b], now);
  }

  lemma PromotedOutscores(cfg: Config, now: Time, s: GovState, t: Trace, s': GovState, acts: Actions, a: NodeId,
                          b: NodeId)
    requires Ticked(cfg, now, s, t, s', acts) && a in t.promoted
    requires b in s.peers && Ready(s.peers[b], now) && b !in t.promoted
    ensures a in s.peers && Ready(s.peers[a], now) && Score(s.peers[b], now) <= Score(s.peers[a], now)
  {
    var peers := AfterReap(now, s, t);
    ReadyIsEligible(cfg, now, s, t, s', acts, a);
    ReadyIsEligible(cfg, now, s, t, s', acts, b);
    assert a in Elems(t.promoted) && b !in Elems(t.promoted);
    assert Le(ScoreKeys(now, peers)[a], ScoreKeys(now, peers)[b]);
  }

  lemma NotWorse(p: PeerInfo, q: PeerInfo, now: Time)
    requires Score(q, now) <= Score(p, now)
    ensures p.itemsDelivered == q.itemsDelivered > 0 && p.connectedSince == q.connectedSince ==>
              RoundTrip(p) <= RoundTrip(q)
    ensures p.connectedSince == q.connectedSince && RoundTrip(p) == RoundTrip(q) ==>
              p.itemsDelivered >= q.itemsDelivered
    ensures p.itemsDelivered == q.itemsDelivered > 0 && RoundTrip(p) == RoundTrip(q) ==>
              ConnectedFor(p, now) <= ConnectedFor(q, now)
  {
    if p.itemsDelivered == q.itemsDelivered && p.connectedSince == q.connectedSince {
      QuickerOutscoresIff(q, p, now);
    }
    if p.connectedSince == q.connectedSince && RoundTrip(p) == RoundTrip(q) {
      BusierOutscoresIff(q, p, now);
    }
    if p.itemsDelivered == q.itemsDelivered && RoundTrip(p) == RoundTrip(q) {
      NewerOutscoresIff(q, p, now);
    }
  }

  /** Hot, and heard from lately. */
  predicate KeepsHot(p: PeerInfo, now: Time) { p.state.Hot? && Since(now, p.lastActivity) <= 90 * SECOND }

  lemma HotAfterReap(now: Time, peers: PeerMap, unbanned: set<NodeId>, reaped: set<NodeId>, id: NodeId)
    requires unbanned == ExpiredBans(peers, now) && reaped == Dead(After(Unban, now, peers, unbanned), now)
    ensures var later := After(Reap, now, After(Unban, now, peers, unbanned), reaped);
            && (id in Hots(later) <==> id in peers && KeepsHot(peers[id], now))
            && (id in peers && KeepsHot(peers[id], now) ==> later[id] == peers[id])
  {
  }

  /** Some ready peer outweighs some peer that keeps hot. */
  ghost predicate Challenged(peers: PeerMap, now: Time) {
    exists w, h :: w in peers && h in peers && Ready(peers[w], now) && KeepsHot(peers[h], now)
                   && Outweighs(peers[w], peers[h], now)
  }

  lemma ChallengedIff(now: Time, s: GovState, t: Trace)
    requires Elems(t.unbanned) == ExpiredBans(s.peers, now) && Elems(t.reaped) == Dead(AfterUnban(now, s, t), now)
    ensures SomeWarmBeatsAHot(now, AfterReap(now, s, t)) <==> Challenged(s.peers, now)
  {
    var later := AfterReap(now, s, t);
    forall id
      ensures id in EligibleWarm(now, later) <==> id in s.peers && Ready(s.peers[id], now)
      ensures id in s.peers && Ready(s.peers[id], now) ==> later[id] == s.peers[id]
      ensures id in Hots(later) <==> id in s.peers && KeepsHot(s.peers[id], now)
      ensures id in s.peers && KeepsHot(s.peers[id], now) ==> later[id] == s.peers[id]
    {
      ReadyBeforePromotion(now, s.peers, Elems(t.unbanned), Elems(t.reaped), id);
      HotAfterReap(now, s.peers, Elems(t.unbanned), Elems(t.reaped), id);
    }
    forall w, h | w in EligibleWarm(now, later) && h in Hots(later)
      ensures Score(later[w], now) > Score(later[h], now) <==> Outweighs(s.peers[w], s.peers[h], now)
    {
      OutscoresIff(s.peers[w], s.peers[h], now);
    }
  }

  /**
    * With the minimum of hot peers kept, a tick promotes at most one more, and it does so if and only if there is room
    * and some ready peer outweighs some hot one.
    */
  lemma ChallengerIsPromotedIff(cfg: Config, now: Time, s: GovState, t: Trace, s': GovState, acts: Actions)
    requires Ticked(cfg, now, s, t, s', acts) && |Hots(AfterReap(now, s, t))| >= cfg.targets.hotMin
    ensures |t.promoted| <= 1
    ensures t.promoted != [] <==> |Hots(AfterReap(now, s, t))| < cfg.targets.hotMax && Challenged(s.peers, now)
  {
    ChallengedIff(now, s, t);
    PromotesOneIff(cfg, now, AfterReap(now, s, t), t.promoted);
  }

  lemma PromotesOneIff(cfg: Config, now: Time, peers: PeerMap, promoted: seq<NodeId>)
    requires PromoteSpec(cfg, now, peers, promoted) && |Hots(peers)| >= cfg.targets.hotMin
    ensures |promoted| <= 1
    ensures promoted != [] <==> |Hots(peers)| < cfg.targets.hotMax && SomeWarmBeatsAHot(now, peers)
  {
    NoDupCardinality(promoted);
    if SomeWarmBeatsAHot(now, peers) {
      var w, h :| w in EligibleWarm(now, peers) && h in Hots(peers) && Score(peers[w], now) > Score(peers[h], now);
      SubsetCardinality({w}, EligibleWarm(now, peers));
    }
  }

  // ---- Whom a tick demotes -----------------------------------------------

  lemma SameScore(p: PeerInfo, q: PeerInfo, now: Time)
    requires p.itemsDelivered == q.itemsDelivered && p.connectedSince == q.connectedSince && p.rttMs == q.rttMs
    ensures Score(p, now) == Score(q, now)
  {
  }

  /**
    * A peer that is hot when the demotions start is one that kept hot or was ready, with its record of before the tick.
    */
  lemma HotBeforeDemotion(now: Time, s: GovState, t: Trace, id: NodeId)
    requires Names(now, s, t) && id in Hots(AfterPromote(now, s, t))
    ensures id in s.peers && (KeepsHot(s.peers[id], now) || Ready(s.peers[id], now))
    ensures AfterReap(now, s, t)[id] == s.peers[id]
  {
    HotAfterReap(now, s.peers, Elems(t.unbanned), Elems(t.reaped), id);
    ReadyBeforePromotion(now, s.peers, Elems(t.unbanned), Elems(t.reaped), id);
    if id !in Elems(t.promoted) {
      assert id in Hots(AfterReap(now, s, t));
    }
  }

  lemma ScoreBeforeDemotion(now: Time, s: GovState, t: Trace, id: NodeId)
    requires Names(now, s, t) && id in Hots(AfterPromote(now, s, t))
    ensures id in s.peers && Score(AfterPromote(now, s, t)[id], now) == Score(s.peers[id], now)
    ensures Since(now, AfterPromote(now, s, t)[id].lastActivity) <= DEAD_TIMEOUT
  {
    HotBeforeDemotion(now, s, t, id);
    SameScore(s.peers[id], AfterPromote(now, s, t)[id], now);
  }

  /** Idle for more than six hours. */
  predicate Stale(p: PeerInfo, now: Time) { Since(now, p.lastActivity) > 6 * 3600 * SECOND }

  /** Demotion on its own, whatever the phases before it leave: the stale go first, and among equals the worst. */
  lemma WorstFirst(cfg: Config, now: Time, peers: PeerMap, demoted: seq<NodeId>, a: NodeId, b: NodeId)
    requires DemoteSpec(cfg, now, peers, demoted) && a in Elems(demoted) && b in Hots(peers) && b !in Elems(demoted)
    ensures a in Hots(peers) && (Stale(peers[b], now) ==> Stale(peers[a], now))
    ensures (Stale(peers[a], now) <==> Stale(peers[b], now)) ==> Score(peers[a], now) <= Score(peers[b], now)
  {
    assert Le(StaleKeys(now, peers)[a], StaleKeys(now, peers)[b]);
  }

  /** No demoted peer outweighs a hot one that stays hot. */
  lemma DemotedAreWorst(cfg: Config, now: Time, s: GovState, t: Trace, s': GovState, acts: Actions, a: NodeId,
                        b: NodeId)
    requires Ticked(cfg, now, s, t, s', acts) && a in t.demoted
    requires b in Hots(AfterPromote(now, s, t)) && b !in t.demoted
    ensures a in s.peers && b in s.peers && !Outweighs(s.peers[a], s.peers[b], now)
  {
    TickNames(cfg, now, s, t, s', acts);
    ScoreBeforeDemotion(now, s, t, b);
    WorstFirst(cfg, now, AfterPromote(now, s, t), t.demoted, a, b);
    ScoreBeforeDemotion(now, s, t, a);
    OutscoresIff(s.peers[a], s.peers[b], now);
  }

  // ---- Whom a tick dials -------------------------------------------------

  predicate SharesGroup(p: PeerInfo, groups: seq<GroupId>) {
    exists i, j :: 0 <= i < |p.groups| && 0 <= j < |groups| && p.groups[i] == groups[j]
  }

  /** The policy lets the peer be dialled: any peer, relays only, or the trusted ones only. */
  predicate Permitted(policy: DialPolicy, id: NodeId, p: PeerInfo) {
    && (policy.RelaysOnly? ==> p.isRelay)
    && (policy.TrustedOnly? ==> id in policy.trusted)
  }

  /** Cold, permitted, and not within the back-off of its last failure. */
  predicate Callable(policy: DialPolicy, id: NodeId, p: PeerInfo, now: Time) {
    && p.state.Cold? && Permitted(policy, id, p)
    && (p.lastDisconnected.Some? ==> Since(now, p.lastDisconnected.value) >= ReconnectBackoff(p.disconnectCount))
  }

  lemma CallableIff(cfg: Config, now: Time, peers: PeerMap, id: NodeId)
    requires WellKeyed(peers)
    ensures id in DialCandidates(cfg, now, peers) <==> id in peers && Callable(cfg.policy, id, peers[id], now)
  {
  }

  lemma SharesGroupIff(p: PeerInfo, groups: seq<GroupId>)
    ensures HasGroupOverlap(p, groups) <==> SharesGroup(p, groups)
  {
    if HasGroupOverlap(p, groups) {
      var g :| g in p.groups && g in groups;
      var i :| 0 <= i < |p.groups| && p.groups[i] == g;
      var j :| 0 <= j < |groups| && groups[j] == g;
      assert p.groups[i] == groups[j];
    }
    if SharesGroup(p, groups) {
      var i, j :| 0 <= i < |p.groups| && 0 <= j < |groups| && p.groups[i] == groups[j];
      assert p.groups[i] in p.groups && p.groups[i] in groups;
    }
  }

  lemma KeysStay(now: Time, s: GovState, t: Trace)
    requires WellKeyed(s.peers)
    ensures WellKeyed(AfterReap(now, s, t))
  {
  }

  /**
    * The peers a tick dials, apart from churn, are callable and as many as the warm maximum has room for, or all; and
    * those that share a group with us go first.
    */
  lemma DialsFriendsFirst(cfg: Config, now: Time, s: GovState, t: Trace, s': GovState, acts: Actions, a: NodeId)
    requires Ticked(cfg, now, s, t, s', acts) && WellKeyed(s.peers)
    ensures var peers := AfterReap(now, s, t);
            && (a in t.dialled ==> a in peers && Callable(cfg.policy, a, peers[a], now))
            && (a in peers && a !in t.dialled && Callable(cfg.policy, a, peers[a], now) ==>
                  |Actives(peers)| + |t.dialled| >= cfg.targets.warmMax)
            && (a in peers && a !in t.dialled && Callable(cfg.policy, a, peers[a], now)
                && SharesGroup(peers[a], cfg.ourGroups) ==>
                  forall b :: b in t.dialled ==> b in peers && SharesGroup(peers[b], cfg.ourGroups))
  {
    var peers := AfterReap(now, s, t);
    KeysStay(now, s, t);
    CallableIff(cfg, now, peers, a);
    NoDupCardinality(t.dialled);
    assert a in t.dialled <==> a in Elems(t.dialled);
    if a in peers && a !in t.dialled && Callable(cfg.policy, a, peers[a], now) {
      PassedOver(cfg, now, peers, t.dialled, a);
    }
  }

  /** What it means that a candidate was not dialled. */
  lemma PassedOver(cfg: Config, now: Time, peers: PeerMap, dialled: seq<NodeId>, a: NodeId)
    requires DialSpec(cfg, now, peers, dialled) && a in DialCandidates(cfg, now, peers) && a !in Elems(dialled)
    ensures |Actives(peers)| + |dialled| >= cfg.targets.warmMax
    ensures SharesGroup(peers[a], cfg.ourGroups) ==>
              forall b :: b in dialled ==> b in peers && SharesGroup(peers[b], cfg.ourGroups)
  {
    var pool := DialCandidates(cfg, now, peers);
    NoDupCardinality(dialled);
    StrictSubsetCardinality(Elems(dialled), pool, a);
    SharesGroupIff(peers[a], cfg.ourGroups);
    forall b | b in dialled
      ensures b in peers && (SharesGroup(peers[a], cfg.ourGroups) ==> SharesGroup(peers[b], cfg.ourGroups))
    {
      assert b in Elems(dialled);
      SharesGroupIff(peers[b], cfg.ourGroups);
      assert Le(OverlapKeys(cfg, peers)[b], OverlapKeys(cfg, peers)[a]);
    }
  }

  /** No phase changes a peer's name or its relay flag. */
  lemma FlagStays(now: Time, s: GovState, t: Trace, id: NodeId)
    ensures id in AfterChurn(now, s, t) <==> id in s.peers
    ensures id in s.peers ==> AfterChurn(now, s, t)[id].nodeId == s.peers[id].nodeId
    ensures id in s.peers ==> AfterChurn(now, s, t)[id].isRelay == s.peers[id].isRelay
  {
  }

  /** Churn, too, dials permitted peers only, and only peers that are cold by then. */
  lemma RedialsArePermitted(cfg: Config, now: Time, s: GovState, t: Trace, s': GovState, acts: Actions, id: NodeId)
    requires Ticked(cfg, now, s, t, s', acts) && WellKeyed(s.peers) && id in t.redialled
    ensures id in s.peers && Permitted(cfg.policy, id, s.peers[id]) && AfterChurn(now, s, t)[id].state.Cold?
  {
    TickNames(cfg, now, s, t, s', acts);
    FlagStays(now, s, t, id);
    assert id in Elems(t.redialled);
  }

  // ---- Churn -------------------------------------------------------------

  /** The churn count is the product of warm peers and fraction, rounded up; none for a negative fraction. */
  lemma ChurnCountIsCeiling(warm: nat, fraction: real)
    ensures var n, product := ChurnCount(warm, fraction), warm as real * fraction;
            (product <= 0.0 ==> n == 0) && (product > 0.0 ==> n as real - 1.0 < product <= n as real)
  {
  }

  /** A tick churns only after the interval and if there is a cold peer, and then the counted number of warm ones. */
  lemma ChurnsWhenDue(cfg: Config, now: Time, s: GovState, t: Trace, s': GovState, acts: Actions)
    requires Ticked(cfg, now, s, t, s', acts)
    ensures var peers := AfterDemote(now, s, t);
            var count := ChurnCount(|Warms(peers)|, cfg.targets.churnFraction);
            && (Since(now, s.lastChurn) < cfg.targets.churnInterval ==>
                  t.churned == t.redialled == [] && s'.lastChurn == s.lastChurn)
            && (Since(now, s.lastChurn) >= cfg.targets.churnInterval ==>
                  && s'.lastChurn == now
                  && |t.churned| == (if Colds(peers) == {} then 0 else Min(count, |Warms(peers)|))
                  && |t.redialled| ==
                     (if Colds(peers) == {} then 0 else Min(count, |ColdDialable(cfg, AfterChurn(now, s, t))|)))
  {
  }

  // ---- Bans --------------------------------------------------------------

  /** A tick leaves a banned peer as it is until its time is up, and no longer. */
  lemma BansLast(cfg: Config, now: Time, s: GovState, t: Trace, s': GovState, acts: Actions, id: NodeId)
    requires Ticked(cfg, now, s, t, s', acts) && id in s.peers && s.peers[id].state.Banned?
    ensures s.peers[id].state.until > now ==> id in s'.peers && s'.peers[id] == s.peers[id]
    ensures s.peers[id].state.until <= now ==> (id in s'.peers ==> s'.peers[id].state.Cold?)
    ensures s.peers[id].state.until > now ==> id !in t.dialled && id !in t.redialled
  {
    TickNames(cfg, now, s, t, s', acts);
    BannedIsUntouched(now, s, t, id);
    assert id in t.dialled <==> id in Elems(t.dialled);
    assert id in t.redialled <==> id in Elems(t.redialled);
  }

  lemma BannedIsUntouched(now: Time, s: GovState, t: Trace, id: NodeId)
    requires Names(now, s, t) && id in s.peers && s.peers[id].state.Banned?
    ensures var p := if s.peers[id].state.until <= now then s.peers[id].(state := Cold) else s.peers[id];
            && AfterUnban(now, s, t)[id] == AfterReap(now, s, t)[id] == p
            && AfterPromote(now, s, t)[id] == AfterDemote(now, s, t)[id] == AfterChurn(now, s, t)[id] == p
  {
  }
}
