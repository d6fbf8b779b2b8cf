/**
  * What flooding achieves: once nothing is in flight, every peer of a relay has what the relay has, but for the ids at
  * risk.
  */
module FloodCoverage {
  import opened Collections
  import opened Replication
  import opened Flood

  /** The versions that exist in the system: id, checksum and timestamp. */
  datatype Seen = Seen(id: string, checksum: string, updatedAt: Timestamp)

  /** A row of the older version makes the item a duplicate, for the checksum is the same. */
  predicate Hides(w: Seen, x: Item) { w.id == x.id && w.checksum == x.checksum && w.updatedAt < x.updatedAt }

  /**
    * An item that takes effect is one of the versions; unless its id is set aside it is no tombstone, and no version
    * hides it.
    */
  predicate Wellformed(h: Hash, seen: set<Seen>, aside: set<string>, x: Item) {
    Effective(h, x) ==>
      if x.itemType == TOMBSTONE then x.id in aside
      else Seen(x.id, x.checksum, x.updatedAt) in seen && (x.id !in aside ==> forall w :: w in seen ==> !Hides(w, x))
  }

  predicate AllWellformed(h: Hash, seen: set<Seen>, aside: set<string>, xs: seq<Item>) {
    forall x :: x in xs ==> Wellformed(h, seen, aside, x)
  }

  predicate RowsSeen(seen: set<Seen>, s: Store) {
    forall id :: id in s ==> s[id].checksum.Some? && Seen(id, s[id].checksum.value, s[id].updatedAt) in seen
  }

  /** Outside the ids set aside `later` has the rows of `earlier`, each at least as new. */
  predicate AtLeastOutside(aside: set<string>, later: Store, earlier: Store) {
    forall id :: id in earlier && id !in aside ==> id in later && later[id].updatedAt >= earlier[id].updatedAt
  }

  // ---- Receiving one batch -----------------------------------------------

  lemma ReceiptKeepsSeen(h: Hash, policy: Acceptance, seen: set<Seen>, aside: set<string>, s: Store, x: Item)
    requires RowsSeen(seen, s) && Wellformed(h, seen, aside, x)
    ensures RowsSeen(seen, Receive(h, policy, s, x).0) && AtLeastOutside(aside, Receive(h, policy, s, x).0, s)
  {
  }

  lemma {:induction false} BatchKeepsSeen(h: Hash, policy: Acceptance, seen: set<Seen>, aside: set<string>, s: Store,
                                          xs: seq<Item>)
    requires RowsSeen(seen, s) && AllWellformed(h, seen, aside, xs)
    ensures RowsSeen(seen, ReceiveAll(h, policy, s, xs)) && AtLeastOutside(aside, ReceiveAll(h, policy, s, xs), s)
    decreases |xs|
  {
    if xs != [] {
      var init, last := xs[..|xs| - 1], xs[|xs| - 1];
      assert forall x :: x in init ==> x in xs;
      BatchKeepsSeen(h, policy, seen, aside, s, init);
      assert Wellformed(h, seen, aside, last);
      ReceiptKeepsSeen(h, policy, seen, aside, ReceiveAll(h, policy, s, init), last);
    }
  }

  lemma ReceiptHolds(h: Hash, policy: Acceptance, seen: set<Seen>, aside: set<string>, s: Store, x: Item)
    requires RowsSeen(seen, s) && Wellformed(h, seen, aside, x) && policy.Accepts(x.group)
    requires Lives(h, aside, x)
    ensures HoldsAtLeast(Receive(h, policy, s, x).0, x.id, x.updatedAt)
  {
    if x.id in s && s[x.id].checksum == Some(x.checksum) {
      assert Seen(x.id, x.checksum, s[x.id].updatedAt) in seen;
    }
  }

  /** A version that takes effect, of an id not set aside. */
  predicate Lives(h: Hash, aside: set<string>, x: Item) { x.itemType != TOMBSTONE && Effective(h, x) && x.id !in aside }

  /** After a batch, every accepted version of it that takes effect is held, or a newer one is. */
  lemma {:induction false} BatchHolds(h: Hash, policy: Acceptance, seen: set<Seen>, aside: set<string>, s: Store,
                                      xs: seq<Item>, x: Item)
    requires RowsSeen(seen, s) && AllWellformed(h, seen, aside, xs)
    requires x in xs && Lives(h, aside, x) && policy.Accepts(x.group)
    ensures HoldsAtLeast(ReceiveAll(h, policy, s, xs), x.id, x.updatedAt)
    decreases |xs|
  {
    var init, last := xs[..|xs| - 1], xs[|xs| - 1];
    assert forall y :: y in init ==> y in xs;
    assert Wellformed(h, seen, aside, last);
    var mid := ReceiveAll(h, policy, s, init);
    BatchKeepsSeen(h, policy, seen, aside, s, init);
    ReceiptKeepsSeen(h, policy, seen, aside, mid, last);
    if x == last {
      ReceiptHolds(h, policy, seen, aside, mid, last);
    } else {
      assert xs == init + [last];
      BatchHolds(h, policy, seen, aside, s, init, x);
    }
  }

  /** A row found after a batch was there before, or is an item of the batch. */
  lemma {:induction false} BatchRowOrigin(h: Hash, policy: Acceptance, s: Store, xs: seq<Item>, id: string)
    requires id in ReceiveAll(h, policy, s, xs)
    ensures var r := ReceiveAll(h, policy, s, xs);
            (id in s && r[id] == s[id]) || exists x :: x in xs && Lives(h, {}, x) && x.id == id && r[id] == RowOf(h, x)
    decreases |xs|
  {
    if xs == [] {
    } else {
      var init, last := xs[..|xs| - 1], xs[|xs| - 1];
      assert xs == init + [last];
      var mid := ReceiveAll(h, policy, s, init);
      if id in mid && ReceiveAll(h, policy, s, xs)[id] == mid[id] {
        BatchRowOrigin(h, policy, s, init, id);
      } else {
        assert last in xs;
      }
    }
  }

  // ---- The invariant -----------------------------------------------------

  /** `p` rejects the group, holds the version or a newer one, or has one on its way. */
  ghost predicate Served(h: Hash, topo: Topology, s: NetState, p: NodeId, group: string, id: string, t: Timestamp)
    requires p in topo && p in s.stores
  {
    topo[p].policy.Accepts(group) ==> HoldsAtLeast(s.stores[p], id, t) || EnRoute(h, topo, s, p, id, t)
  }

  ghost predicate EnRoute(h: Hash, topo: Topology, s: NetState, p: NodeId, id: string, t: Timestamp)
    requires p in topo
  {
    exists m, x :: m in s.inflight && x in m.items && m.to == p && Lives(h, {}, x) && x.id == id && x.updatedAt >= t
                   && topo[p].policy.Accepts(x.group)
  }

  /** Relay `r` holds a grouped row under `id`, which is not set aside. */
  predicate Keeps(aside: set<string>, topo: Topology, s: NetState, r: NodeId, id: string)
    requires Wellplaced(topo, s)
  {
    r in topo && topo[r].policy.Relay? && id in s.stores[r] && id !in aside && s.stores[r][id].group.Some?
  }

  /** Every grouped row of a relay is served to each of its peers. */
  ghost predicate RelaysServe(h: Hash, aside: set<string>, topo: Topology, s: NetState)
    requires Wellplaced(topo, s)
  {
    forall r, p, id :: Keeps(aside, topo, s, r, id) && p in topo[r].peers ==>
      Served(h, topo, s, p, s.stores[r][id].group.value, id, s.stores[r][id].updatedAt)
  }

  /** Every sender holds, or rejects, the versions it sent. */
  ghost predicate SendersHold(h: Hash, aside: set<string>, topo: Topology, s: NetState)
    requires Wellplaced(topo, s)
  {
    forall m, x ::
      && m in s.inflight && x in m.items && Lives(h, aside, x)
      && m.from in topo && topo[m.from].policy.Accepts(x.group)
      ==> HoldsAtLeast(s.stores[m.from], x.id, x.updatedAt)
  }

  ghost predicate VersionsKnown(h: Hash, seen: set<Seen>, aside: set<string>, topo: Topology, s: NetState)
    requires Wellplaced(topo, s)
  {
    && (forall n :: n in topo ==> RowsSeen(seen, s.stores[n]))
    && (forall m :: m in s.inflight ==> AllWellformed(h, seen, aside, m.items))
  }

  ghost predicate Inv(h: Hash, seen: set<Seen>, aside: set<string>, topo: Topology, s: NetState) {
    Wellplaced(topo, s) && VersionsKnown(h, seen, aside, topo, s) && RelaysServe(h, aside, topo, s)
      && SendersHold(h, aside, topo, s)
  }

  // ---- Each delivery keeps it --------------------------------------------

  /** All stores only move forward. */
  lemma DeliverRaises(h: Hash, seen: set<Seen>, aside: set<string>, topo: Topology, s: NetState, m: Push, n: NodeId)
    requires Inv(h, seen, aside, topo, s) && m in s.inflight && n in topo
    ensures AtLeastOutside(aside, Deliver(h, topo, s, m).stores[n], s.stores[n])
  {
    assert AllWellformed(h, seen, aside, m.items);
    BatchKeepsSeen(h, topo[m.to].policy, seen, aside, s.stores[m.to], m.items);
  }

  lemma DeliverKeepsVersions(h: Hash, seen: set<Seen>, aside: set<string>, topo: Topology, s: NetState, m: Push)
    requires Inv(h, seen, aside, topo, s) && m in s.inflight
    ensures Wellplaced(topo, Deliver(h, topo, s, m)) && VersionsKnown(h, seen, aside, topo, Deliver(h, topo, s, m))
  {
    DeliverWellplaced(h, topo, s, m);
    BatchKeepsSeen(h, topo[m.to].policy, seen, aside, s.stores[m.to], m.items);
    var s' := Deliver(h, topo, s, m);
    forall m' | m' in s'.inflight
      ensures AllWellformed(h, seen, aside, m'.items)
    {
      InflightOrigin(h, topo, s, m, m');
    }
  }

  lemma DeliverKeepsSenders(h: Hash, seen: set<Seen>, aside: set<string>, topo: Topology, s: NetState, m: Push)
    requires Inv(h, seen, aside, topo, s) && m in s.inflight
    ensures Wellplaced(topo, Deliver(h, topo, s, m)) && SendersHold(h, aside, topo, Deliver(h, topo, s, m))
  {
    DeliverWellplaced(h, topo, s, m);
    var s' := Deliver(h, topo, s, m);
    forall m', x | m' in s'.inflight && x in m'.items && Lives(h, aside, x) && m'.from in topo
      && topo[m'.from].policy.Accepts(x.group)
      ensures HoldsAtLeast(s'.stores[m'.from], x.id, x.updatedAt)
    {
      InflightOrigin(h, topo, s, m, m');
      if m' in s.inflight {
        DeliverRaises(h, seen, aside, topo, s, m, m'.from);
        assert HoldsAtLeast(s.stores[m'.from], x.id, x.updatedAt);
      } else {
        BatchHolds(h, topo[m.to].policy, seen, aside, s.stores[m.to], m.items, x);
      }
    }
  }

  /** A version served before the delivery is served after it. */
  lemma ServedStays(h: Hash, seen: set<Seen>, aside: set<string>, topo: Topology, s: NetState, m: Push, p: NodeId,
                    group: string, id: string, t: Timestamp)
    requires Inv(h, seen, aside, topo, s) && m in s.inflight
    requires p in topo && id !in aside && Served(h, topo, s, p, group, id, t)
    ensures Served(h, topo, Deliver(h, topo, s, m), p, group, id, t)
  {
    var s' := Deliver(h, topo, s, m);
    DeliverRaises(h, seen, aside, topo, s, m, p);
    if topo[p].policy.Accepts(group) && !HoldsAtLeast(s.stores[p], id, t) {
      var m', x :| m' in s.inflight && x in m'.items && m'.to == p && Lives(h, {}, x) && x.id == id && x.updatedAt >= t
                  && topo[p].policy.Accepts(x.group);
      if m' == m {
        BatchHolds(h, topo[p].policy, seen, aside, s.stores[p], m.items, x);
      } else {
        InflightRemains(h, topo, s, m, m');
        assert EnRoute(h, topo, s', p, id, t);
      }
    }
  }

  /**
    * A version the relay has just stored is served to each of its peers: re-pushed to all but the sender, who holds or
    * rejects it.
    */
  lemma NewRowServed(h: Hash, seen: set<Seen>, aside: set<string>, topo: Topology, s: NetState, m: Push, x: Item,
                     p: NodeId)
    requires Inv(h, seen, aside, topo, s) && m in s.inflight
    requires topo[m.to].policy.Relay? && StoredCount(h, topo[m.to].policy, s.stores[m.to], m.items) > 0
    requires x in m.items && Lives(h, aside, x) && p in topo[m.to].peers
    ensures Served(h, topo, Deliver(h, topo, s, m), p, x.group, x.id, x.updatedAt)
  {
    var s' := Deliver(h, topo, s, m);
    if p != m.from {
      var m' := Push(m.to, p, m.items);
      assert p in Targets(topo, m);
      assert m' in Forwards(topo, m);
      assert m' in s'.inflight;
      assert topo[p].policy.Accepts(x.group) ==> EnRoute(h, topo, s', p, x.id, x.updatedAt);
    } else {
      DeliverRaises(h, seen, aside, topo, s, m, p);
    }
  }

  lemma DeliverKeepsRelays(h: Hash, seen: set<Seen>, aside: set<string>, topo: Topology, s: NetState, m: Push)
    requires Inv(h, seen, aside, topo, s) && m in s.inflight
    ensures Wellplaced(topo, Deliver(h, topo, s, m)) && RelaysServe(h, aside, topo, Deliver(h, topo, s, m))
  {
    DeliverWellplaced(h, topo, s, m);
    var s' := Deliver(h, topo, s, m);
    forall r, p, id | Keeps(aside, topo, s', r, id) && p in topo[r].peers
      ensures Served(h, topo, s', p, s'.stores[r][id].group.value, id, s'.stores[r][id].updatedAt)
    {
      var row := s'.stores[r][id];
      if id in s.stores[r] && row == s.stores[r][id] {
        assert Keeps(aside, topo, s, r, id);
        ServedStays(h, seen, aside, topo, s, m, p, row.group.value, id, row.updatedAt);
      } else {
        assert r == m.to && AllWellformed(h, seen, aside, m.items);
        BatchRowOrigin(h, topo[r].policy, s.stores[r], m.items, id);
        var x :| x in m.items && Lives(h, {}, x) && x.id == id && row == RowOf(h, x);
        if StoredCount(h, topo[r].policy, s.stores[r], m.items) == 0 {
          NothingStoredNothingChanged(h, topo[r].policy, s.stores[r], m.items);
        }
        NewRowServed(h, seen, aside, topo, s, m, x, p);
      }
    }
  }

  lemma DeliverKeepsInv(h: Hash, seen: set<Seen>, aside: set<string>, topo: Topology, s: NetState, m: Push)
    requires Inv(h, seen, aside, topo, s) && m in s.inflight
    ensures Inv(h, seen, aside, topo, Deliver(h, topo, s, m))
  {
    DeliverKeepsVersions(h, seen, aside, topo, s, m);
    DeliverKeepsSenders(h, seen, aside, topo, s, m);
    DeliverKeepsRelays(h, seen, aside, topo, s, m);
  }

  lemma RunKeepsInv(h: Hash, seen: set<Seen>, aside: set<string>, topo: Topology, states: seq<NetState>,
                    msgs: seq<Push>, n: nat)
    requires IsRun(h, topo, states, msgs) && n <= |msgs|
    requires Inv(h, seen, aside, topo, states[0])
    ensures Inv(h, seen, aside, topo, states[n])
  {
    for i := 0 to n
      invariant Inv(h, seen, aside, topo, states[i])
    {
      DeliverKeepsInv(h, seen, aside, topo, states[i], msgs[i]);
    }
  }

  // ---- Coverage ----------------------------------------------------------

  /** Every peer of a relay rejects the group of a version the relay holds, or holds a version at least as new. */
  ghost predicate Covers(aside: set<string>, topo: Topology, s: NetState)
    requires Wellplaced(topo, s)
  {
    forall r, p, id ::
      && Keeps(aside, topo, s, r, id) && p in topo[r].peers
      && topo[p].policy.Accepts(s.stores[r][id].group.value)
      ==> HoldsAtLeast(s.stores[p], id, s.stores[r][id].updatedAt)
  }

  /** Once no push is in flight, the flood has covered every relay's neighbourhood. */
  lemma FloodCovers(h: Hash, seen: set<Seen>, aside: set<string>, topo: Topology, states: seq<NetState>,
                    msgs: seq<Push>)
    requires IsRun(h, topo, states, msgs) && Inv(h, seen, aside, topo, states[0])
    requires states[|msgs|].inflight == multiset{}
    ensures Covers(aside, topo, states[|msgs|])
  {
    RunKeepsInv(h, seen, aside, topo, states, msgs, |msgs|);
    var s := states[|msgs|];
    forall r, p, id | Keeps(aside, topo, s, r, id) && p in topo[r].peers
      && topo[p].policy.Accepts(s.stores[r][id].group.value)
      ensures HoldsAtLeast(s.stores[p], id, s.stores[r][id].updatedAt)
    {
      assert Served(h, topo, s, p, s.stores[r][id].group.value, id, s.stores[r][id].updatedAt);
    }
  }

  /** Relays, each a peer of the one before, that keep `id` in group `g` and take that group. */
  ghost predicate RelayPath(topo: Topology, s: NetState, path: seq<NodeId>, id: string, g: string)
    requires Wellplaced(topo, s)
  {
    && path != []
    && (forall i :: 0 <= i < |path| ==>
          && path[i] in topo && topo[path[i]].policy.Relay? && topo[path[i]].policy.Accepts(g)
          && (id in s.stores[path[i]] ==> s.stores[path[i]][id].group == Some(g)))
    && (forall i :: 0 <= i < |path| - 1 ==> path[i + 1] in topo[path[i]].peers)
  }

  lemma {:induction false} CoverageTravels(aside: set<string>, topo: Topology, s: NetState, path: seq<NodeId>,
                                           id: string, g: string, n: nat)
    requires Wellplaced(topo, s) && Covers(aside, topo, s) && RelayPath(topo, s, path, id, g) && n < |path|
             && id !in aside
    requires id in s.stores[path[0]]
    ensures HoldsAtLeast(s.stores[path[n]], id, s.stores[path[0]][id].updatedAt)
    decreases n
  {
    if n == 0 {
    } else {
      CoverageTravels(aside, topo, s, path, id, g, n - 1);
      assert path[n - 1 + 1] in topo[path[n - 1]].peers && Keeps(aside, topo, s, path[n - 1], id);
    }
  }

  /** Two relays joined by relay paths both ways hold versions of the same date. */
  lemma ConnectedRelaysAgree(aside: set<string>, topo: Topology, s: NetState, there: seq<NodeId>, back: seq<NodeId>,
                             id: string, g: string)
    requires Wellplaced(topo, s) && Covers(aside, topo, s) && id !in aside
    requires RelayPath(topo, s, there, id, g) && RelayPath(topo, s, back, id, g)
    requires there[|there| - 1] == back[0] && back[|back| - 1] == there[0]
    ensures id in s.stores[there[0]] <==> id in s.stores[back[0]]
    ensures id in s.stores[there[0]] ==> s.stores[there[0]][id].updatedAt == s.stores[back[0]][id].updatedAt
  {
    if id in s.stores[there[0]] {
      CoverageTravels(aside, topo, s, there, id, g, |there| - 1);
    }
    if id in s.stores[back[0]] {
      CoverageTravels(aside, topo, s, back, id, g, |back| - 1);
    }
  }

  // ---- Exactly which ids are covered -------------------------------------

  /** The ids a tombstone among the items deletes. */
  function Graves(h: Hash, carried: set<Item>): set<string> {
    set x | x in carried && x.itemType == TOMBSTONE && Effective(h, x) :: x.id
  }

  /** The versions that exist: those held at the start and those carried. */
  function Exist(h: Hash, carried: set<Item>, held: set<Seen>): set<Seen> {
    held + set x | x in carried && Lives(h, {}, x) :: Seen(x.id, x.checksum, x.updatedAt)
  }

  /** The ids of which an item is carried that some version hides. */
  function Hidden(h: Hash, carried: set<Item>, held: set<Seen>): set<string> {
    set x, w | x in carried && w in Exist(h, carried, held) && Lives(h, {}, x) && Hides(w, x) :: x.id
  }

  /**
    * The ids with a version, and with a carried tombstone that takes effect or a carried item that some version hides.
    */
  function AtRisk(h: Hash, carried: set<Item>, held: set<Seen>): set<string> {
    Hidden(h, carried, held) + set w | w in Exist(h, carried, held) && w.id in Graves(h, carried) :: w.id
  }

  /**
    * A finished flood of these items. At the start the stores hold versions that exist, and relays and senders are in
    * order, except for the spared ids.
    */
  ghost predicate Flooded(h: Hash, carried: set<Item>, held: set<Seen>, spared: set<string>, topo: Topology,
                          states: seq<NetState>, msgs: seq<Push>) {
    && IsRun(h, topo, states, msgs) && CarriesOnly(carried, states[0]) && states[|msgs|].inflight == multiset{}
    && (forall n :: n in topo ==> RowsSeen(Exist(h, carried, held), states[0].stores[n]))
    && RelaysServe(h, spared, topo, states[0]) && SendersHold(h, spared, topo, states[0])
  }

  /** Peers of a relay that holds the id, and accept its group, hold a version at least as new. */
  ghost predicate Covered(topo: Topology, s: NetState, id: string)
    requires Wellplaced(topo, s)
  {
    forall r, p ::
      && Keeps({}, topo, s, r, id) && p in topo[r].peers
      && topo[p].policy.Accepts(s.stores[r][id].group.value)
      ==> HoldsAtLeast(s.stores[p], id, s.stores[r][id].updatedAt)
  }

  ghost predicate AlwaysCovered(h: Hash, carried: set<Item>, held: set<Seen>, spared: set<string>, id: string) {
    forall topo, states, msgs :: Flooded(h, carried, held, spared, topo, states, msgs) ==>
      Covered(topo, states[|msgs|], id)
  }

  /** The ids the invariant leaves out. */
  function Aside(h: Hash, carried: set<Item>, held: set<Seen>, spared: set<string>): set<string> {
    spared + Graves(h, carried) + Hidden(h, carried, held)
  }

  lemma CarriedIsWellformed(h: Hash, carried: set<Item>, held: set<Seen>, spared: set<string>, x: Item)
    requires x in carried
    ensures Wellformed(h, Exist(h, carried, held), Aside(h, carried, held, spared), x)
  {
  }

  lemma FloodStarts(h: Hash, carried: set<Item>, held: set<Seen>, spared: set<string>, topo: Topology,
                    states: seq<NetState>, msgs: seq<Push>)
    requires Flooded(h, carried, held, spared, topo, states, msgs)
    ensures Inv(h, Exist(h, carried, held), Aside(h, carried, held, spared), topo, states[0])
  {
    var seen, aside, s := Exist(h, carried, held), Aside(h, carried, held, spared), states[0];
    forall m | m in s.inflight
      ensures AllWellformed(h, seen, aside, m.items)
    {
      forall x | x in m.items
        ensures Wellformed(h, seen, aside, x)
      {
        CarriedIsWellformed(h, carried, held, spared, x);
      }
    }
    assert forall r, id :: Keeps(aside, topo, s, r, id) ==> Keeps(spared, topo, s, r, id);
    assert forall x :: Lives(h, aside, x) ==> Lives(h, spared, x);
  }

  /** A deleted id without any version has no row anywhere. */
  lemma RowsAreLive(h: Hash, carried: set<Item>, held: set<Seen>, spared: set<string>, s: Store, id: string)
    requires RowsSeen(Exist(h, carried, held), s) && id in s && id !in AtRisk(h, carried, held) && id !in spared
    ensures id !in Aside(h, carried, held, spared)
  {
    assert Seen(id, s[id].checksum.value, s[id].updatedAt) in Exist(h, carried, held);
  }

  lemma FloodCoversId(h: Hash, carried: set<Item>, held: set<Seen>, spared: set<string>, topo: Topology,
                      states: seq<NetState>, msgs: seq<Push>, id: string)
    requires Flooded(h, carried, held, spared, topo, states, msgs) && id !in AtRisk(h, carried, held) && id !in spared
    ensures Covered(topo, states[|msgs|], id)
  {
    var seen, aside, s := Exist(h, carried, held), Aside(h, carried, held, spared), states[|msgs|];
    FloodStarts(h, carried, held, spared, topo, states, msgs);
    RunKeepsInv(h, seen, aside, topo, states, msgs, |msgs|);
    FloodCovers(h, seen, aside, topo, states, msgs);
    forall r, p | Keeps({}, topo, s, r, id) && p in topo[r].peers && topo[p].policy.Accepts(s.stores[r][id].group.value)
      ensures HoldsAtLeast(s.stores[p], id, s.stores[r][id].updatedAt)
    {
      RowsAreLive(h, carried, held, spared, s.stores[r], id);
      assert Keeps(aside, topo, s, r, id);
    }
  }

  /** Per date, the versions of the id have one checksum. */
  predicate DatesTell(seen: set<Seen>, id: string) {
    forall v, w :: v in seen && w in seen && v.id == w.id == id && v.updatedAt == w.updatedAt ==>
      v.checksum == w.checksum
  }

  /**
    * After a flood, two relays joined by relay paths both ways hold the same version of an id that is not at risk: the
    * same date, and the same checksum too if a date tells it.
    */
  lemma FloodedRelaysAgree(h: Hash, carried: set<Item>, held: set<Seen>, spared: set<string>, topo: Topology,
                           states: seq<NetState>, msgs: seq<Push>, there: seq<NodeId>, back: seq<NodeId>, id: string,
                             g: string)
    requires Flooded(h, carried, held, spared, topo, states, msgs) && id !in AtRisk(h, carried, held) && id !in spared
    requires RelayPath(topo, states[|msgs|], there, id, g) && RelayPath(topo, states[|msgs|], back, id, g)
    requires there[|there| - 1] == back[0] && back[|back| - 1] == there[0]
    ensures var a, b := states[|msgs|].stores[there[0]], states[|msgs|].stores[back[0]];
            && (id in a <==> id in b)
            && (id in a ==> a[id].updatedAt == b[id].updatedAt)
            && (id in a && DatesTell(Exist(h, carried, held), id) ==> a[id].checksum == b[id].checksum)
  {
    var seen, aside, s := Exist(h, carried, held), Aside(h, carried, held, spared), states[|msgs|];
    FloodStarts(h, carried, held, spared, topo, states, msgs);
    RunKeepsInv(h, seen, aside, topo, states, msgs, |msgs|);
    FloodCovers(h, seen, aside, topo, states, msgs);
    var a, b := s.stores[there[0]], s.stores[back[0]];
    assert RowsSeen(seen, a) && RowsSeen(seen, b);
    if id in a {
      RowsAreLive(h, carried, held, spared, a, id);
      ConnectedRelaysAgree(aside, topo, s, there, back, id, g);
    } else if id in b {
      RowsAreLive(h, carried, held, spared, b, id);
      ConnectedRelaysAgree(aside, topo, s, there, back, id, g);
    }
  }
}
