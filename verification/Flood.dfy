/** Relay flooding: pushes in flight between nodes, where a relay re-pushes a batch that stored something. */
module Flood {
  import opened Collections
  import opened Era
  import opened Replication

  type NodeId = nat

  /** A node re-pushes exactly if it has a relay posture. */
  datatype Node = Node(policy: Acceptance, peers: set<NodeId>)

  type Topology = map<NodeId, Node>

  datatype Push = Push(from: NodeId, to: NodeId, items: seq<Item>)

  datatype NetState = NetState(stores: map<NodeId, Store>, inflight: multiset<Push>)

  // ---- One delivery ------------------------------------------------------

  function StoredCount(h: Hash, policy: Acceptance, s: Store, xs: seq<Item>): nat { Tally(h, policy, s, xs).stored }

  /** Receives a pushed batch item by item; the acknowledgement counts what was stored and what was rejected. */
  method HandlePush(storage: Storage, h: Hash, policy: Acceptance, items: seq<Item>)
    returns (stored: nat, rejected: nat)
    modifies storage`items, storage`accessLog
    ensures storage.items == ReceiveAll(h, policy, old(storage.items), items)
    ensures stored == Tally(h, policy, old(storage.items), items).stored
    ensures rejected == Tally(h, policy, old(storage.items), items).rejected
  {
    ghost var before := storage.items;
    stored, rejected := 0, 0;
    for i := 0 to |items|
      invariant storage.items == ReceiveAll(h, policy, before, items[..i])
      invariant stored == Tally(h, policy, before, items[..i]).stored
      invariant rejected == Tally(h, policy, before, items[..i]).rejected
    {
      assert items[..i + 1][..i] == items[..i];
      var outcome := storage.OnReceive(h, policy, items[i]);
      match outcome
      case Stored => stored := stored + 1;
      case Duplicate =>
      case Rejected(_) => rejected := rejected + 1;
    }
    assert items[..|items|] == items;
  }

  /** The re-push: the whole batch, to every peer but the sender. */
  function Targets(topo: Topology, m: Push): set<NodeId>
    requires m.to in topo
  {
    set p | p in topo[m.to].peers && p != m.from
  }

  function Forwards(topo: Topology, m: Push): set<Push>
    requires m.to in topo
  {
    set p | p in Targets(topo, m) :: Push(m.to, p, m.items)
  }

  predicate Wellplaced(topo: Topology, s: NetState) {
    && s.stores.Keys == topo.Keys
    && (forall n :: n in topo ==> topo[n].peers <= topo.Keys)
    && (forall m :: m in s.inflight ==> m.to in topo)
  }

  function Deliver(h: Hash, topo: Topology, s: NetState, m: Push): NetState
    requires Wellplaced(topo, s) && m in s.inflight
  {
    var policy, store := topo[m.to].policy, s.stores[m.to];
    NetState(s.stores[m.to := ReceiveAll(h, policy, store, m.items)],
             s.inflight - multiset{m}
             + (if policy.Relay? && StoredCount(h, policy, store, m.items) > 0 then multiset(Forwards(topo, m))
                else multiset{}))
  }

  lemma DeliverWellplaced(h: Hash, topo: Topology, s: NetState, m: Push)
    requires Wellplaced(topo, s) && m in s.inflight
    ensures Wellplaced(topo, Deliver(h, topo, s, m))
  {
  }

  /** `states` results from delivering `msgs` one after the other, each in flight when delivered. */
  ghost predicate IsRun(h: Hash, topo: Topology, states: seq<NetState>, msgs: seq<Push>) {
    && |states| == |msgs| + 1
    && (forall i :: 0 <= i < |states| ==> Wellplaced(topo, states[i]))
    && (forall i {:trigger msgs[i]} :: 0 <= i < |msgs| ==>
          msgs[i] in states[i].inflight && states[i + 1] == Deliver(h, topo, states[i], msgs[i]))
  }

  lemma RunExtends(h: Hash, topo: Topology, states: seq<NetState>, msgs: seq<Push>, m: Push, s': NetState)
    requires IsRun(h, topo, states, msgs) && m in states[|msgs|].inflight
    requires s' == Deliver(h, topo, states[|msgs|], m)
    ensures IsRun(h, topo, states + [s'], msgs + [m])
  {
    DeliverWellplaced(h, topo, states[|msgs|], m);
  }

  /** A push in flight after a delivery was in flight before, or is the re-push of the delivered batch. */
  lemma InflightOrigin(h: Hash, topo: Topology, s: NetState, m: Push, m': Push)
    requires Wellplaced(topo, s) && m in s.inflight && m' in Deliver(h, topo, s, m).inflight
    ensures m' in s.inflight || (m'.items == m.items && m'.from == m.to)
  {
    if m' !in s.inflight {
      assert m' in Forwards(topo, m);
    }
  }

  /** A push in flight before a delivery is still in flight, unless it is the delivered one. */
  lemma InflightRemains(h: Hash, topo: Topology, s: NetState, m: Push, m': Push)
    requires Wellplaced(topo, s) && m in s.inflight && m' in s.inflight && m' != m
    ensures m' in Deliver(h, topo, s, m).inflight
  {
  }

  // ---- What receiving a batch does ---------------------------------------

  predicate HoldsAtLeast(s: Store, id: string, t: Timestamp) {
    id in s && s[id].updatedAt >= t
  }

  lemma {:induction false} NothingStoredNothingChanged(h: Hash, policy: Acceptance, s: Store, xs: seq<Item>)
    requires StoredCount(h, policy, s, xs) == 0
    ensures ReceiveAll(h, policy, s, xs) == s
    decreases |xs|
  {
    if xs == [] {
    } else {
      NothingStoredNothingChanged(h, policy, s, xs[..|xs| - 1]);
    }
  }

  /**
    * Within the size limit, and either a tombstone or an item that matches its checksum: anything else is rejected
    * everywhere.
    */
  predicate Effective(h: Hash, x: Item) {
    |x.blob| <= MAX_ITEM_BYTES && (x.itemType == TOMBSTONE || h(x.blob) == x.checksum)
  }

  /** Receiving the item could change the store: a tombstone finds its row, a version is newer than its row. */
  predicate Open(s: Store, x: Item) {
    if x.itemType == TOMBSTONE then x.id in s else x.id in s ==> s[x.id].updatedAt < x.updatedAt
  }

  /** One is an item and the other a tombstone, of the same id, and both take effect. */
  predicate Clash(h: Hash, x: Item, y: Item) {
    x.id == y.id && (x.itemType == TOMBSTONE <==> y.itemType != TOMBSTONE) && Effective(h, x) && Effective(h, y)
  }

  /** No id is carried both ways. */
  predicate OneWay(h: Hash, carried: set<Item>) { forall x, y :: x in carried && y in carried ==> !Clash(h, x, y) }

  /** Storing an item closes it, and opens none it does not clash with. */
  lemma ReceiveCloses(h: Hash, policy: Acceptance, s: Store, x: Item)
    ensures var (s', o) := Receive(h, policy, s, x);
            && (o.Stored? ==> Effective(h, x) && Open(s, x) && !Open(s', x))
            && forall w :: Effective(h, w) && !Clash(h, x, w) && Open(s', w) ==> Open(s, w)
  {
  }

  lemma {:induction false} BatchOpensNothing(h: Hash, policy: Acceptance, carried: set<Item>, s: Store, xs: seq<Item>,
                                             w: Item)
    requires OneWay(h, carried) && Elems(xs) <= carried && w in carried && Effective(h, w)
             && Open(ReceiveAll(h, policy, s, xs), w)
    ensures Open(s, w)
    decreases |xs|
  {
    if xs != [] {
      var init, last := xs[..|xs| - 1], xs[|xs| - 1];
      assert last in Elems(xs) && Elems(init) <= Elems(xs);
      ReceiveCloses(h, policy, ReceiveAll(h, policy, s, init), last);
      BatchOpensNothing(h, policy, carried, s, init, w);
    }
  }

  /** A batch that stores something closes some item of it. */
  lemma {:induction false} BatchCloses(h: Hash, policy: Acceptance, carried: set<Item>, s: Store, xs: seq<Item>)
    returns (x: Item)
    requires OneWay(h, carried) && Elems(xs) <= carried && StoredCount(h, policy, s, xs) > 0
    ensures x in carried && Effective(h, x) && Open(s, x) && !Open(ReceiveAll(h, policy, s, xs), x)
    decreases |xs|
  {
    var init, last := xs[..|xs| - 1], xs[|xs| - 1];
    assert last in Elems(xs) && Elems(init) <= Elems(xs);
    var mid := ReceiveAll(h, policy, s, init);
    ReceiveCloses(h, policy, mid, last);
    if Receive(h, policy, mid, last).1.Stored? {
      x := last;
      BatchOpensNothing(h, policy, carried, s, init, x);
    } else {
      x := BatchCloses(h, policy, carried, s, init);
    }
  }

  // ---- Termination -------------------------------------------------------

  /** The nodes and carried items that could still change a store. */
  function Slots(h: Hash, topo: Topology, carried: set<Item>, s: NetState): set<(NodeId, Item)>
    requires s.stores.Keys == topo.Keys
  {
    set n, x | n in topo.Keys && x in carried && Effective(h, x) && Open(s.stores[n], x) :: (n, x)
  }

  /** Every item in flight is one of these. */
  predicate CarriesOnly(carried: set<Item>, s: NetState) {
    forall m :: m in s.inflight ==> Elems(m.items) <= carried
  }

  function Potential(h: Hash, topo: Topology, carried: set<Item>, s: NetState): nat
    requires s.stores.Keys == topo.Keys
  {
    |s.inflight| + |topo| * |Slots(h, topo, carried, s)|
  }

  lemma {:induction false} ForwardCount(topo: Topology, m: Push, targets: set<NodeId>)
    requires m.to in topo
    ensures |set p | p in targets :: Push(m.to, p, m.items)| == |targets|
  {
    if targets != {} {
      var q :| q in targets;
      ForwardCount(topo, m, targets - {q});
      assert (set p | p in targets :: Push(m.to, p, m.items)) ==
             (set p | p in targets - {q} :: Push(m.to, p, m.items)) + {Push(m.to, q, m.items)};
    }
  }

  lemma SlotsShrink(h: Hash, topo: Topology, carried: set<Item>, s: NetState, m: Push)
    requires Wellplaced(topo, s) && m in s.inflight && CarriesOnly(carried, s) && OneWay(h, carried)
    ensures var s' := Deliver(h, topo, s, m);
            && Slots(h, topo, carried, s') <= Slots(h, topo, carried, s)
            && (StoredCount(h, topo[m.to].policy, s.stores[m.to], m.items) > 0 ==>
               |Slots(h, topo, carried, s')| < |Slots(h, topo, carried, s)|)
  {
    var policy, store := topo[m.to].policy, s.stores[m.to];
    var s' := Deliver(h, topo, s, m);
    assert Elems(m.items) <= carried;
    forall n, x | n in topo && x in carried && Effective(h, x) && Open(s'.stores[n], x)
      ensures Open(s.stores[n], x)
    {
      if n == m.to {
        BatchOpensNothing(h, policy, carried, store, m.items, x);
      }
    }
    if StoredCount(h, policy, store, m.items) > 0 {
      var x := BatchCloses(h, policy, carried, store, m.items);
      assert (m.to, x) in Slots(h, topo, carried, s) && (m.to, x) !in Slots(h, topo, carried, s');
      StrictSubsetCardinality(Slots(h, topo, carried, s'), Slots(h, topo, carried, s), (m.to, x));
    }
  }

  lemma InflightChange(h: Hash, topo: Topology, s: NetState, m: Push)
    requires Wellplaced(topo, s) && m in s.inflight
    ensures var s' := Deliver(h, topo, s, m);
            if StoredCount(h, topo[m.to].policy, s.stores[m.to], m.items) > 0
            then |s'.inflight| <= |s.inflight| - 1 + |topo|
            else |s'.inflight| == |s.inflight| - 1
  {
    ForwardCount(topo, m, Targets(topo, m));
    SubsetCardinality(Targets(topo, m), topo.Keys);
    assert |topo| == |topo.Keys|;
  }

  lemma FanOut(k: nat, a: nat, b: nat)
    requires a <= b
    ensures k * a <= k * b && (a < b ==> k * a + k <= k * b)
  {
    assert k * b == k * a + k * (b - a);
    if a < b {
      assert k * (b - a) == k + k * (b - a - 1);
    }
  }

  lemma DeliverCarriesOnly(h: Hash, topo: Topology, carried: set<Item>, s: NetState, m: Push)
    requires Wellplaced(topo, s) && m in s.inflight && CarriesOnly(carried, s)
    ensures CarriesOnly(carried, Deliver(h, topo, s, m))
  {
    var s' := Deliver(h, topo, s, m);
    forall m' | m' in s'.inflight
      ensures Elems(m'.items) <= carried
    {
      InflightOrigin(h, topo, s, m, m');
    }
  }

  lemma DeliverLowersPotential(h: Hash, topo: Topology, carried: set<Item>, s: NetState, m: Push)
    requires Wellplaced(topo, s) && m in s.inflight && CarriesOnly(carried, s) && OneWay(h, carried)
    ensures Potential(h, topo, carried, Deliver(h, topo, s, m)) < Potential(h, topo, carried, s)
  {
    var s' := Deliver(h, topo, s, m);
    SlotsShrink(h, topo, carried, s, m);
    InflightChange(h, topo, s, m);
    SubsetCardinality(Slots(h, topo, carried, s'), Slots(h, topo, carried, s));
    FanOut(|topo|, |Slots(h, topo, carried, s')|, |Slots(h, topo, carried, s)|);
  }

  lemma RunLowersPotential(h: Hash, topo: Topology, carried: set<Item>, states: seq<NetState>, msgs: seq<Push>, i: nat)
    requires IsRun(h, topo, states, msgs) && i < |msgs| && CarriesOnly(carried, states[i]) && OneWay(h, carried)
    ensures CarriesOnly(carried, states[i + 1])
    ensures Potential(h, topo, carried, states[i + 1]) < Potential(h, topo, carried, states[i])
  {
    DeliverCarriesOnly(h, topo, carried, states[i], msgs[i]);
    DeliverLowersPotential(h, topo, carried, states[i], msgs[i]);
  }

  /**
    * If no id is carried both ways, every run ends: it is no longer than the pushes in flight plus one fan-out per open
    * item and node.
    */
  lemma FloodTerminates(h: Hash, topo: Topology, carried: set<Item>, states: seq<NetState>, msgs: seq<Push>)
    requires IsRun(h, topo, states, msgs) && CarriesOnly(carried, states[0]) && OneWay(h, carried)
    ensures |msgs| <= Potential(h, topo, carried, states[0])
  {
    for i := 0 to |msgs|
      invariant CarriesOnly(carried, states[i])
      invariant i + Potential(h, topo, carried, states[i]) <= Potential(h, topo, carried, states[0])
    {
      RunLowersPotential(h, topo, carried, states, msgs, i);
    }
  }

  // ---- The node's side ---------------------------------------------------

  lemma NoDupMultiset<T>(s: seq<T>)
    requires NoDup(s)
    ensures multiset(s) == multiset(Elems(s))
  {
    if s == [] {
    } else {
      var init, last := s[..|s| - 1], s[|s| - 1];
      NoDupMultiset(init);
      assert s == init + [last];
      assert Elems(s) == Elems(init) + {last};
    }
  }

  /** A push arrives: it is received, and a relay that stored something re-pushes the batch. This is one delivery. */
  method OnPush(storage: Storage, h: Hash, node: Node, m: Push, ghost topo: Topology, ghost s: NetState)
    returns (sent: seq<Push>)
    requires Wellplaced(topo, s) && m in s.inflight && topo[m.to] == node && storage.items == s.stores[m.to]
    modifies storage`items, storage`accessLog
    ensures Deliver(h, topo, s, m) == NetState(s.stores[m.to := storage.items],
              s.inflight - multiset{m} + multiset(sent))
  {
    var stored, _ := HandlePush(storage, h, node.policy, m.items);
    sent := [];
    if node.policy.Relay? && stored > 0 {
      sent := Enumerate(set p | p in node.peers && p != m.from :: Push(m.to, p, m.items));
      NoDupMultiset(sent);
      assert Forwards(topo, m) == set p | p in node.peers && p != m.from :: Push(m.to, p, m.items);
    }
  }
}
