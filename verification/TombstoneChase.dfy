/**
  * When flooding ends: exactly when no id is carried both as an item and as a tombstone. Otherwise the two chase each
  * other around a ring of three relays for ever.
  */
module TombstoneChase {
  import opened Replication
  import opened Flood

  function Policy(): Acceptance { Relay(Transparent, {}, {}) }

  function Ring(): Topology {
    map[0 := Node(Policy(), {1, 2}), 1 := Node(Policy(), {0, 2}), 2 := Node(Policy(), {0, 1})]
  }

  function Empty(): map<NodeId, Store> { map[0 := map[], 1 := map[], 2 := map[]] }

  function Next(i: NodeId): NodeId { if i == 0 then 1 else if i == 1 then 2 else 0 }

  /** An item and a tombstone of its id, both taking effect wherever they are accepted. */
  predicate Chase(h: Hash, item: Item, grave: Item) { Clash(h, item, grave) && grave.itemType == TOMBSTONE }

  /** Both are on their way from relay `i` to the next one. */
  function Chased(item: Item, grave: Item, i: NodeId): NetState {
    NetState(Empty(), multiset{Push(i, Next(i), [item]), Push(i, Next(i), [grave])})
  }

  /** The item has been stored and sent on; the tombstone is still behind it. */
  function Ahead(h: Hash, item: Item, grave: Item, i: NodeId): NetState {
    var j := Next(i);
    NetState(Empty()[j := map[item.id := RowOf(h, item)]], multiset{Push(i, j, [grave]), Push(j, Next(j), [item])})
  }

  lemma OneItem(h: Hash, s: Store, x: Item)
    ensures ReceiveAll(h, Policy(), s, [x]) == Receive(h, Policy(), s, x).0
    ensures StoredCount(h, Policy(), s, [x]) == (if Receive(h, Policy(), s, x).1.Stored? then 1 else 0)
  {
    assert [x][..0] == [];
    assert ReceiveAll(h, Policy(), s, []) == s && Tally(h, Policy(), s, []) == Counts(0, 0, 0);
  }

  lemma OnlyNext(m: Push, i: NodeId)
    requires i < 3 && m.from == i && m.to == Next(i)
    ensures Forwards(Ring(), m) == {Push(m.to, Next(m.to), m.items)}
  {
    assert Targets(Ring(), m) == {Next(m.to)};
  }

  lemma ItemMovesOn(h: Hash, item: Item, grave: Item, i: NodeId)
    requires Chase(h, item, grave) && i < 3
    ensures Wellplaced(Ring(), Chased(item, grave, i))
    ensures Deliver(h, Ring(), Chased(item, grave, i), Push(i, Next(i), [item])) == Ahead(h, item, grave, i)
  {
    var m, j := Push(i, Next(i), [item]), Next(i);
    OneItem(h, map[], item);
    OnlyNext(m, i);
    assert Receive(h, Policy(), map[], item) == (map[item.id := RowOf(h, item)], Stored);
    assert Chased(item, grave, i).inflight - multiset{m} + multiset{Push(j, Next(j), [item])}
      == Ahead(h, item, grave, i).inflight;
  }

  lemma TombstoneFollows(h: Hash, item: Item, grave: Item, i: NodeId)
    requires Chase(h, item, grave) && i < 3
    ensures Wellplaced(Ring(), Ahead(h, item, grave, i))
    ensures Deliver(h, Ring(), Ahead(h, item, grave, i), Push(i, Next(i), [grave])) == Chased(item, grave, Next(i))
  {
    var m, j := Push(i, Next(i), [grave]), Next(i);
    var store: Store := map[item.id := RowOf(h, item)];
    OneItem(h, store, grave);
    OnlyNext(m, i);
    assert store - {item.id} == map[];
    assert Ahead(h, item, grave, i).stores[j := map[]] == Empty();
    assert Ahead(h, item, grave, i).inflight - multiset{m} + multiset{Push(j, Next(j), [grave])}
      == Chased(item, grave, j).inflight;
  }

  /** A run that has chased the two as far as relay `i`. */
  ghost predicate Chasing(h: Hash, item: Item, grave: Item, states: seq<NetState>, msgs: seq<Push>, i: NodeId) {
    && IsRun(h, Ring(), states, msgs) && states[0] == Chased(item, grave, 0)
    && i < 3 && states[|msgs|] == Chased(item, grave, i)
  }

  lemma ChaseOnce(h: Hash, item: Item, grave: Item, states: seq<NetState>, msgs: seq<Push>, i: NodeId)
    requires Chase(h, item, grave) && Chasing(h, item, grave, states, msgs, i)
    ensures Chasing(h, item, grave, states + [Ahead(h, item, grave, i)] + [Chased(item, grave, Next(i))],
                    msgs + [Push(i, Next(i), [item])] + [Push(i, Next(i), [grave])], Next(i))
  {
    ItemMovesOn(h, item, grave, i);
    TombstoneFollows(h, item, grave, i);
    var m, m', ahead := Push(i, Next(i), [item]), Push(i, Next(i), [grave]), Ahead(h, item, grave, i);
    assert m in Chased(item, grave, i).inflight && m' in ahead.inflight;
    RunExtends(h, Ring(), states, msgs, m, ahead);
    assert (states + [ahead])[|msgs + [m]|] == ahead;
    RunExtends(h, Ring(), states + [ahead], msgs + [m], m', Chased(item, grave, Next(i)));
  }

  lemma ChaseStarts(h: Hash, item: Item, grave: Item)
    requires Chase(h, item, grave)
    ensures Chasing(h, item, grave, [Chased(item, grave, 0)], [], 0)
  {
    ItemMovesOn(h, item, grave, 0);
  }

  /** An item and a tombstone of its id have a run of any length. */
  lemma ChaseForever(h: Hash, item: Item, grave: Item, n: nat)
    returns (states: seq<NetState>, msgs: seq<Push>, i: NodeId)
    requires Chase(h, item, grave)
    ensures Chasing(h, item, grave, states, msgs, i) && |msgs| == 2 * n
  {
    states, msgs, i := [Chased(item, grave, 0)], [], 0;
    ChaseStarts(h, item, grave);
    for k := 0 to n
      invariant Chasing(h, item, grave, states, msgs, i) && |msgs| == 2 * k
    {
      ChaseOnce(h, item, grave, states, msgs, i);
      states := states + [Ahead(h, item, grave, i)] + [Chased(item, grave, Next(i))];
      msgs := msgs + [Push(i, Next(i), [item])] + [Push(i, Next(i), [grave])];
      i := Next(i);
    }
  }

  // ---- Exactly when a flood ends -----------------------------------------

  /** No run from `s` is longer than `bound`. */
  ghost predicate EndsWithin(h: Hash, topo: Topology, s: NetState, bound: nat) {
    forall states, msgs :: IsRun(h, topo, states, msgs) && states[0] == s ==> |msgs| <= bound
  }

  /** Wherever and however these items are in flight, the runs are bounded. */
  ghost predicate AlwaysEnds(h: Hash, carried: set<Item>) {
    forall topo, s :: Wellplaced(topo, s) && CarriesOnly(carried, s) ==> exists bound :: EndsWithin(h, topo, s, bound)
  }

  lemma OneWayEnds(h: Hash, carried: set<Item>, topo: Topology, s: NetState)
    requires OneWay(h, carried) && Wellplaced(topo, s) && CarriesOnly(carried, s)
    ensures EndsWithin(h, topo, s, Potential(h, topo, carried, s))
  {
    forall states, msgs | IsRun(h, topo, states, msgs) && states[0] == s
      ensures |msgs| <= Potential(h, topo, carried, s)
    {
      FloodTerminates(h, topo, carried, states, msgs);
    }
  }

  lemma ClashNeverEnds(h: Hash, item: Item, grave: Item, bound: nat)
    requires Chase(h, item, grave)
    ensures !EndsWithin(h, Ring(), Chased(item, grave, 0), bound)
  {
    var states, msgs, _ := ChaseForever(h, item, grave, bound + 1);
    assert |msgs| > bound;
  }

  lemma ClashBreaks(h: Hash, carried: set<Item>, item: Item, grave: Item)
    requires Chase(h, item, grave) && item in carried && grave in carried
    ensures !AlwaysEnds(h, carried)
  {
    var s := Chased(item, grave, 0);
    ItemMovesOn(h, item, grave, 0);
    assert CarriesOnly(carried, s);
    forall bound
      ensures !EndsWithin(h, Ring(), s, bound)
    {
      ClashNeverEnds(h, item, grave, bound);
    }
  }

  lemma OneWayAlwaysEnds(h: Hash, carried: set<Item>)
    requires OneWay(h, carried)
    ensures AlwaysEnds(h, carried)
  {
    forall topo, s | Wellplaced(topo, s) && CarriesOnly(carried, s)
      ensures exists bound :: EndsWithin(h, topo, s, bound)
    {
      OneWayEnds(h, carried, topo, s);
    }
  }

  /**
    * Flooding a set of items always ends if and only if no id is carried both as an item and as a tombstone that take
    * effect.
    */
  lemma FloodEndsIff(h: Hash, carried: set<Item>)
    ensures AlwaysEnds(h, carried) <==> OneWay(h, carried)
  {
    if OneWay(h, carried) {
      OneWayAlwaysEnds(h, carried);
    } else {
      var x, y :| x in carried && y in carried && Clash(h, x, y);
      if y.itemType == TOMBSTONE {
        ClashBreaks(h, carried, x, y);
      } else {
        ClashBreaks(h, carried, y, x);
      }
    }
  }
}
