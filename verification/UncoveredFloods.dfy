/** Exactly which ids a flood covers: those at risk are left uncovered by some flood. */
module UncoveredFloods {
  import opened Collections
  import opened Replication
  import opened Flood
  import opened FloodCoverage

  // ---- A tombstone uncovers ----------------------------------------------

  // A relay and a member hold the same version; a tombstone reaches the member, which does not pass it on.

  function RowFor(w: Seen, g: string): Row {
    Row("note", [], Some(w.checksum), None, "group", Some(g), None, 0, None, false, w.updatedAt)
  }

  function Pair(g: string): Topology {
    map[0 := Node(Relay(Transparent, {}, {}), {1}), 1 := Node(Member([g]), {0})]
  }

  function Both(w: Seen, grave: Item): NetState {
    var kept: Store := map[grave.id := RowFor(w, grave.group)];
    NetState(map[0 := kept, 1 := kept], multiset{Push(2, 1, [grave])})
  }

  function Split(w: Seen, grave: Item): NetState {
    NetState(map[0 := map[grave.id := RowFor(w, grave.group)], 1 := map[]], multiset{})
  }

  lemma TombstoneSplits(h: Hash, w: Seen, grave: Item)
    requires grave.itemType == TOMBSTONE && Effective(h, grave)
    ensures Wellplaced(Pair(grave.group), Both(w, grave))
    ensures Deliver(h, Pair(grave.group), Both(w, grave), Push(2, 1, [grave])) == Split(w, grave)
  {
    var s := Both(w, grave);
    var kept := s.stores[1];
    assert [grave][..0] == [];
    assert ReceiveAll(h, Member([grave.group]), kept, [grave]) == kept - {grave.id} == map[];
    assert s.inflight - multiset{Push(2, 1, [grave])} == multiset{};
  }

  lemma BothIsInOrder(h: Hash, w: Seen, grave: Item, seen: set<Seen>, spared: set<string>)
    requires grave.itemType == TOMBSTONE && w in seen && w.id == grave.id
    ensures var topo, s := Pair(grave.group), Both(w, grave);
            && Wellplaced(topo, s) && RelaysServe(h, spared, topo, s) && SendersHold(h, spared, topo, s)
            && forall n :: n in topo ==> RowsSeen(seen, s.stores[n])
  {
  }

  lemma TombstoneFloods(h: Hash, carried: set<Item>, held: set<Seen>, spared: set<string>, grave: Item, w: Seen)
    requires grave in carried && grave.itemType == TOMBSTONE && Effective(h, grave)
    requires w in Exist(h, carried, held) && w.id == grave.id
    ensures Flooded(h, carried, held, spared, Pair(grave.group), [Both(w, grave), Split(w, grave)],
              [Push(2, 1, [grave])])
  {
    TombstoneSplits(h, w, grave);
    BothIsInOrder(h, w, grave, Exist(h, carried, held), spared);
    assert CarriesOnly(carried, Both(w, grave));
  }

  lemma SplitIsUncovered(w: Seen, grave: Item)
    ensures Wellplaced(Pair(grave.group), Split(w, grave)) && !Covered(Pair(grave.group), Split(w, grave), grave.id)
  {
    var topo, s := Pair(grave.group), Split(w, grave);
    assert Keeps({}, topo, s, 0, grave.id) && 1 in topo[0].peers;
  }

  lemma TombstoneUncovers(h: Hash, carried: set<Item>, held: set<Seen>, spared: set<string>, grave: Item, w: Seen)
    requires grave in carried && grave.itemType == TOMBSTONE && Effective(h, grave)
    requires w in Exist(h, carried, held) && w.id == grave.id
    ensures !AlwaysCovered(h, carried, held, spared, grave.id)
  {
    TombstoneFloods(h, carried, held, spared, grave, w);
    SplitIsUncovered(w, grave);
  }

  // ---- A hidden item uncovers --------------------------------------------

  // The item reaches a relay, which passes it on to a member that holds the older version and takes it for a duplicate.

  function Older(h: Hash, x: Item, w: Seen): Store { map[x.id := RowOf(h, x.(updatedAt := w.updatedAt))] }

  function Arriving(h: Hash, x: Item, w: Seen): NetState {
    NetState(map[0 := map[], 1 := Older(h, x, w)], multiset{Push(2, 0, [x])})
  }

  function PassedOn(h: Hash, x: Item, w: Seen): NetState {
    NetState(map[0 := map[x.id := RowOf(h, x)], 1 := Older(h, x, w)], multiset{Push(0, 1, [x])})
  }

  function Stuck(h: Hash, x: Item, w: Seen): NetState {
    NetState(map[0 := map[x.id := RowOf(h, x)], 1 := Older(h, x, w)], multiset{})
  }

  lemma RelayTakes(h: Hash, x: Item, w: Seen)
    requires Lives(h, {}, x)
    ensures Wellplaced(Pair(x.group), Arriving(h, x, w))
    ensures Deliver(h, Pair(x.group), Arriving(h, x, w), Push(2, 0, [x])) == PassedOn(h, x, w)
  {
    var topo, m, none: Store := Pair(x.group), Push(2, 0, [x]), map[];
    assert [x][..0] == [];
    assert ReceiveAll(h, topo[0].policy, none, [x]) == none[x.id := RowOf(h, x)];
    assert Tally(h, topo[0].policy, none, []).stored == 0;
    assert StoredCount(h, topo[0].policy, none, [x]) == 1;
    assert Targets(topo, m) == {1};
    assert Forwards(topo, m) == {Push(0, 1, [x])};
    assert Arriving(h, x, w).inflight - multiset{m} == multiset{};
  }

  lemma MemberRefuses(h: Hash, x: Item, w: Seen)
    requires Lives(h, {}, x)
    ensures Wellplaced(Pair(x.group), PassedOn(h, x, w))
    ensures Deliver(h, Pair(x.group), PassedOn(h, x, w), Push(0, 1, [x])) == Stuck(h, x, w)
  {
    assert [x][..0] == [];
    assert ReceiveAll(h, Member([x.group]), Older(h, x, w), [x]) == Older(h, x, w);
    assert PassedOn(h, x, w).inflight - multiset{Push(0, 1, [x])} == multiset{};
  }

  lemma ArrivingIsInOrder(h: Hash, x: Item, w: Seen, seen: set<Seen>, spared: set<string>)
    requires Lives(h, {}, x) && w in seen && Hides(w, x)
    ensures var topo, s := Pair(x.group), Arriving(h, x, w);
            && Wellplaced(topo, s) && RelaysServe(h, spared, topo, s) && SendersHold(h, spared, topo, s)
            && forall n :: n in topo ==> RowsSeen(seen, s.stores[n])
  {
    assert w == Seen(x.id, h(x.blob), w.updatedAt);
  }

  function HidingStates(h: Hash, x: Item, w: Seen): seq<NetState> {
    [Arriving(h, x, w), PassedOn(h, x, w), Stuck(h, x, w)]
  }
  function HidingPushes(x: Item): seq<Push> { [Push(2, 0, [x]), Push(0, 1, [x])] }

  lemma HidingRuns(h: Hash, x: Item, w: Seen)
    requires Lives(h, {}, x)
    ensures IsRun(h, Pair(x.group), HidingStates(h, x, w), HidingPushes(x))
  {
    RelayTakes(h, x, w);
    MemberRefuses(h, x, w);
    var states, msgs := HidingStates(h, x, w), HidingPushes(x);
    forall i | 0 <= i < 2
      ensures msgs[i] in states[i].inflight && states[i + 1] == Deliver(h, Pair(x.group), states[i], msgs[i])
    {
      assert i == 0 || i == 1;
    }
  }

  lemma HidingFloods(h: Hash, carried: set<Item>, held: set<Seen>, spared: set<string>, x: Item, w: Seen)
    requires x in carried && Lives(h, {}, x) && w in Exist(h, carried, held) && Hides(w, x)
    ensures Flooded(h, carried, held, spared, Pair(x.group), HidingStates(h, x, w), HidingPushes(x))
  {
    HidingRuns(h, x, w);
    ArrivingIsInOrder(h, x, w, Exist(h, carried, held), spared);
    assert CarriesOnly(carried, Arriving(h, x, w));
  }

  lemma StuckIsUncovered(h: Hash, x: Item, w: Seen)
    requires Hides(w, x)
    ensures Wellplaced(Pair(x.group), Stuck(h, x, w)) && !Covered(Pair(x.group), Stuck(h, x, w), x.id)
  {
    var topo, s := Pair(x.group), Stuck(h, x, w);
    assert Keeps({}, topo, s, 0, x.id) && 1 in topo[0].peers;
  }

  lemma HidingUncovers(h: Hash, carried: set<Item>, held: set<Seen>, spared: set<string>, x: Item, w: Seen)
    requires x in carried && Lives(h, {}, x) && w in Exist(h, carried, held) && Hides(w, x)
    ensures !AlwaysCovered(h, carried, held, spared, x.id)
  {
    HidingFloods(h, carried, held, spared, x, w);
    StuckIsUncovered(h, x, w);
  }

  /**
    * A finished flood has always covered an id if and only if the id is not at risk: no carried item of it is hidden by
    * another version, and no tombstone that takes effect is carried for it, unless it has no version at all.
    */
  lemma FloodCoversIff(h: Hash, carried: set<Item>, held: set<Seen>, spared: set<string>, id: string)
    requires id !in spared
    ensures AlwaysCovered(h, carried, held, spared, id) <==> id !in AtRisk(h, carried, held)
  {
    if id in Hidden(h, carried, held) {
      var x, w :| x in carried && w in Exist(h, carried, held) && Lives(h, {}, x) && Hides(w, x) && x.id == id;
      HidingUncovers(h, carried, held, spared, x, w);
    } else if id in AtRisk(h, carried, held) {
      var w :| w in Exist(h, carried, held) && w.id in Graves(h, carried) && w.id == id;
      var x :| x in carried && x.itemType == TOMBSTONE && Effective(h, x) && x.id == id;
      TombstoneUncovers(h, carried, held, spared, x, w);
    } else {
      forall topo, states, msgs | Flooded(h, carried, held, spared, topo, states, msgs)
        ensures Covered(topo, states[|msgs|], id)
      {
        FloodCoversId(h, carried, held, spared, topo, states, msgs, id);
      }
    }
  }
}
