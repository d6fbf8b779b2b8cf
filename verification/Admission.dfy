/** Whom a node takes items from, said of the groups themselves: own groups, accepted groups, blocked groups. */
module Admission {
  import opened Replication
  import opened Flood

  /** A whole item, not a tombstone, that matches its checksum. */
  predicate Whole(h: Hash, x: Item) {
    |x.blob| <= 16 * 1024 && x.itemType != "__tombstone__" && h(x.blob) == x.checksum
  }

  /** A transparent relay takes every group it does not block. */
  lemma TransparentTakesIff(h: Hash, accepted: set<string>, blocked: set<string>, s: Store, x: Item)
    requires Whole(h, x) && x.id !in s
    ensures Receive(h, Relay(Transparent, accepted, blocked), s, x).1.Stored? <==> x.group !in blocked
  {
  }

  /** A dynamic or explicit relay takes the accepted groups that it does not block. */
  lemma SelectiveTakesIff(h: Hash, posture: Posture, accepted: set<string>, blocked: set<string>, s: Store, x: Item)
    requires Whole(h, x) && x.id !in s && posture != Transparent
    ensures Receive(h, Relay(posture, accepted, blocked), s, x).1.Stored?
            <==> x.group in accepted && x.group !in blocked
  {
  }

  /** A member takes its own groups. */
  lemma MemberTakesIff(h: Hash, groups: seq<string>, s: Store, x: Item)
    requires Whole(h, x) && x.id !in s
    ensures Receive(h, Member(groups), s, x).1.Stored? <==> exists i :: 0 <= i < |groups| && groups[i] == x.group
  {
  }

  /** The outcome of a receipt: the first of these that applies. */
  lemma OutcomeIs(h: Hash, policy: Acceptance, s: Store, x: Item)
    ensures var o := Receive(h, policy, s, x).1;
            && (o == Rejected(TooLarge) <==> |x.blob| > 16 * 1024)
            && (o == Rejected(NotAccepted) <==> |x.blob| <= 16 * 1024 && Refuses(policy, x.group))
            && (o == Rejected(BadChecksum) <==>
                |x.blob| <= 16 * 1024 && !Refuses(policy, x.group) && x.itemType != TOMBSTONE
                && h(x.blob) != x.checksum)
    ensures x.itemType == TOMBSTONE && |x.blob| <= 16 * 1024 && !Refuses(policy, x.group) ==>
              x.id !in Receive(h, policy, s, x).0 && (Receive(h, policy, s, x).1.Stored? <==> x.id in s)
  {
  }

  /** The group is blocked, is not among the accepted ones, or is not one's own. */
  predicate Refuses(policy: Acceptance, g: string) {
    match policy
    case Member(groups) => forall i :: 0 <= i < |groups| ==> groups[i] != g
    case Relay(posture, accepted, blocked) => g in blocked || (posture != Transparent && g !in accepted)
  }

  // ---- Runs of receipts --------------------------------------------------

  /** Every row of `after` was there before, or is of a group that the policy does not refuse. */
  predicate GainsOnlyOwn(policy: Acceptance, before: Store, after: Store) {
    forall id :: id in after && !(id in before && before[id] == after[id]) ==>
      after[id].group.Some? && !Refuses(policy, after[id].group.value)
  }

  /** Rows are lost only to tombstones of groups that the policy does not refuse. */
  predicate LosesOnlyOwn(policy: Acceptance, before: Store, xs: seq<Item>, after: Store) {
    forall id :: id in before && id !in after ==>
      exists i :: 0 <= i < |xs| && xs[i].id == id && xs[i].itemType == TOMBSTONE && !Refuses(policy, xs[i].group)
  }

  lemma ReceiptGains(h: Hash, policy: Acceptance, s: Store, x: Item)
    ensures GainsOnlyOwn(policy, s, Receive(h, policy, s, x).0)
  {
  }

  /**
    * Whatever is received, a relay gains no row of a blocked group, a dynamic or explicit one none outside its accepted
    * groups, and a member none outside its own.
    */
  lemma {:induction false} ReceiptsGainOnlyOwn(h: Hash, policy: Acceptance, s: Store, xs: seq<Item>)
    ensures GainsOnlyOwn(policy, s, ReceiveAll(h, policy, s, xs))
    decreases |xs|
  {
    if xs == [] {
    } else {
      ReceiptsGainOnlyOwn(h, policy, s, xs[..|xs| - 1]);
      ReceiptGains(h, policy, ReceiveAll(h, policy, s, xs[..|xs| - 1]), xs[|xs| - 1]);
    }
  }

  lemma {:induction false} ReceiptsLoseOnlyOwn(h: Hash, policy: Acceptance, s: Store, xs: seq<Item>)
    ensures LosesOnlyOwn(policy, s, xs, ReceiveAll(h, policy, s, xs))
    decreases |xs|
  {
    if xs == [] {
    } else {
      var init, x := xs[..|xs| - 1], xs[|xs| - 1];
      var mid := ReceiveAll(h, policy, s, init);
      ReceiptsLoseOnlyOwn(h, policy, s, init);
      forall id | id in s && id !in Receive(h, policy, mid, x).0
        ensures exists i ::
                  0 <= i < |xs| && xs[i].id == id && xs[i].itemType == TOMBSTONE && !Refuses(policy, xs[i].group)
      {
        if id in mid {
          OutcomeIs(h, policy, mid, x);
          assert xs[|xs| - 1].id == id;
        } else {
          var i :| 0 <= i < |init| && init[i].id == id && init[i].itemType == TOMBSTONE
            && !Refuses(policy, init[i].group);
          assert xs[i] == init[i];
        }
      }
    }
  }

  lemma GainsAddUp(policy: Acceptance, a: Store, b: Store, c: Store)
    requires GainsOnlyOwn(policy, a, b) && GainsOnlyOwn(policy, b, c)
    ensures GainsOnlyOwn(policy, a, c)
  {
  }

  /** In every flood, each node gains rows only of groups it does not refuse, whatever the others pass on. */
  lemma FloodGainsOnlyOwn(h: Hash, topo: Topology, states: seq<NetState>, msgs: seq<Push>, n: NodeId, k: nat)
    requires IsRun(h, topo, states, msgs) && n in topo && k <= |msgs|
    ensures GainsOnlyOwn(topo[n].policy, states[0].stores[n], states[k].stores[n])
  {
    for i := 0 to k
      invariant GainsOnlyOwn(topo[n].policy, states[0].stores[n], states[i].stores[n])
    {
      DeliveryGains(h, topo, states[i], msgs[i], n);
      GainsAddUp(topo[n].policy, states[0].stores[n], states[i].stores[n], states[i + 1].stores[n]);
    }
  }

  lemma DeliveryGains(h: Hash, topo: Topology, s: NetState, m: Push, n: NodeId)
    requires Wellplaced(topo, s) && m in s.inflight && n in topo
    ensures GainsOnlyOwn(topo[n].policy, s.stores[n], Deliver(h, topo, s, m).stores[n])
  {
    ReceiptsGainOnlyOwn(h, topo[m.to].policy, s.stores[m.to], m.items);
  }
}
