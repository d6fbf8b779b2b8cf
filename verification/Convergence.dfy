/** Two nodes that pull from each other in turn: exactly when they end up with the same contents. */
module Convergence {
  import opened Collections
  import opened Era
  import opened Replication
  import opened AntiEntropy

  /** The contents of a group, as its members see it. */
  function GroupData(s: Store, g: string, id: string): Option<Blob> {
    if id in s && s[id].group == Some(g) then Some(s[id].data) else None
  }

  /**
    * Some side has the id to itself, both have the same data, or one version is strictly newer; and what must travel is
    * not oversized.
    */
  predicate Resolvable(a: Store, b: Store, g: string, id: string) {
    var ours, theirs := GroupData(a, g, id), GroupData(b, g, id);
    if ours.None? && theirs.None? then true
    else if ours.None? then |theirs.value| <= MAX_ITEM_BYTES
    else if theirs.None? then |ours.value| <= MAX_ITEM_BYTES
    else
      || ours == theirs
      || (a[id].updatedAt < b[id].updatedAt && |theirs.value| <= MAX_ITEM_BYTES)
      || (b[id].updatedAt < a[id].updatedAt && |ours.value| <= MAX_ITEM_BYTES)
  }

  /** The two stores never use an id in different groups, and equal checksums mean equal data. */
  predicate Compatible(h: Hash, a: Store, b: Store, g: string) {
    && StoreOk(h, a) && StoreOk(h, b) && NoTombstones(a) && NoTombstones(b)
    && (forall id :: id in a && id in b ==> (a[id].group == Some(g) <==> b[id].group == Some(g)))
    && (forall id :: id in a && id in b && a[id].checksum == b[id].checksum ==> a[id].data == b[id].data)
  }

  /** A page with room for every row of the group lists them all. */
  lemma FullPage(s: Store, g: string, limit: nat, page: seq<string>)
    requires IsPage(s, g, None, limit, page) && |Matching(s, g, None)| <= limit
    ensures Elems(page) == Matching(s, g, None)
  {
    EqualBySize(Elems(page), Matching(s, g, None));
  }

  lemma EqualBySize<T>(a: set<T>, b: set<T>)
    requires a <= b && |a| == |b|
    ensures a == b
  {
    DifferenceCardinality(b, a);
  }

  function PullRow(h: Hash, policy: Acceptance, local: Store, remote: Store, g: string, id: string): Option<Row> {
    if id in remote && remote[id].group == Some(g) then Settled(h, policy, Lookup(local, id), FetchOf(id, remote[id]))
    else Lookup(local, id)
  }

  /** A full pull, id by id. */
  lemma FullPull(h: Hash, policy: Acceptance, local: Store, remote: Store, g: string, limit: nat, page: seq<string>,
                 id: string)
    requires IsPage(remote, g, None, limit, page) && |Matching(remote, g, None)| <= limit && NoTombstones(remote)
    ensures Lookup(ReceiveAll(h, policy, local, FetchAll(remote, page)), id) == PullRow(h, policy, local, remote, g, id)
  {
    FullPage(remote, g, limit, page);
    assert id in page <==> id in Elems(page);
    PullPointwise(h, policy, local, remote, page, id);
  }

  /** A full pull brings in no id from elsewhere, keeps the rows honest and files what it brings under the group. */
  lemma PulledStore(h: Hash, policy: Acceptance, local: Store, remote: Store, g: string, limit: nat, page: seq<string>)
    requires IsPage(remote, g, None, limit, page) && |Matching(remote, g, None)| <= limit
    requires Compatible(h, local, remote, g)
    ensures var r := ReceiveAll(h, policy, local, FetchAll(remote, page));
            && NoTombstones(r)
            && Matching(r, g, None) <= Matching(local, g, None) + Matching(remote, g, None)
  {
    var r := ReceiveAll(h, policy, local, FetchAll(remote, page));
    forall id | id in r
      ensures r[id].itemType != TOMBSTONE
      ensures r[id].group == Some(g) ==> id in Matching(local, g, None) + Matching(remote, g, None)
    {
      FullPull(h, policy, local, remote, g, limit, page, id);
      assert Lookup(r, id) == Some(r[id]);
    }
  }

  /** The outcome of both pulls for one id. */
  lemma PairOutcome(h: Hash, pa: Acceptance, pb: Acceptance, a: Store, b: Store, a': Store, g: string, id: string)
    requires Compatible(h, a, b, g) && pa.Accepts(g) && pb.Accepts(g)
    requires Lookup(a', id) == PullRow(h, pa, a, b, g, id)
    ensures var b' := PullRow(h, pb, b, a', g, id);
            GroupData(a', g, id) == (if b'.Some? && b'.value.group == Some(g) then Some(b'.value.data) else None)
            <==> Resolvable(a, b, g, id)
  {
    assert id in a' <==> Lookup(a', id).Some?;
    if id in b && b[id].group == Some(g) {
      var x := FetchOf(id, b[id]);
      assert x.group == g && h(x.blob) == x.checksum;
    }
    if id in a' && a'[id].group == Some(g) {
      var y := FetchOf(id, a'[id]);
      assert y.group == g && a'[id].checksum == Some(h(y.blob));
    }
  }

  /** A from B, then B from A: the group's contents agree afterwards if and only if every id was resolvable before. */
  lemma TwoWayPullConvergesIff(h: Hash, pa: Acceptance, pb: Acceptance, a: Store, b: Store, g: string, limit: nat,
                               page: seq<string>, page': seq<string>)
    requires Compatible(h, a, b, g) && pa.Accepts(g) && pb.Accepts(g)
    requires |Matching(a, g, None) + Matching(b, g, None)| <= limit
    requires IsPage(b, g, None, limit, page)
    requires IsPage(ReceiveAll(h, pa, a, FetchAll(b, page)), g, None, limit, page')
    ensures var a' := ReceiveAll(h, pa, a, FetchAll(b, page));
            var b' := ReceiveAll(h, pb, b, FetchAll(a', page'));
            (forall id :: GroupData(a', g, id) == GroupData(b', g, id)) <==> (forall id :: Resolvable(a, b, g, id))
  {
    var a' := ReceiveAll(h, pa, a, FetchAll(b, page));
    var b' := ReceiveAll(h, pb, b, FetchAll(a', page'));
    SubsetCardinality(Matching(b, g, None), Matching(a, g, None) + Matching(b, g, None));
    PulledStore(h, pa, a, b, g, limit, page);
    SubsetCardinality(Matching(a', g, None), Matching(a, g, None) + Matching(b, g, None));
    forall id
      ensures GroupData(a', g, id) == GroupData(b', g, id) <==> Resolvable(a, b, g, id)
    {
      FullPull(h, pa, a, b, g, limit, page, id);
      FullPull(h, pb, b, a', g, limit, page', id);
      PairOutcome(h, pa, pb, a, b, a', g, id);
      assert Lookup(b', id) == PullRow(h, pb, b, a', g, id);
    }
  }
}
