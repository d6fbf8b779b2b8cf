/** Anti-entropy: compare header pages with a peer and fetch what differs. */
module AntiEntropy {
  import opened Collections
  import opened Ranking
  import opened Replication

  datatype Header = Header(id: string, itemType: string, checksum: string, updatedAt: Timestamp, author: string,
    isDeletion: bool)

  // ---- Pages -------------------------------------------------------------

  /** The group's rows, newer than `since` if given. */
  function Matching(s: Store, g: string, since: Option<Timestamp>): set<string> {
    set id | id in s && s[id].group == Some(g) && (since.Some? ==> s[id].updatedAt > since.value)
  }

  function DateKeys(s: Store): map<string, Key> {
    map id | id in s :: Key(0, s[id].updatedAt)
  }

  /** The oldest `limit` matching rows in date order; rows of equal date may come in any order. */
  ghost predicate IsPage(s: Store, g: string, since: Option<Timestamp>, limit: nat, page: seq<string>) {
    && NoDup(page)
    && Best(DateKeys(s), Matching(s, g, since), Elems(page), limit)
    && Ranked(DateKeys(s), page)
  }

  function HeaderOf(s: Store, id: string): Header
    requires id in s
  {
    Header(id, s[id].itemType, OrEmpty(s[id].checksum), s[id].updatedAt, OrEmpty(s[id].author), false)
  }

  function HeadersOf(s: Store, page: seq<string>): (r: seq<Header>)
    requires Elems(page) <= s.Keys
    ensures |r| == |page|
    ensures forall i :: 0 <= i < |page| ==> page[i] in s && r[i] == HeaderOf(s, page[i])
  {
    if page == [] then []
    else
      assert page[|page| - 1] in Elems(page);
      assert Elems(page[..|page| - 1]) <= Elems(page);
      HeadersOf(s, page[..|page| - 1]) + [HeaderOf(s, page[|page| - 1])]
  }

  /** The page query, as storage and the sync request handler answer it. */
  method ListGroupItems(storage: Storage, g: string, since: Option<Timestamp>, limit: nat)
    returns (headers: seq<Header>, page: seq<string>)
    ensures IsPage(storage.items, g, since, limit, page) && Elems(page) <= storage.items.Keys
    ensures headers == HeadersOf(storage.items, page)
  {
    var s := storage.items;
    var found := Enumerate(Matching(s, g, since));
    var ids := SelectBest(DateKeys(s), found, limit);
    page := ids;
    headers := HeadersOf(s, ids);
  }

  // ---- Header difference -------------------------------------------------

  function ChecksumMap(local: seq<Header>): map<string, string> {
    if local == [] then map[]
    else ChecksumMap(local[..|local| - 1])[local[|local| - 1].id := local[|local| - 1].checksum]
  }

  function Needs(known: map<string, string>, r: Header): bool {
    r.id in known ==> known[r.id] != r.checksum
  }

  function Differing(known: map<string, string>, remote: seq<Header>): seq<string> {
    if remote == [] then []
    else
      Differing(known, remote[..|remote| - 1])
      + (if Needs(known, remote[|remote| - 1]) then [remote[|remote| - 1].id] else [])
  }

  function DiffHeaders(local: seq<Header>, remote: seq<Header>): seq<string> {
    Differing(ChecksumMap(local), remote)
  }

  predicate DistinctIds(hs: seq<Header>) { forall i, j :: 0 <= i < j < |hs| ==> hs[i].id != hs[j].id }

  /** Some header has this id and this checksum. */
  predicate Carries(hs: seq<Header>, id: string, checksum: string) {
    exists i :: 0 <= i < |hs| && hs[i].id == id && hs[i].checksum == checksum
  }

  lemma CarriesOneMore(hs: seq<Header>, last: Header, id: string, checksum: string)
    ensures Carries(hs + [last], id, checksum)
            <==> Carries(hs, id, checksum) || (last.id == id && last.checksum == checksum)
  {
    var more := hs + [last];
    if Carries(hs, id, checksum) {
      var i :| 0 <= i < |hs| && hs[i].id == id && hs[i].checksum == checksum;
      assert more[i] == hs[i];
    }
    assert more[|hs|] == last;
  }

  lemma {:induction false} ChecksumMapIff(local: seq<Header>, id: string, checksum: string)
    requires DistinctIds(local)
    ensures id in ChecksumMap(local) && ChecksumMap(local)[id] == checksum <==> Carries(local, id, checksum)
    decreases |local|
  {
    if local == [] {
    } else {
      var init, last := local[..|local| - 1], local[|local| - 1];
      ChecksumMapIff(init, id, checksum);
      assert local == init + [last];
      CarriesOneMore(init, last, id, checksum);
      assert last.id == id ==> !Carries(init, id, checksum);
    }
  }

  /** The ids are those of the remote headers at these places, one after the other. */
  predicate PickedAt(ids: seq<string>, remote: seq<Header>, at: seq<nat>) {
    && |at| == |ids|
    && (forall i :: 0 <= i < |at| ==> at[i] < |remote| && remote[at[i]].id == ids[i])
    && (forall i, j :: 0 <= i < j < |at| ==> at[i] < at[j])
  }

  lemma PickNext(ids: seq<string>, remote: seq<Header>, at: seq<nat>, last: Header)
    requires PickedAt(ids, remote, at) && DistinctIds(remote + [last])
    ensures PickedAt(ids, remote + [last], at) && PickedAt(ids + [last.id], remote + [last], at + [|remote|])
    ensures last.id !in ids
  {
    var more := remote + [last];
    forall i | 0 <= i < |ids|
      ensures ids[i] != last.id
    {
      assert more[at[i]] == remote[at[i]] && more[|remote|] == last;
    }
  }

  /**
    * The headers to fetch, for any two lists without repeated ids: in remote order, and those of which no local header
    * has both the id and the checksum.
    */
  lemma {:induction false} DiffHeadersIff(local: seq<Header>, remote: seq<Header>) returns (at: seq<nat>)
    requires DistinctIds(local) && DistinctIds(remote)
    ensures PickedAt(DiffHeaders(local, remote), remote, at)
    ensures forall a :: 0 <= a < |remote| ==>
              (remote[a].id in DiffHeaders(local, remote) <==> !Carries(local, remote[a].id, remote[a].checksum))
    decreases |remote|
  {
    if remote == [] {
      at := [];
    } else {
      var init, last := remote[..|remote| - 1], remote[|remote| - 1];
      assert remote == init + [last];
      at := DiffHeadersIff(local, init);
      ChecksumMapIff(local, last.id, last.checksum);
      PickNext(DiffHeaders(local, init), init, at, last);
      if !Carries(local, last.id, last.checksum) {
        at := at + [|init|];
      }
    }
  }

  lemma PickedIsListed(ids: seq<string>, remote: seq<Header>, at: seq<nat>)
    requires PickedAt(ids, remote, at)
    ensures ids != [] ==> exists a :: 0 <= a < |remote| && remote[a].id in ids
  {
    if ids != [] {
      assert remote[at[0]].id == ids[0] && ids[0] in ids;
    }
  }

  /** Two sides with the same headers have nothing to fetch. */
  lemma EqualHeadersNeedNothing(hs: seq<Header>)
    requires DistinctIds(hs)
    ensures DiffHeaders(hs, hs) == []
  {
    var at := DiffHeadersIff(hs, hs);
    var needed := DiffHeaders(hs, hs);
    forall a | 0 <= a < |hs|
      ensures hs[a].id !in needed
    {
      assert Carries(hs, hs[a].id, hs[a].checksum);
    }
    PickedIsListed(needed, hs, at);
  }

  /** What the checksum map knows comes from the local store. */
  lemma {:induction false} ChecksumMapIsLocal(s: Store, page: seq<string>, id: string)
    requires Elems(page) <= s.Keys && id in ChecksumMap(HeadersOf(s, page))
    ensures id in s && ChecksumMap(HeadersOf(s, page))[id] == OrEmpty(s[id].checksum)
  {
    if page == [] {
    } else {
      var init, last := page[..|page| - 1], page[|page| - 1];
      assert last in Elems(page) && Elems(init) <= Elems(page);
      assert HeadersOf(s, page)[..|page| - 1] == HeadersOf(s, init);
      if id != last {
        ChecksumMapIsLocal(s, init, id);
      }
    }
  }

  // ---- Concatenation -----------------------------------------------------

  lemma {:induction false} FetchConcat(s: Store, a: seq<string>, b: seq<string>)
    ensures FetchAll(s, a + b) == FetchAll(s, a) + FetchAll(s, b)
  {
    if b == [] {
      assert a + b == a;
      assert FetchAll(s, a) + [] == FetchAll(s, a);
    } else {
      FetchConcat(s, a, b[..|b| - 1]);
      assert (a + b)[..|a + b| - 1] == a + b[..|b| - 1];
    }
  }

  lemma {:induction false} ReceiveConcat(h: Hash, policy: Acceptance, s: Store, xs: seq<Item>, ys: seq<Item>)
    ensures ReceiveAll(h, policy, s, xs + ys) == ReceiveAll(h, policy, ReceiveAll(h, policy, s, xs), ys)
  {
    if ys == [] {
      assert xs + ys == xs;
    } else {
      ReceiveConcat(h, policy, s, xs, ys[..|ys| - 1]);
      assert (xs + ys)[..|xs + ys| - 1] == xs + ys[..|ys| - 1];
    }
  }

  // ---- A pull acts on each id separately ---------------------------------

  function Lookup(s: Store, id: string): Option<Row> { if id in s then Some(s[id]) else None }

  /** What receiving version `x` of an id makes of its row. */
  function Settled(h: Hash, policy: Acceptance, row: Option<Row>, x: Item): Option<Row> {
    if Admissible(h, policy, x)
       && (row.Some? ==> row.value.checksum != Some(x.checksum) && row.value.updatedAt < x.updatedAt)
    then Some(RowOf(h, x)) else row
  }

  predicate NoTombstones(s: Store) {
    forall id :: id in s ==> s[id].itemType != TOMBSTONE
  }

  /** Pulling a list of distinct ids settles each listed id on its own and leaves every other id alone. */
  lemma {:induction false} PullPointwise(h: Hash, policy: Acceptance, local: Store, remote: Store, ids: seq<string>,
                                         id: string)
    requires NoDup(ids) && Elems(ids) <= remote.Keys && NoTombstones(remote)
    ensures Lookup(ReceiveAll(h, policy, local, FetchAll(remote, ids)), id) ==
            if id in ids then Settled(h, policy, Lookup(local, id), FetchOf(id, remote[id])) else Lookup(local, id)
    decreases |ids|
  {
    if ids == [] {
    } else {
      var init, last := ids[..|ids| - 1], ids[|ids| - 1];
      assert last in Elems(ids) && Elems(init) <= Elems(ids);
      assert ids == init + [last];
      PullPointwise(h, policy, local, remote, init, id);
      var x := FetchOf(last, remote[last]);
      assert FetchAll(remote, ids) == FetchAll(remote, init) + [x];
      assert (FetchAll(remote, init) + [x])[..|FetchAll(remote, init)|] == FetchAll(remote, init);
      ReceiveRaises(h, policy, ReceiveAll(h, policy, local, FetchAll(remote, init)), x);
    }
  }

  // ---- Fetching the difference equals fetching everything ----------------

  /** The page without the ids whose local checksum already matches. */
  function NeededOf(known: map<string, string>, remote: Store, page: seq<string>): seq<string>
    requires Elems(page) <= remote.Keys
  {
    Differing(known, HeadersOf(remote, page))
  }

  lemma {:induction false} NeededStep(known: map<string, string>, remote: Store, page: seq<string>)
    requires Elems(page) <= remote.Keys && page != []
    ensures var init, last := page[..|page| - 1], page[|page| - 1];
            && last in remote && Elems(init) <= remote.Keys
            && NeededOf(known, remote, page) ==
               NeededOf(known, remote, init) + (if Needs(known, HeaderOf(remote, last)) then [last] else [])
  {
    var init, last := page[..|page| - 1], page[|page| - 1];
    assert last in Elems(page) && Elems(init) <= Elems(page);
    assert HeadersOf(remote, page)[..|page| - 1] == HeadersOf(remote, init);
  }

  lemma {:induction false} NeededIsSublist(known: map<string, string>, remote: Store, page: seq<string>)
    requires Elems(page) <= remote.Keys && NoDup(page)
    ensures NoDup(NeededOf(known, remote, page)) && Elems(NeededOf(known, remote, page)) <= Elems(page)
    ensures forall id :: id in page ==> (id in NeededOf(known, remote, page) <==> Needs(known, HeaderOf(remote, id)))
  {
    if page == [] {
    } else {
      var init, last := page[..|page| - 1], page[|page| - 1];
      NeededStep(known, remote, page);
      NeededIsSublist(known, remote, init);
      assert page == init + [last];
      assert last !in Elems(init);
      assert Elems(page) == Elems(init) + {last};
      var tail := if Needs(known, HeaderOf(remote, last)) then [last] else [];
      NoDupConcat(NeededOf(known, remote, init), tail);
    }
  }

  /**
    * For any two stores and any two pages of them, receiving only the differing items leaves the store that receiving
    * the whole remote page would.
    */
  lemma DiffRefinesFullCopy(h: Hash, policy: Acceptance, local: Store, remote: Store, localPage: seq<string>,
                            page: seq<string>)
    requires StoreOk(h, local) && NoTombstones(remote)
    requires Elems(localPage) <= local.Keys && Elems(page) <= remote.Keys && NoDup(page)
    ensures ReceiveAll(h, policy, local, FetchAll(remote, DiffHeaders(HeadersOf(local, localPage),
              HeadersOf(remote, page)))) ==
            ReceiveAll(h, policy, local, FetchAll(remote, page))
  {
    var known := ChecksumMap(HeadersOf(local, localPage));
    var needed := NeededOf(known, remote, page);
    NeededIsSublist(known, remote, page);
    var r, r' := ReceiveAll(h, policy, local, FetchAll(remote, needed)),
      ReceiveAll(h, policy, local, FetchAll(remote, page));
    forall id
      ensures Lookup(r, id) == Lookup(r', id)
    {
      PullPointwise(h, policy, local, remote, needed, id);
      PullPointwise(h, policy, local, remote, page, id);
      if id in page && id !in needed {
        assert id in Elems(page);
        ChecksumMapIsLocal(local, localPage, id);
      } else {
        assert id in needed ==> id in Elems(needed);
      }
    }
    SameLookups(r, r');
  }

  lemma SameLookups(r: Store, r': Store)
    requires forall id :: Lookup(r, id) == Lookup(r', id)
    ensures r == r'
  {
    assert forall id :: id in r <==> Lookup(r, id).Some?;
    assert forall id :: id in r' <==> Lookup(r', id).Some?;
    forall id | id in r
      ensures id in r' && r[id] == r'[id]
    {
      assert Lookup(r, id) == Lookup(r', id);
    }
  }

  // ---- The round itself --------------------------------------------------

  /** The newest date on a page. */
  method LatestDate(headers: seq<Header>) returns (latest: Option<Timestamp>)
    ensures latest.None? <==> headers == []
    ensures latest.Some? ==> (exists i :: 0 <= i < |headers| && headers[i].updatedAt == latest.value)
                             && forall i :: 0 <= i < |headers| ==> headers[i].updatedAt <= latest.value
  {
    latest := None;
    for i := 0 to |headers|
      invariant latest.None? <==> i == 0
      invariant latest.Some? ==> (exists k :: 0 <= k < i && headers[k].updatedAt == latest.value)
                                 && forall k :: 0 <= k < i ==> headers[k].updatedAt <= latest.value
    {
      if latest.None? || latest.value < headers[i].updatedAt {
        latest := Some(headers[i].updatedAt);
      }
    }
  }

  method ReceiveBatch(h: Hash, policy: Acceptance, local: Storage, items: seq<Item>)
    returns (stored: nat, rejected: nat, duplicate: nat)
    modifies local`items, local`accessLog
    ensures local.items == ReceiveAll(h, policy, old(local.items), items)
    ensures Counts(stored, duplicate, rejected) == Tally(h, policy, old(local.items), items)
  {
    ghost var before := local.items;
    stored, rejected, duplicate := 0, 0, 0;
    for i := 0 to |items|
      invariant local.items == ReceiveAll(h, policy, before, items[..i])
      invariant Counts(stored, duplicate, rejected) == Tally(h, policy, before, items[..i])
    {
      assert items[..i + 1][..i] == items[..i];
      var outcome := local.OnReceive(h, policy, items[i]);
      match outcome
      case Stored => stored := stored + 1;
      case Duplicate => duplicate := duplicate + 1;
      case Rejected(_) => rejected := rejected + 1;
    }
    assert items[..|items|] == items;
  }

  /** Fetches the ids in chunks and receives each chunk as it arrives, until all are in or a request is not answered. */
  method FetchInChunks(h: Hash, policy: Acceptance, local: Storage, remote: Storage, ids: seq<string>, size: nat,
                       answered: nat)
    returns (done: nat)
    requires local != remote && (ids != [] ==> size > 0)
    modifies local`items, local`accessLog
    ensures done <= |ids| && (answered >= |ids| ==> done == |ids|)
    ensures local.items == ReceiveAll(h, policy, old(local.items), FetchAll(remote.items, ids[..done]))
  {
    ghost var before := local.items;
    var requests := 0;
    done := 0;
    while done < |ids| && requests < answered
      invariant 0 <= done <= |ids| && requests <= answered && (done < |ids| ==> requests <= done)
      invariant local.items == ReceiveAll(h, policy, before, FetchAll(remote.items, ids[..done]))
      decreases |ids| - done
    {
      var next := Min(done + size, |ids|);
      var chunk := ids[done..next];
      var items := remote.HandleFetch(chunk);
      assert ids[..next] == ids[..done] + chunk;
      FetchConcat(remote.items, ids[..done], chunk);
      ReceiveConcat(h, policy, before, FetchAll(remote.items, ids[..done]), items);
      var _, _, _ := ReceiveBatch(h, policy, local, items);
      requests := requests + 1;
      done := next;
    }
  }

  /** How a round ended, and what it read. */
  datatype Ending = NoPeer | Failed | Done(latest: Option<Timestamp>)

  /** The newest date on the page, if it has any. */
  ghost predicate IsLatest(s: Store, page: seq<string>, latest: Option<Timestamp>)
    requires Elems(page) <= s.Keys
  {
    && (latest.None? <==> page == [])
    && (latest.Some? ==> (exists id :: id in Elems(page) && s[id].updatedAt == latest.value)
                         && forall id :: id in Elems(page) ==> s[id].updatedAt <= latest.value)
  }

  /**
    * One round. Without a peer nothing happens. If a request is not answered, `answered` being the number of those that
    * are, only the items fetched until then have been received. Otherwise the round leaves the store that receiving the
    * peer's whole page would, and reports the page's newest date. What is on the local page under the peer's checksum
    * is not fetched, and everything else on the peer's page is.
    */
  method RunAntiEntropy(h: Hash, policy: Acceptance, local: Storage, peer: Storage?, g: string,
                        since: Option<Timestamp>, limit: nat, answered: nat)
    returns (ending: Ending, ghost page: seq<string>, ghost fetched: seq<string>, ghost ours: seq<string>)
    requires local != peer && StoreOk(h, local.items) && (peer != null ==> NoTombstones(peer.items))
    modifies local`items, local`accessLog
    ensures ending.NoPeer? <==> peer == null
    ensures peer == null ==> local.items == old(local.items)
    ensures peer != null ==> local.items == ReceiveAll(h, policy, old(local.items), FetchAll(peer.items, fetched))
    ensures peer != null ==>
              IsPage(peer.items, g, since, limit, page) && Elems(fetched) <= Elems(page) <= peer.items.Keys
    ensures ending.Done? ==> local.items == ReceiveAll(h, policy, old(local.items), FetchAll(peer.items, page))
    ensures ending.Done? ==> IsLatest(peer.items, page, ending.latest)
    ensures peer != null && answered > |page| ==> ending.Done?
    ensures peer != null && answered > 0 ==> IsPage(old(local.items), g, since, limit, ours)
    ensures peer != null ==> FetchesNoneTwice(old(local.items), ours, peer.items, fetched)
    ensures ending.Done? ==> FetchesTheRest(old(local.items), ours, peer.items, page, fetched)
  {
    if peer == null {
      ending, page, fetched, ours := NoPeer, [], [], [];
    } else {
      ending, page, fetched, ours := SyncWith(h, policy, local, peer, g, since, limit, answered);
    }
  }

  method SyncWith(h: Hash, policy: Acceptance, local: Storage, peer: Storage, g: string, since: Option<Timestamp>,
                  limit: nat, answered: nat)
    returns (ending: Ending, ghost page: seq<string>, ghost fetched: seq<string>, ghost ours: seq<string>)
    requires local != peer && StoreOk(h, local.items) && NoTombstones(peer.items)
    modifies local`items, local`accessLog
    ensures !ending.NoPeer? && (answered > |page| ==> ending.Done?)
    ensures local.items == ReceiveAll(h, policy, old(local.items), FetchAll(peer.items, fetched))
    ensures IsPage(peer.items, g, since, limit, page) && Elems(fetched) <= Elems(page) <= peer.items.Keys
    ensures ending.Done? ==> local.items == ReceiveAll(h, policy, old(local.items), FetchAll(peer.items, page))
    ensures ending.Done? ==> IsLatest(peer.items, page, ending.latest)
    ensures answered > 0 ==> IsPage(old(local.items), g, since, limit, ours)
    ensures FetchesNoneTwice(old(local.items), ours, peer.items, fetched)
    ensures ending.Done? ==> FetchesTheRest(old(local.items), ours, peer.items, page, fetched)
  {
    var remoteHeaders;
    remoteHeaders, page := ListGroupItems(peer, g, since, limit);
    fetched, ours := [], [];
    if answered == 0 {
      assert FetchAll(peer.items, []) == [] && ReceiveAll(h, policy, local.items, []) == local.items;
      return Failed, page, [], [];
    }
    var latest := LatestDate(remoteHeaders);
    PageLatest(peer.items, page, latest);
    var localHeaders;
    localHeaders, ours := ListGroupItems(local, g, since, limit);
    var needed := DiffHeaders(localHeaders, remoteHeaders);
    DiffIsPlan(h, policy, local.items, ours, peer.items, g, since, limit, page);
    var done;
    done, fetched := FetchNeeded(h, policy, local, peer, needed, limit, answered - 1, ours, page);
    ending := if done then Done(latest) else Failed;
  }

  /** Carries the plan out, request by request, unless there is nothing to fetch. */
  method FetchNeeded(h: Hash, policy: Acceptance, local: Storage, peer: Storage, needed: seq<string>, limit: nat,
                     answered: nat, ghost ours: seq<string>, ghost page: seq<string>)
    returns (done: bool, ghost fetched: seq<string>)
    requires local != peer && (needed != [] ==> limit > 0)
    requires IsPlan(h, policy, local.items, ours, peer.items, page, needed)
    modifies local`items, local`accessLog
    ensures answered >= |page| ==> done
    ensures local.items == ReceiveAll(h, policy, old(local.items), FetchAll(peer.items, fetched))
    ensures Elems(fetched) <= Elems(page) && FetchesNoneTwice(old(local.items), ours, peer.items, fetched)
    ensures done ==> local.items == ReceiveAll(h, policy, old(local.items), FetchAll(peer.items, page))
    ensures done ==> FetchesTheRest(old(local.items), ours, peer.items, page, fetched)
  {
    if needed == [] {
      assert FetchAll(peer.items, []) == [] && ReceiveAll(h, policy, local.items, []) == local.items;
      return true, [];
    }
    var count := FetchInChunks(h, policy, local, peer, needed, limit, answered);
    fetched := needed[..count];
    FetchedSoFar(old(local.items), ours, peer.items, needed, count);
    done := count == |needed|;
    assert done ==> fetched == needed;
  }

  /** Fetching these ids is as good as fetching the page, and they are none but those that differ. */
  ghost predicate IsPlan(h: Hash, policy: Acceptance, local: Store, ours: seq<string>, remote: Store, page: seq<string>,
                         needed: seq<string>) {
    && ReceiveAll(h, policy, local, FetchAll(remote, needed)) == ReceiveAll(h, policy, local, FetchAll(remote, page))
    && Elems(needed) <= Elems(page) && |needed| <= |page|
    && FetchesNoneTwice(local, ours, remote, needed) && FetchesTheRest(local, ours, remote, page, needed)
  }

  lemma DiffIsPlan(h: Hash, policy: Acceptance, local: Store, ours: seq<string>, remote: Store, g: string,
                   since: Option<Timestamp>, limit: nat, page: seq<string>)
    requires StoreOk(h, local) && NoTombstones(remote)
    requires IsPage(local, g, since, limit, ours) && Elems(ours) <= local.Keys
    requires IsPage(remote, g, since, limit, page) && Elems(page) <= remote.Keys
    ensures var needed := DiffHeaders(HeadersOf(local, ours), HeadersOf(remote, page));
            IsPlan(h, policy, local, ours, remote, page, needed) && (needed != [] ==> limit > 0)
  {
    DiffRefinesFullCopy(h, policy, local, remote, ours, page);
    NeededIff(local, ours, remote, page);
    NeededInPage(ChecksumMap(HeadersOf(local, ours)), remote, page);
    if DiffHeaders(HeadersOf(local, ours), HeadersOf(remote, page)) != [] {
      PageNeedsRoom(remote, g, since, limit, page, HeadersOf(local, ours));
    }
  }

  /** The id is on our page under the checksum that the peer has for it. */
  predicate SameOnPage(local: Store, ours: seq<string>, remote: Store, id: string) {
    id in ours && id in local && id in remote && OrEmpty(local[id].checksum) == OrEmpty(remote[id].checksum)
  }

  /** Nothing is fetched that we list under the peer's checksum. */
  ghost predicate FetchesNoneTwice(local: Store, ours: seq<string>, remote: Store, fetched: seq<string>) {
    forall id :: id in fetched ==> !SameOnPage(local, ours, remote, id)
  }

  /** Everything else on the peer's page is fetched. */
  ghost predicate FetchesTheRest(local: Store, ours: seq<string>, remote: Store, page: seq<string>,
                                 fetched: seq<string>) {
    forall id :: id in page && !SameOnPage(local, ours, remote, id) ==> id in fetched
  }

  lemma FetchedSoFar(local: Store, ours: seq<string>, remote: Store, needed: seq<string>, done: nat)
    requires FetchesNoneTwice(local, ours, remote, needed) && done <= |needed|
    ensures FetchesNoneTwice(local, ours, remote, needed[..done]) && Elems(needed[..done]) <= Elems(needed)
  {
    assert forall id :: id in needed[..done] ==> id in needed;
  }

  lemma HeadersAreDistinct(s: Store, page: seq<string>)
    requires Elems(page) <= s.Keys && NoDup(page)
    ensures DistinctIds(HeadersOf(s, page))
  {
  }

  lemma CarriesIff(s: Store, page: seq<string>, id: string, checksum: string)
    requires Elems(page) <= s.Keys
    ensures Carries(HeadersOf(s, page), id, checksum) <==> id in page && id in s && OrEmpty(s[id].checksum) == checksum
  {
    var hs := HeadersOf(s, page);
    if id in page && id in s && OrEmpty(s[id].checksum) == checksum {
      var i :| 0 <= i < |page| && page[i] == id;
      assert hs[i].id == id && hs[i].checksum == checksum;
    }
  }

  /** Of the peer's page exactly those ids are asked for that are not on ours under the same checksum. */
  lemma NeededIff(local: Store, ours: seq<string>, remote: Store, page: seq<string>)
    requires Elems(ours) <= local.Keys && NoDup(ours) && Elems(page) <= remote.Keys && NoDup(page)
    ensures var needed := DiffHeaders(HeadersOf(local, ours), HeadersOf(remote, page));
            && FetchesNoneTwice(local, ours, remote, needed) && FetchesTheRest(local, ours, remote, page, needed)
            && (forall id :: id in needed ==> id in page)
  {
    var mine, theirs := HeadersOf(local, ours), HeadersOf(remote, page);
    HeadersAreDistinct(local, ours);
    HeadersAreDistinct(remote, page);
    var at := DiffHeadersIff(mine, theirs);
    var needed := DiffHeaders(mine, theirs);
    forall id | id in page
      ensures id in needed <==> !SameOnPage(local, ours, remote, id)
    {
      var a :| 0 <= a < |page| && page[a] == id;
      assert theirs[a].id == id;
      CarriesIff(local, ours, id, theirs[a].checksum);
    }
    forall id | id in needed
      ensures id in page
    {
      var i :| 0 <= i < |needed| && needed[i] == id;
      assert page[at[i]] == id;
    }
  }

  lemma NeededInPage(known: map<string, string>, remote: Store, page: seq<string>)
    requires Elems(page) <= remote.Keys && NoDup(page)
    ensures Elems(Differing(known, HeadersOf(remote, page))) <= Elems(page)
            && |Differing(known, HeadersOf(remote, page))| <= |page|
  {
    var needed := NeededOf(known, remote, page);
    NeededIsSublist(known, remote, page);
    NoDupCardinality(needed);
    NoDupCardinality(page);
    SubsetCardinality(Elems(needed), Elems(page));
  }

  lemma PageLatest(s: Store, page: seq<string>, latest: Option<Timestamp>)
    requires Elems(page) <= s.Keys
    requires latest.None? <==> page == []
    requires latest.Some? ==> (exists i :: 0 <= i < |page| && HeadersOf(s, page)[i].updatedAt == latest.value)
                              && forall i :: 0 <= i < |page| ==> HeadersOf(s, page)[i].updatedAt <= latest.value
    ensures IsLatest(s, page, latest)
  {
    assert forall i :: 0 <= i < |page| ==>
                         page[i] in Elems(page) && HeadersOf(s, page)[i].updatedAt == s[page[i]].updatedAt;
  }

  lemma PageNeedsRoom(s: Store, g: string, since: Option<Timestamp>, limit: nat, page: seq<string>, local: seq<Header>)
    requires IsPage(s, g, since, limit, page) && Elems(page) <= s.Keys
    requires DiffHeaders(local, HeadersOf(s, page)) != []
    ensures limit > 0
  {
    NoDupCardinality(page);
    assert limit == 0 ==> |page| == 0;
  }
}
