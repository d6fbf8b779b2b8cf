/** Items, the keyed store, and last-writer-wins receipt of replicated items. */
module Replication {
  import opened Collections
  import opened Era

  newtype Byte = x: int | 0 <= x < 256
  type Blob = seq<Byte>
  /** `updated_at` texts are compared only; see module Texts for why reals stand for them. */
  type Timestamp = real
  /** SHA-256 as hexadecimal text, kept uninterpreted. */
  type Hash = Blob -> string

  const TOMBSTONE: string := "__tombstone__"

  datatype Item = Item(
    id: string,
    itemType: string,
    blob: Blob,
    checksum: string,
    author: string,
    group: string,
    keyVersion: nat,
    parent: Option<string>,
    isCopy: bool,
    updatedAt: Timestamp)

  datatype Row = Row(
    itemType: string,
    data: Blob,
    checksum: Option<string>,
    owner: Option<string>,
    visibility: string,
    group: Option<string>,
    author: Option<string>,
    keyVersion: int,
    parent: Option<string>,
    isCopy: bool,
    updatedAt: Timestamp)

  type Store = map<string, Row>

  datatype Posture = Transparent | Dynamic | Explicit

  /** Whose items a node takes: its own groups', or what its relay posture lets through. */
  datatype Acceptance =
    | Member(groups: seq<string>)
    | Relay(posture: Posture, accepted: set<string>, blocked: set<string>)
  {
    predicate Accepts(group: string) {
      match this
      case Member(groups) => group in groups
      case Relay(posture, accepted, blocked) => group !in blocked && (posture == Transparent || group in accepted)
    }
  }

  datatype Reason = TooLarge | NotAccepted | BadChecksum
  datatype Outcome = Stored | Duplicate | Rejected(reason: Reason)

  // ---- Conversions -------------------------------------------------------

  /** `u32 as i32`: reinterpreted as two's complement. */
  function ToI32(u: nat): int {
    if u % 0x1_0000_0000 < 0x8000_0000 then u % 0x1_0000_0000 else u % 0x1_0000_0000 - 0x1_0000_0000
  }

  /** `i32 as u32`. */
  function ToU32(i: int): nat { i % 0x1_0000_0000 }

  /** The row written for a received item; storage computes the checksum itself. */
  function RowOf(h: Hash, x: Item): Row {
    Row(x.itemType, x.blob, Some(h(x.blob)), None, "group", Some(x.group), Some(x.author), ToI32(x.keyVersion),
      x.parent, x.isCopy, x.updatedAt)
  }

  function OrEmpty(o: Option<string>): string { if o.Some? then o.value else "" }

  /** The item served for a row. */
  function FetchOf(id: string, row: Row): Item {
    Item(id, row.itemType, row.data, OrEmpty(row.checksum), OrEmpty(row.author), OrEmpty(row.group),
      ToU32(row.keyVersion),
         row.parent, row.isCopy, row.updatedAt)
  }

  // ---- Receipt -----------------------------------------------------------

  function Receive(h: Hash, policy: Acceptance, s: Store, x: Item): (Store, Outcome) {
    if |x.blob| > MAX_ITEM_BYTES then (s, Rejected(TooLarge))
    else if !policy.Accepts(x.group) then (s, Rejected(NotAccepted))
    else if x.itemType == TOMBSTONE then (if x.id in s then (s - {x.id}, Stored) else (s, Duplicate))
    else if h(x.blob) != x.checksum then (s, Rejected(BadChecksum))
    else if x.id in s && (s[x.id].checksum == Some(x.checksum) || s[x.id].updatedAt >= x.updatedAt) then (s, Duplicate)
    else (s[x.id := RowOf(h, x)], Stored)
  }

  function ReceiveAll(h: Hash, policy: Acceptance, s: Store, xs: seq<Item>): Store {
    if xs == [] then s
    else Receive(h, policy, ReceiveAll(h, policy, s, xs[..|xs| - 1]), xs[|xs| - 1]).0
  }

  /** How many items of a batch were stored, were duplicates, were rejected. */
  datatype Counts = Counts(stored: nat, duplicate: nat, rejected: nat)

  function CountedIn(c: Counts, o: Outcome): Counts {
    match o
    case Stored => c.(stored := c.stored + 1)
    case Duplicate => c.(duplicate := c.duplicate + 1)
    case Rejected(_) => c.(rejected := c.rejected + 1)
  }

  function Tally(h: Hash, policy: Acceptance, s: Store, xs: seq<Item>): Counts {
    if xs == [] then Counts(0, 0, 0)
    else
      var init, last := xs[..|xs| - 1], xs[|xs| - 1];
      CountedIn(Tally(h, policy, s, init), Receive(h, policy, ReceiveAll(h, policy, s, init), last).1)
  }

  /** What becomes of each item of a batch, in order. */
  function Outcomes(h: Hash, policy: Acceptance, s: Store, xs: seq<Item>): seq<Outcome> {
    if xs == [] then []
    else
      var init, last := xs[..|xs| - 1], xs[|xs| - 1];
      Outcomes(h, policy, s, init) + [Receive(h, policy, ReceiveAll(h, policy, s, init), last).1]
  }

  lemma {:induction false} OutcomesAreReceipts(h: Hash, policy: Acceptance, s: Store, xs: seq<Item>, i: nat)
    requires i < |xs|
    ensures |Outcomes(h, policy, s, xs)| == |xs|
    ensures Outcomes(h, policy, s, xs)[i] == Receive(h, policy, ReceiveAll(h, policy, s, xs[..i]), xs[i]).1
    decreases |xs|
  {
    var init := xs[..|xs| - 1];
    if init != [] {
      OutcomesAreReceipts(h, policy, s, init, if i < |init| then i else 0);
    }
    if i < |init| {
      assert init[..i] == xs[..i];
    } else {
      assert xs[..i] == init;
    }
  }

  function Storing(): Outcome -> bool { (o: Outcome) => o.Stored? }
  function Repeating(): Outcome -> bool { (o: Outcome) => o.Duplicate? }
  function Rejecting(): Outcome -> bool { (o: Outcome) => o.Rejected? }

  /** The tally counts each outcome where it occurs, and every item once. */
  lemma {:induction false} TallyCounts(h: Hash, policy: Acceptance, s: Store, xs: seq<Item>)
    ensures var t, os := Tally(h, policy, s, xs), Outcomes(h, policy, s, xs);
            && t == Counts(Count(Storing(), os), Count(Repeating(), os), Count(Rejecting(), os))
            && t.stored + t.duplicate + t.rejected == |xs|
    decreases |xs|
  {
    if xs == [] {
    } else {
      var init := xs[..|xs| - 1];
      TallyCounts(h, policy, s, init);
      var os := Outcomes(h, policy, s, xs);
      assert os[..|os| - 1] == Outcomes(h, policy, s, init);
    }
  }

  /** Everything but the stored version speaks for taking the item. */
  predicate Admissible(h: Hash, policy: Acceptance, x: Item) {
    |x.blob| <= MAX_ITEM_BYTES && policy.Accepts(x.group) && x.itemType != TOMBSTONE && h(x.blob) == x.checksum
  }

  class Storage {
    var items: Store
    var accessLog: seq<(string, string)>

    constructor ()
      ensures items == map[] && accessLog == []
    {
      items := map[];
      accessLog := [];
    }

    method WriteItem(h: Hash, id: string, row: Row)
      modifies this`items
      ensures items == old(items)[id := row.(checksum := Some(h(row.data)))]
    {
      items := items[id := row.(checksum := Some(h(row.data)))];
    }

    method DeleteItem(id: string) returns (found: bool)
      modifies this`items
      ensures items == old(items) - {id} && found == (id in old(items))
    {
      found := id in items;
      items := items - {id};
    }

    /** The early-return chain of the replication engine. */
    method OnReceive(h: Hash, policy: Acceptance, x: Item) returns (outcome: Outcome)
      modifies this`items, this`accessLog
      ensures (items, outcome) == Receive(h, policy, old(items), x)
      ensures accessLog ==
              old(accessLog) + if outcome.Stored? && x.itemType != TOMBSTONE then [(x.author, x.id)] else []
    {
      if |x.blob| > MAX_ITEM_BYTES {
        return Rejected(TooLarge);
      }
      if !policy.Accepts(x.group) {
        return Rejected(NotAccepted);
      }
      if x.itemType == TOMBSTONE {
        var found := DeleteItem(x.id);
        assert x.id !in old(items) ==> old(items) - {x.id} == old(items);
        return if found then Stored else Duplicate;
      }
      if h(x.blob) != x.checksum {
        return Rejected(BadChecksum);
      }
      if x.id in items {
        var existing := items[x.id];
        if existing.checksum == Some(x.checksum) {
          return Duplicate;
        }
        if existing.updatedAt >= x.updatedAt {
          return Duplicate;
        }
      }
      WriteItem(h, x.id, Row(x.itemType, x.blob, None, None, "group", Some(x.group), Some(x.author),
                             ToI32(x.keyVersion), x.parent, x.isCopy, x.updatedAt));
      accessLog := accessLog + [(x.author, x.id)];
      return Stored;
    }

    /** Items found under the requested ids, in request order; unknown ids are skipped. */
    method HandleFetch(ids: seq<string>) returns (found: seq<Item>)
      ensures found == FetchAll(items, ids)
    {
      found := [];
      for i := 0 to |ids|
        invariant found == FetchAll(items, ids[..i])
      {
        assert ids[..i + 1][..i] == ids[..i];
        if ids[i] in items {
          found := found + [FetchOf(ids[i], items[ids[i]])];
        }
      }
      assert ids[..|ids|] == ids;
    }
  }

  function FetchAll(s: Store, ids: seq<string>): seq<Item> {
    if ids == [] then []
    else
      var last := ids[|ids| - 1];
      FetchAll(s, ids[..|ids| - 1]) + (if last in s then [FetchOf(last, s[last])] else [])
  }

  // ---- The stored timestamp never falls ----------------------------------

  /** `later` has at least the rows of `earlier`, each at least as new. */
  predicate AtLeast(later: Store, earlier: Store) {
    forall id :: id in earlier ==> id in later && later[id].updatedAt >= earlier[id].updatedAt
  }

  /**
    * A non-tombstone is stored exactly when it raises that id's timestamp under a new checksum; nothing else changes.
    */
  lemma ReceiveRaises(h: Hash, policy: Acceptance, s: Store, x: Item)
    requires x.itemType != TOMBSTONE
    ensures var (s', outcome) := Receive(h, policy, s, x);
            && AtLeast(s', s)
            && (outcome.Stored? <==>
                && Admissible(h, policy, x)
                && (x.id in s ==> s[x.id].updatedAt < x.updatedAt && s[x.id].checksum != Some(x.checksum)))
            && (outcome.Stored? ==> s' == s[x.id := RowOf(h, x)])
            && (!outcome.Stored? ==> s' == s)
  {
  }

  lemma {:induction false} ReceiveAllRaises(h: Hash, policy: Acceptance, s: Store, xs: seq<Item>)
    requires forall x :: x in xs ==> x.itemType != TOMBSTONE
    ensures AtLeast(ReceiveAll(h, policy, s, xs), s)
  {
    if xs != [] {
      ReceiveAllRaises(h, policy, s, xs[..|xs| - 1]);
      ReceiveRaises(h, policy, ReceiveAll(h, policy, s, xs[..|xs| - 1]), xs[|xs| - 1]);
    }
  }

  // ---- Receipt is order independent --------------------------------------

  /** Per id, checksum and timestamp determine each other, among the items and against the store. */
  predicate Coherent(s: Store, xs: set<Item>) {
    && (forall x, y :: x in xs && y in xs && x.id == y.id ==>
       (x.updatedAt == y.updatedAt <==> x.checksum == y.checksum))
    && (forall x :: x in xs && x.id in s ==> (s[x.id].updatedAt == x.updatedAt
       <==> s[x.id].checksum == Some(x.checksum)))
  }

  predicate AllAdmissible(h: Hash, policy: Acceptance, xs: set<Item>) {
    forall x :: x in xs ==> Admissible(h, policy, x)
  }

  /** `r` holds, for every id, the newest of the row in `s` and the versions in `xs`; `s` wins ties. */
  ghost predicate NewestOf(h: Hash, s: Store, xs: set<Item>, r: Store) {
    && AtLeast(r, s)
    && (forall x :: x in xs ==> x.id in r && r[x.id].updatedAt >= x.updatedAt)
    && (forall id :: id in r ==> (id in s && r[id] == s[id]) || Won(h, s, xs, r, id))
  }

  ghost predicate Won(h: Hash, s: Store, xs: set<Item>, r: Store, id: string)
    requires id in r
  {
    exists x :: x in xs && x.id == id && r[id] == RowOf(h, x) && (id in s ==> s[id].updatedAt < x.updatedAt)
  }

  lemma SameChecksumSameDate(h: Hash, policy: Acceptance, s: Store, xs: set<Item>, r: Store, x: Item)
    requires NewestOf(h, s, xs, r) && Coherent(s, xs + {x}) && AllAdmissible(h, policy, xs + {x})
    requires x.id in r && r[x.id].checksum == Some(x.checksum)
    ensures r[x.id].updatedAt == x.updatedAt
  {
    assert x in xs + {x};
    if !(x.id in s && r[x.id] == s[x.id]) {
      assert Won(h, s, xs, r, x.id);
      var y :| y in xs && y.id == x.id && r[x.id] == RowOf(h, y) && (x.id in s ==> s[x.id].updatedAt < y.updatedAt);
      assert y in xs + {x} && Admissible(h, policy, y);
    }
  }

  lemma WonAmongMore(h: Hash, s: Store, xs: set<Item>, r: Store, x: Item, r': Store, id: string)
    requires id in r && Won(h, s, xs, r, id) && id in r' && r'[id] == r[id]
    ensures Won(h, s, xs + {x}, r', id)
  {
    var y :| y in xs && y.id == id && r[id] == RowOf(h, y) && (id in s ==> s[id].updatedAt < y.updatedAt);
    assert y in xs + {x};
  }

  lemma NewestStep(h: Hash, policy: Acceptance, s: Store, xs: set<Item>, r: Store, x: Item)
    requires NewestOf(h, s, xs, r) && Coherent(s, xs + {x}) && AllAdmissible(h, policy, xs + {x})
    ensures NewestOf(h, s, xs + {x}, Receive(h, policy, r, x).0)
  {
    var r' := Receive(h, policy, r, x).0;
    assert x in xs + {x} && Admissible(h, policy, x);
    ReceiveRaises(h, policy, r, x);
    if x.id in r && r[x.id].checksum == Some(x.checksum) {
      SameChecksumSameDate(h, policy, s, xs, r, x);
    }
    forall id | id in r'
      ensures (id in s && r'[id] == s[id]) || Won(h, s, xs + {x}, r', id)
    {
      if id in r && r'[id] == r[id] {
        if !(id in s && r[id] == s[id]) {
          WonAmongMore(h, s, xs, r, x, r', id);
        }
      }
    }
  }

  /** Receiving versions in any order, with any repetition, leaves the newest version of every id. */
  lemma {:induction false} NewestWins(h: Hash, policy: Acceptance, s: Store, xs: seq<Item>)
    requires Coherent(s, Elems(xs)) && AllAdmissible(h, policy, Elems(xs))
    ensures NewestOf(h, s, Elems(xs), ReceiveAll(h, policy, s, xs))
    decreases |xs|
  {
    if xs == [] {
    } else {
      var init, last := xs[..|xs| - 1], xs[|xs| - 1];
      assert xs == init + [last];
      assert Elems(xs) == Elems(init) + {last};
      NewestWins(h, policy, s, init);
      NewestStep(h, policy, s, Elems(init), ReceiveAll(h, policy, s, init), last);
    }
  }

  /** Among these versions of an id, a date names one item. */
  predicate OneItemPerDate(xs: set<Item>) {
    forall x, y :: x in xs && y in xs && x.id == y.id && x.updatedAt == y.updatedAt ==> x == y
  }

  /** There is only one newest outcome, up to what the timestamps leave open. */
  lemma NewestIsUnique(h: Hash, policy: Acceptance, s: Store, xs: set<Item>, r: Store, r': Store, id: string)
    requires NewestOf(h, s, xs, r) && NewestOf(h, s, xs, r')
    requires Coherent(s, xs) && AllAdmissible(h, policy, xs) && id in r
    ensures id in r' && r[id].updatedAt == r'[id].updatedAt && r[id].checksum == r'[id].checksum
    ensures OneItemPerDate(xs) ==> r[id] == r'[id]
  {
    if id in s && r[id] == s[id] {
      assert id in r' && forall y :: y in xs && y.id == id ==> y.updatedAt <= s[id].updatedAt;
    } else {
      var x :| x in xs && x.id == id && r[id] == RowOf(h, x) && (id in s ==> s[id].updatedAt < x.updatedAt);
      assert id in r' && r'[id].updatedAt >= x.updatedAt;
      var y :| y in xs && y.id == id && r'[id] == RowOf(h, y) && (id in s ==> s[id].updatedAt < y.updatedAt);
      assert Admissible(h, policy, x) && Admissible(h, policy, y);
    }
  }

  /** The same ids, each in the same version. */
  predicate SameVersions(r: Store, r': Store) {
    && r.Keys == r'.Keys
    && forall id :: id in r ==> r[id].updatedAt == r'[id].updatedAt && r[id].checksum == r'[id].checksum
  }

  lemma NewestAgree(h: Hash, policy: Acceptance, s: Store, xs: set<Item>, r: Store, r': Store)
    requires NewestOf(h, s, xs, r) && NewestOf(h, s, xs, r') && Coherent(s, xs) && AllAdmissible(h, policy, xs)
    ensures SameVersions(r, r') && (OneItemPerDate(xs) ==> r == r')
  {
    forall id | id in r
      ensures id in r' && r[id].updatedAt == r'[id].updatedAt && r[id].checksum == r'[id].checksum
      ensures OneItemPerDate(xs) ==> r[id] == r'[id]
    {
      NewestIsUnique(h, policy, s, xs, r, r', id);
    }
    forall id | id in r'
      ensures id in r
    {
      NewestIsUnique(h, policy, s, xs, r', r, id);
    }
  }

  /**
    * Two deliveries of the same set of versions end in the same versions; in the same rows if a timestamp names one
    * item.
    */
  lemma OrderIndependent(h: Hash, policy: Acceptance, s: Store, xs: seq<Item>, ys: seq<Item>)
    requires Elems(xs) == Elems(ys)
    requires Coherent(s, Elems(xs)) && AllAdmissible(h, policy, Elems(xs))
    ensures SameVersions(ReceiveAll(h, policy, s, xs), ReceiveAll(h, policy, s, ys))
    ensures OneItemPerDate(Elems(xs)) ==> ReceiveAll(h, policy, s, xs) == ReceiveAll(h, policy, s, ys)
  {
    NewestWins(h, policy, s, xs);
    NewestWins(h, policy, s, ys);
    NewestAgree(h, policy, s, Elems(xs), ReceiveAll(h, policy, s, xs), ReceiveAll(h, policy, s, ys));
  }

  /**
    * Without coherence order does matter: two versions of a fresh id commute exactly when both tests tell them apart.
    */
  lemma PairCommutesIff(h: Hash, policy: Acceptance, s: Store, x: Item, y: Item)
    requires Admissible(h, policy, x) && Admissible(h, policy, y) && x.id == y.id && x.id !in s
    ensures ReceiveAll(h, policy, s, [x, y]) == ReceiveAll(h, policy, s, [y, x])
            <==> RowOf(h, x) == RowOf(h, y) || (x.checksum != y.checksum && x.updatedAt != y.updatedAt)
  {
    ReceiveTwo(h, policy, s, x, y);
    ReceiveTwo(h, policy, s, y, x);
    assert s[x.id := RowOf(h, x)][x.id] == RowOf(h, x);
    assert s[x.id := RowOf(h, y)][x.id] == RowOf(h, y);
    assert s[x.id := RowOf(h, x)][x.id := RowOf(h, y)] == s[x.id := RowOf(h, y)];
    assert s[x.id := RowOf(h, y)][x.id := RowOf(h, x)] == s[x.id := RowOf(h, x)];
  }

  lemma ReceiveTwo(h: Hash, policy: Acceptance, s: Store, x: Item, y: Item)
    ensures ReceiveAll(h, policy, s, [x, y]) == Receive(h, policy, Receive(h, policy, s, x).0, y).0
  {
    assert [x, y][..1] == [x];
    assert [x][..0] == [];
    assert ReceiveAll(h, policy, s, [x]) == Receive(h, policy, s, x).0;
  }

  // ---- Versions survive any number of hops -------------------------------

  predicate StoreOk(h: Hash, s: Store) {
    forall id :: id in s ==> s[id].checksum == Some(h(s[id].data))
  }

  datatype StoreEvent =
    | Received(policy: Acceptance, item: Item)
    | WrittenLocally(id: string, row: Row)
    | DeletedLocally(id: string)

  function StoreStep(h: Hash, s: Store, e: StoreEvent): Store {
    match e
    case Received(policy, item) => Receive(h, policy, s, item).0
    case WrittenLocally(id, row) => s[id := row.(checksum := Some(h(row.data)))]
    case DeletedLocally(id) => s - {id}
  }

  function StoreRun(h: Hash, s: Store, es: seq<StoreEvent>): Store {
    if es == [] then s else StoreStep(h, StoreRun(h, s, es[..|es| - 1]), es[|es| - 1])
  }

  /** Whatever is written, received or deleted, every row's checksum is that of its data. */
  lemma {:induction false} StoreStaysOk(h: Hash, s: Store, es: seq<StoreEvent>)
    requires StoreOk(h, s)
    ensures StoreOk(h, StoreRun(h, s, es))
  {
    if es == [] {
    } else {
      StoreStaysOk(h, s, es[..|es| - 1]);
    }
  }

  /** A stored item is served back exactly, key version included. */
  lemma StoreFetchRoundTrip(h: Hash, x: Item)
    requires h(x.blob) == x.checksum && x.keyVersion < 0x1_0000_0000
    ensures FetchOf(x.id, RowOf(h, x)) == x
  {
  }

  /** A row's own item, sent back, is a duplicate wherever it would be admitted. */
  lemma EchoIsDuplicate(h: Hash, policy: Acceptance, s: Store, id: string)
    requires StoreOk(h, s) && id in s && Admissible(h, policy, FetchOf(id, s[id]))
    ensures Receive(h, policy, s, FetchOf(id, s[id])) == (s, Duplicate)
  {
  }

  /** Node `k + 1` fetches `id` from node `k` and stores it. */
  predicate Hop(h: Hash, policy: Acceptance, id: string, from: Store, before: Store, after: Store) {
    id in from && Receive(h, policy, before, FetchOf(id, from[id])) == (after, Stored)
  }

  /** Along any chain of such hops the last node serves the very item the first one held. */
  lemma {:induction false} HopsPreserveVersion(h: Hash, policies: seq<Acceptance>, befores: seq<Store>,
                                               afters: seq<Store>, id: string, n: nat)
    requires |policies| == |befores| == |afters| && n < |afters|
    requires id in afters[0] && afters[0][id].itemType != TOMBSTONE && StoreOk(h, afters[0])
    requires forall k :: 0 <= k < n ==> Hop(h, policies[k + 1], id, afters[k], befores[k + 1], afters[k + 1])
    ensures id in afters[n] && FetchOf(id, afters[n][id]) == FetchOf(id, afters[0][id])
    ensures afters[n][id].checksum == Some(h(afters[n][id].data))
    decreases n
  {
    if n == 0 {
    } else {
      HopsPreserveVersion(h, policies, befores, afters, id, n - 1);
      assert Hop(h, policies[n], id, afters[n - 1], befores[n], afters[n]);
      var x := FetchOf(id, afters[n - 1][id]);
      ReceiveRaises(h, policies[n], befores[n], x);
      StoreFetchRoundTrip(h, x);
    }
  }
}
