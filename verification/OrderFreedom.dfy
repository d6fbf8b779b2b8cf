/** Exactly when the order in which versions arrive does not matter. */
module OrderFreedom {
  import opened Collections
  import opened Replication

  /** What a row or an item says about its version. */
  datatype Version = Version(checksum: Option<string>, date: Timestamp)

  // ---- Versions of one id ------------------------------------------------

  /** A version is taken unless the one held has its checksum or is at least as new. */
  function Take(v: Option<Version>, w: Version): Option<Version> {
    if v.Some? && (v.value.checksum == w.checksum || v.value.date >= w.date) then v else Some(w)
  }

  function TakeAll(v: Option<Version>, ws: seq<Version>): Option<Version> {
    if ws == [] then v else Take(TakeAll(v, ws[..|ws| - 1]), ws[|ws| - 1])
  }

  /** All deliveries of the versions, in any order and with any repetition, end in the same version. */
  ghost predicate OneEnd(v: Option<Version>, all: set<Version>) {
    forall ws, ws' :: Elems(ws) == all && Elems(ws') == all ==> TakeAll(v, ws) == TakeAll(v, ws')
  }

  /** The versions that would be taken at once. */
  function Fresh(v: Option<Version>, all: set<Version>): set<Version> {
    set w | w in all && Take(v, w) == Some(w) && Some(w) != v
  }

  /**
    * Versions newer than the one held, under its checksum: refused at first, but not once another version has been
    * taken.
    */
  predicate Hidden(v: Option<Version>, w: Version) {
    v.Some? && w.checksum == v.value.checksum && w.date > v.value.date
  }

  /**
    * `top` is the one newest of the versions that would be taken, and no other of them has its checksum; a hidden
    * version is older, or as old if nothing but `top` could uncover it.
    */
  ghost predicate Wins(v: Option<Version>, all: set<Version>, top: Version) {
    && top in Fresh(v, all)
    && (forall w :: w in Fresh(v, all) && w != top ==> w.date < top.date && w.checksum != top.checksum)
    && (forall w :: w in all && Hidden(v, w) ==> w.date < top.date || (w.date == top.date && Fresh(v, all) == {top}))
  }

  ghost predicate Decided(v: Option<Version>, all: set<Version>) {
    Fresh(v, all) == {} || exists top :: Wins(v, all, top)
  }

  lemma {:induction false} TakeConcat(v: Option<Version>, a: seq<Version>, b: seq<Version>)
    ensures TakeAll(v, a + b) == TakeAll(TakeAll(v, a), b)
    decreases |b|
  {
    if b == [] {
      assert a + b == a;
    } else {
      TakeConcat(v, a, b[..|b| - 1]);
      assert (a + b)[..|a + b| - 1] == a + b[..|b| - 1];
    }
  }

  lemma TakeOne(v: Option<Version>, w: Version)
    ensures TakeAll(v, [w]) == Take(v, w)
  {
    assert [w][..0] == [];
  }

  /** Nothing newer under another checksum: the version held stays. */
  lemma {:induction false} NothingTaken(v: Option<Version>, ws: seq<Version>)
    requires forall w :: w in ws ==> Take(v, w) == v
    ensures TakeAll(v, ws) == v
    decreases |ws|
  {
    if ws == [] {
    } else {
      NothingTaken(v, ws[..|ws| - 1]);
    }
  }

  /** The end is the start or one of the versions delivered. */
  lemma {:induction false} EndIsDelivered(v: Option<Version>, ws: seq<Version>)
    ensures TakeAll(v, ws) == v || (TakeAll(v, ws).Some? && TakeAll(v, ws).value in Elems(ws))
    decreases |ws|
  {
    if ws == [] {
    } else {
      EndIsDelivered(v, ws[..|ws| - 1]);
      assert ws[|ws| - 1] in Elems(ws) && Elems(ws[..|ws| - 1]) <= Elems(ws);
    }
  }

  // ---- The condition suffices --------------------------------------------

  /**
    * On the way to `top`: the version held at the start, or one taken since, older than `top` and of another checksum.
    */
  ghost predicate OnTheWay(v: Option<Version>, all: set<Version>, top: Version, u: Option<Version>) {
    u == v || (u.Some? && Fresh(v, all) != {top} && u.value.date < top.date && u.value.checksum != top.checksum
               && (v.Some? ==> v.value.date < u.value.date))
  }

  lemma TopIsFinal(v: Option<Version>, all: set<Version>, top: Version, w: Version)
    requires Wins(v, all, top) && w in all
    ensures Take(Some(top), w) == Some(top)
  {
    if w.date > top.date && w.checksum != top.checksum {
      assert w !in Fresh(v, all);
    }
  }

  lemma StaysOnTheWay(v: Option<Version>, all: set<Version>, top: Version, u: Option<Version>, w: Version)
    requires Wins(v, all, top) && w in all && OnTheWay(v, all, top, u)
    ensures w == top ==> Take(u, w) == Some(top)
    ensures w != top ==> OnTheWay(v, all, top, Take(u, w))
  {
    if w != top && Take(u, w) != u {
      if w in Fresh(v, all) {
        assert Fresh(v, all) != {top};
      } else {
        assert Hidden(v, w);
      }
    }
  }

  lemma {:induction false} EndsOnTop(v: Option<Version>, all: set<Version>, top: Version, ws: seq<Version>)
    requires Wins(v, all, top) && Elems(ws) <= all
    ensures if top in ws then TakeAll(v, ws) == Some(top) else OnTheWay(v, all, top, TakeAll(v, ws))
    decreases |ws|
  {
    if ws == [] {
    } else {
      var init, last := ws[..|ws| - 1], ws[|ws| - 1];
      assert last in Elems(ws) && Elems(init) <= Elems(ws);
      assert ws == init + [last];
      EndsOnTop(v, all, top, init);
      if top in init {
        TopIsFinal(v, all, top, last);
      } else {
        StaysOnTheWay(v, all, top, TakeAll(v, init), last);
      }
    }
  }

  lemma DecidedHasOneEnd(v: Option<Version>, all: set<Version>)
    requires Decided(v, all)
    ensures OneEnd(v, all)
  {
    forall ws, ws' | Elems(ws) == all && Elems(ws') == all
      ensures TakeAll(v, ws) == TakeAll(v, ws')
    {
      if Fresh(v, all) == {} {
        NothingFresh(v, all, ws);
        NothingFresh(v, all, ws');
      } else {
        var top :| Wins(v, all, top);
        EndsOnTop(v, all, top, ws);
        EndsOnTop(v, all, top, ws');
        assert top in Elems(ws) && top in Elems(ws');
      }
    }
  }

  lemma NothingFresh(v: Option<Version>, all: set<Version>, ws: seq<Version>)
    requires Fresh(v, all) == {} && Elems(ws) == all
    ensures TakeAll(v, ws) == v
  {
    forall w | w in ws
      ensures Take(v, w) == v
    {
      assert w in Elems(ws) && w !in Fresh(v, all);
    }
    NothingTaken(v, ws);
  }

  // ---- The condition is necessary ----------------------------------------

  lemma ListOf<T>(s: set<T>) returns (xs: seq<T>)
    ensures Elems(xs) == s
  {
    xs := [];
    var rest := s;
    while rest != {}
      invariant Elems(xs) + rest == s
      decreases rest
    {
      var x :| x in rest;
      assert Elems(xs + [x]) == Elems(xs) + {x};
      xs := xs + [x];
      rest := rest - {x};
    }
  }

  /** Whatever is delivered first decides, if nothing is newer than where it leads. */
  lemma DecidedFirst(v: Option<Version>, all: set<Version>, first: seq<Version>, x: Version) returns (ws: seq<Version>)
    requires Elems(first) <= all && TakeAll(v, first) == Some(x) && forall w :: w in all ==> w.date <= x.date
    ensures Elems(ws) == all && TakeAll(v, ws) == Some(x)
  {
    var rest := ListOf(all);
    ws := first + rest;
    ElemsConcat(first, rest);
    TakeConcat(v, first, rest);
    assert forall w :: w in rest ==> w in Elems(rest);
    NothingTaken(Some(x), rest);
  }

  /**
    * Delivering every version of one checksum while it is held, and only then the others, never ends in a newer one of
    * that checksum.
    */
  lemma WastedFirst(v: Option<Version>, all: set<Version>, first: seq<Version>, x: Version, lost: Version)
    returns (ws: seq<Version>)
    requires Elems(first) <= all && TakeAll(v, first) == Some(x) && x.checksum == lost.checksum && x != lost
    ensures Elems(ws) == all && TakeAll(v, ws) != Some(lost)
  {
    var same := ListOf(set w | w in all && w.checksum == x.checksum);
    var rest := ListOf(set w | w in all && w.checksum != x.checksum);
    ws := first + same + rest;
    ElemsConcat(first, same);
    ElemsConcat(first + same, rest);
    TakeConcat(v, first, same);
    TakeConcat(v, first + same, rest);
    assert forall w :: w in same ==> w in Elems(same);
    NothingTaken(Some(x), same);
    EndIsDelivered(Some(x), rest);
    assert lost !in Elems(rest);
  }

  /** A newest one of a set of versions. */
  lemma Newest(all: set<Version>) returns (x: Version)
    requires all != {}
    ensures x in all && forall w :: w in all ==> w.date <= x.date
  {
    x :| x in all;
    var rest := all - {x};
    while rest != {}
      invariant x in all && rest <= all
      invariant forall w :: w in all && w !in rest ==> w.date <= x.date
      decreases rest
    {
      var y :| y in rest;
      rest := rest - {y};
      if x.date < y.date {
        x := y;
      }
    }
  }

  /** Two deliveries that end differently. */
  ghost predicate Differ(v: Option<Version>, all: set<Version>, ws: seq<Version>, ws': seq<Version>) {
    Elems(ws) == all && Elems(ws') == all && TakeAll(v, ws) != TakeAll(v, ws')
  }

  /**
    * A version hidden by the one held can be the newest of all: then it gets through or not, as others come before it
    * or after.
    */
  lemma HiddenOnTop(v: Option<Version>, all: set<Version>, a: Version, c: Version)
    returns (ws: seq<Version>, ws': seq<Version>)
    requires a in Fresh(v, all) && c in all && Hidden(v, c) && a.date < c.date && forall w :: w in all ==>
               w.date <= c.date
    ensures Differ(v, all, ws, ws')
  {
    TakeOne(v, a);
    TakeOne(Take(v, a), c);
    TakeConcat(v, [a], [c]);
    ws := DecidedFirst(v, all, [a] + [c], c);
    assert TakeAll(v, []) == v;
    ws' := WastedFirst(v, all, [], v.value, c);
  }

  lemma UndecidedDiffers(v: Option<Version>, all: set<Version>) returns (ws: seq<Version>, ws': seq<Version>)
    requires !Decided(v, all)
    ensures Differ(v, all, ws, ws')
  {
    var a := Newest(Fresh(v, all));
    var c := Newest(all);
    if c.date > a.date {
      assert c !in Fresh(v, all);
      ws, ws' := HiddenOnTop(v, all, a, c);
    } else {
      TakeOne(v, a);
      ws := DecidedFirst(v, all, [a], a);
      ws' := AnotherEnd(v, all, a);
    }
  }

  /** If nothing is newer than `a`, which could be taken but does not win, then some delivery ends elsewhere. */
  lemma AnotherEnd(v: Option<Version>, all: set<Version>, a: Version) returns (ws: seq<Version>)
    requires a in Fresh(v, all) && !Wins(v, all, a) && forall w :: w in all ==> w.date <= a.date
    ensures Elems(ws) == all && TakeAll(v, ws) != Some(a)
  {
    if b :| b in Fresh(v, all) && b != a && b.date == a.date {
      TakeOne(v, b);
      ws := DecidedFirst(v, all, [b], b);
    } else if b :| b in Fresh(v, all) && b != a && b.checksum == a.checksum {
      TakeOne(v, b);
      ws := WastedFirst(v, all, [b], b, a);
    } else {
      var c :| c in all && Hidden(v, c) && !(c.date < a.date || (c.date == a.date && Fresh(v, all) == {a}));
      var z :| z in Fresh(v, all) && z != a;
      TakeOne(v, z);
      TakeOne(Take(v, z), c);
      TakeConcat(v, [z], [c]);
      ws := DecidedFirst(v, all, [z] + [c], c);
    }
  }

  /** Any versions of one id, on any row or none: the order does not matter if and only if the versions are decided. */
  lemma OneEndIff(v: Option<Version>, all: set<Version>)
    ensures OneEnd(v, all) <==> Decided(v, all)
  {
    if Decided(v, all) {
      DecidedHasOneEnd(v, all);
    } else {
      var ws, ws' := UndecidedDiffers(v, all);
    }
  }

  // ---- Items of any ids, into any store ----------------------------------

  function VersionAt(s: Store, id: string): Option<Version> {
    if id in s then Some(Version(s[id].checksum, s[id].updatedAt)) else None
  }

  function VersionOf(x: Item): Version { Version(Some(x.checksum), x.updatedAt) }

  function Saying(id: string): Item -> seq<Version> { (x: Item) => if x.id == id then [VersionOf(x)] else [] }

  /** What a delivery says about one id, in order. */
  function VersionsIn(xs: seq<Item>, id: string): seq<Version> { FlatMap(Saying(id), xs) }

  function VersionsOf(all: set<Item>, id: string): set<Version> { set x | x in all && x.id == id :: VersionOf(x) }

  lemma {:induction false} DeliveryTakes(h: Hash, policy: Acceptance, s: Store, xs: seq<Item>, id: string)
    requires AllAdmissible(h, policy, Elems(xs))
    ensures VersionAt(ReceiveAll(h, policy, s, xs), id) == TakeAll(VersionAt(s, id), VersionsIn(xs, id))
    decreases |xs|
  {
    if xs == [] {
    } else {
      var init, last := xs[..|xs| - 1], xs[|xs| - 1];
      assert last in Elems(xs) && Elems(init) <= Elems(xs);
      assert Admissible(h, policy, last);
      DeliveryTakes(h, policy, s, init, id);
      TakeConcat(VersionAt(s, id), VersionsIn(init, id), Saying(id)(last));
      TakeOne(TakeAll(VersionAt(s, id), VersionsIn(init, id)), VersionOf(last));
      ReceiptTakes(h, policy, ReceiveAll(h, policy, s, init), last, id);
    }
  }

  lemma ReceiptTakes(h: Hash, policy: Acceptance, s: Store, x: Item, id: string)
    requires Admissible(h, policy, x)
    ensures VersionAt(Receive(h, policy, s, x).0, id) == if x.id == id then Take(VersionAt(s, id), VersionOf(x))
              else VersionAt(s, id)
  {
    ReceiveRaises(h, policy, s, x);
  }

  lemma {:induction false} SaidVersions(xs: seq<Item>, id: string)
    ensures Elems(VersionsIn(xs, id)) == VersionsOf(Elems(xs), id)
    decreases |xs|
  {
    if xs == [] {
    } else {
      var init, last := xs[..|xs| - 1], xs[|xs| - 1];
      SaidVersions(init, id);
      assert xs == init + [last];
      assert Elems(xs) == Elems(init) + {last};
      ElemsConcat(VersionsIn(init, id), Saying(id)(last));
      assert VersionsOf(Elems(xs), id) == VersionsOf(Elems(init), id) + VersionsOf({last}, id);
      assert VersionsOf({last}, id) == Elems(Saying(id)(last));
    }
  }

  /** All deliveries of the items, in any order and with any repetition, leave the same versions. */
  ghost predicate OrderFree(h: Hash, policy: Acceptance, s: Store, all: set<Item>) {
    forall xs, ys :: Elems(xs) == all && Elems(ys) == all ==>
      SameVersions(ReceiveAll(h, policy, s, xs), ReceiveAll(h, policy, s, ys))
  }

  lemma SameVersionsById(r: Store, r': Store)
    ensures SameVersions(r, r') <==> forall id :: VersionAt(r, id) == VersionAt(r', id)
  {
    if forall id :: VersionAt(r, id) == VersionAt(r', id) {
      assert forall id :: id in r <==> VersionAt(r, id).Some?;
      assert forall id :: id in r' <==> VersionAt(r', id).Some?;
      forall id | id in r
        ensures r[id].updatedAt == r'[id].updatedAt && r[id].checksum == r'[id].checksum
      {
        assert VersionAt(r, id) == VersionAt(r', id);
      }
    }
  }

  /** Items that say the same version, delivered one after the other, count as one. */
  lemma {:induction false} SayingTwice(v: Option<Version>, xs: seq<Item>, id: string, w: Version)
    requires xs != [] && forall x :: x in xs ==> x.id == id && VersionOf(x) == w
    ensures TakeAll(v, VersionsIn(xs, id)) == Take(v, w)
    decreases |xs|
  {
    var init, last := xs[..|xs| - 1], xs[|xs| - 1];
    TakeConcat(v, VersionsIn(init, id), Saying(id)(last));
    TakeOne(TakeAll(v, VersionsIn(init, id)), w);
    if init != [] {
      SayingTwice(v, init, id, w);
    } else {
      assert VersionsIn(init, id) == [];
    }
  }

  /** The items that say one of the versions about the id. */
  function ItemsOf(all: set<Item>, id: string, vs: set<Version>): set<Item> {
    set x | x in all && x.id == id && VersionOf(x) in vs
  }

  lemma MoreItems(all: set<Item>, id: string, vs: set<Version>, w: Version)
    ensures ItemsOf(all, id, vs + {w}) == ItemsOf(all, id, vs) + ItemsOf(all, id, {w})
    ensures ItemsOf(all, id, {}) == {}
  {
  }

  /** All items that say `w`, one after the other. */
  lemma Repeat(v: Option<Version>, all: set<Item>, id: string, w: Version) returns (xs: seq<Item>)
    requires w in VersionsOf(all, id)
    ensures Elems(xs) == ItemsOf(all, id, {w}) && TakeAll(v, VersionsIn(xs, id)) == Take(v, w)
  {
    xs := ListOf(ItemsOf(all, id, {w}));
    var y :| y in all && y.id == id && VersionOf(y) == w;
    assert y in Elems(xs);
    assert forall x :: x in xs ==> x in Elems(xs);
    SayingTwice(v, xs, id, w);
  }

  lemma SayConcat(v: Option<Version>, a: seq<Item>, b: seq<Item>, id: string)
    ensures TakeAll(v, VersionsIn(a + b, id)) == TakeAll(TakeAll(v, VersionsIn(a, id)), VersionsIn(b, id))
    ensures Elems(a + b) == Elems(a) + Elems(b)
  {
    FlatMapConcat(Saying(id), a, b);
    TakeConcat(v, VersionsIn(a, id), VersionsIn(b, id));
    ElemsConcat(a, b);
  }

  /** Every delivery of the versions is said by some delivery of the items. */
  lemma {:induction false} ItemsSay(v: Option<Version>, all: set<Item>, id: string, ws: seq<Version>)
    returns (xs: seq<Item>)
    requires Elems(ws) <= VersionsOf(all, id)
    ensures Elems(xs) == ItemsOf(all, id, Elems(ws)) && TakeAll(v, VersionsIn(xs, id)) == TakeAll(v, ws)
    decreases |ws|
  {
    if ws == [] {
      xs := [];
      assert VersionsIn(xs, id) == [];
    } else {
      var init, last := ws[..|ws| - 1], ws[|ws| - 1];
      assert ws == init + [last];
      ElemsConcat(init, [last]);
      var front := ItemsSay(v, all, id, init);
      var back := Repeat(TakeAll(v, init), all, id, last);
      xs := front + back;
      SayConcat(v, front, back, id);
      MoreItems(all, id, Elems(init), last);
      assert Elems(ws) == Elems(init) + {last};
    }
  }

  lemma {:induction false} SilentItems(xs: seq<Item>, id: string)
    requires forall x :: x in xs ==> x.id != id
    ensures VersionsIn(xs, id) == []
    decreases |xs|
  {
    if xs == [] {
    } else {
      SilentItems(xs[..|xs| - 1], id);
    }
  }

  /** The items of other ids first, then a delivery of the versions of this one. */
  lemma WholeDelivery(v: Option<Version>, all: set<Item>, id: string, ws: seq<Version>) returns (xs: seq<Item>)
    requires Elems(ws) == VersionsOf(all, id)
    ensures Elems(xs) == all && TakeAll(v, VersionsIn(xs, id)) == TakeAll(v, ws)
  {
    var others := ListOf(set x | x in all && x.id != id);
    var ours := ItemsSay(v, all, id, ws);
    xs := others + ours;
    SayConcat(v, others, ours, id);
    assert forall x :: x in others ==> x in Elems(others);
    SilentItems(others, id);
    assert forall x :: x in all && x.id == id ==> VersionOf(x) in VersionsOf(all, id);
    assert all == (set x | x in all && x.id != id) + ItemsOf(all, id, VersionsOf(all, id));
  }

  lemma OrderFreeById(h: Hash, policy: Acceptance, s: Store, all: set<Item>, id: string)
    requires AllAdmissible(h, policy, all) && OrderFree(h, policy, s, all)
    ensures OneEnd(VersionAt(s, id), VersionsOf(all, id))
  {
    var v := VersionAt(s, id);
    forall ws, ws' | Elems(ws) == VersionsOf(all, id) && Elems(ws') == VersionsOf(all, id)
      ensures TakeAll(v, ws) == TakeAll(v, ws')
    {
      var xs := WholeDelivery(v, all, id, ws);
      var ys := WholeDelivery(v, all, id, ws');
      DeliveryTakes(h, policy, s, xs, id);
      DeliveryTakes(h, policy, s, ys, id);
      SameVersionsById(ReceiveAll(h, policy, s, xs), ReceiveAll(h, policy, s, ys));
    }
  }

  lemma OneEndsAreOrderFree(h: Hash, policy: Acceptance, s: Store, all: set<Item>)
    requires AllAdmissible(h, policy, all) && forall id :: OneEnd(VersionAt(s, id), VersionsOf(all, id))
    ensures OrderFree(h, policy, s, all)
  {
    forall xs, ys | Elems(xs) == all && Elems(ys) == all
      ensures SameVersions(ReceiveAll(h, policy, s, xs), ReceiveAll(h, policy, s, ys))
    {
      forall id
        ensures VersionAt(ReceiveAll(h, policy, s, xs), id) == VersionAt(ReceiveAll(h, policy, s, ys), id)
      {
        DeliveryTakes(h, policy, s, xs, id);
        DeliveryTakes(h, policy, s, ys, id);
        SaidVersions(xs, id);
        SaidVersions(ys, id);
        assert OneEnd(VersionAt(s, id), VersionsOf(all, id));
      }
      SameVersionsById(ReceiveAll(h, policy, s, xs), ReceiveAll(h, policy, s, ys));
    }
  }

  /**
    * Any admissible items, into any store: the order of delivery does not matter if and only if every id's versions are
    * decided.
    */
  lemma OrderFreeIff(h: Hash, policy: Acceptance, s: Store, all: set<Item>)
    requires AllAdmissible(h, policy, all)
    ensures OrderFree(h, policy, s, all) <==> forall id :: Decided(VersionAt(s, id), VersionsOf(all, id))
  {
    forall id
      ensures OneEnd(VersionAt(s, id), VersionsOf(all, id)) <==> Decided(VersionAt(s, id), VersionsOf(all, id))
    {
      OneEndIff(VersionAt(s, id), VersionsOf(all, id));
    }
    if OrderFree(h, policy, s, all) {
      forall id
        ensures Decided(VersionAt(s, id), VersionsOf(all, id))
      {
        OrderFreeById(h, policy, s, all, id);
      }
    }
    if forall id :: Decided(VersionAt(s, id), VersionsOf(all, id)) {
      OneEndsAreOrderFree(h, policy, s, all);
    }
  }

  /** With no row yet, the condition reads: the newest date names one checksum, and that checksum has no other date. */
  lemma DecidedFromScratch(all: set<Version>)
    requires all != {}
    ensures Decided(None, all) <==>
            exists top :: top in all && forall w :: w in all && w != top ==>
              w.date < top.date && w.checksum != top.checksum
  {
    assert Fresh(None, all) == all;
    if Decided(None, all) {
      var top :| Wins(None, all, top);
    }
    if top :| top in all && forall w :: w in all && w != top ==> w.date < top.date && w.checksum != top.checksum {
      assert Wins(None, all, top);
    }
  }
}
