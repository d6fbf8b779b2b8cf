/** One input each for promises that hold only under a condition: here the condition, and with it the promise, fails. */
module FailingCases {
  import opened Collections
  import opened Texts
  import opened Replication
  import opened AntiEntropy
  import opened Convergence
  import opened Cursor
  import Descriptors

  function NoteRow(h: Hash, data: Blob): Row {
    Row("note", data, Some(h(data)), None, "group", Some("g"), None, 0, None, false, 0.0)
  }

  // ---- Two contents of one date ------------------------------------------

  function Single(h: Hash, data: Blob): Store { map["n" := NoteRow(h, data)] }

  lemma SinglePage(h: Hash, data: Blob)
    ensures Matching(Single(h, data), "g", None) == {"n"} && IsPage(Single(h, data), "g", None, 1, ["n"])
  {
    assert Elems(["n"]) == {"n"};
  }

  lemma FetchOne(s: Store, id: string)
    requires id in s
    ensures FetchAll(s, [id]) == [FetchOf(id, s[id])]
  {
    assert [id][..0] == [];
  }

  lemma ReceiveOne(h: Hash, policy: Acceptance, s: Store, x: Item)
    ensures ReceiveAll(h, policy, s, [x]) == Receive(h, policy, s, x).0
  {
    assert [x][..0] == [];
  }

  lemma NotNewerIsRefused(h: Hash, policy: Acceptance, s: Store, x: Item)
    requires x.itemType != TOMBSTONE && x.id in s && s[x.id].updatedAt >= x.updatedAt
    ensures Receive(h, policy, s, x).0 == s
  {
  }

  lemma SingleStays(h: Hash, policy: Acceptance, data: Blob, other: Blob)
    ensures ReceiveAll(h, policy, Single(h, data), FetchAll(Single(h, other), ["n"])) == Single(h, data)
  {
    var ours, theirs := Single(h, data), Single(h, other);
    FetchOne(theirs, "n");
    ReceiveOne(h, policy, ours, FetchOf("n", theirs["n"]));
    NotNewerIsRefused(h, policy, ours, FetchOf("n", theirs["n"]));
  }

  /** Two nodes that hold different contents of the same date keep them, however often they pull from each other. */
  lemma EqualDatesStayApart(h: Hash, pa: Acceptance, pb: Acceptance, x: Blob, y: Blob) returns (a: Store, b: Store)
    requires h(x) != h(y)
    ensures Compatible(h, a, b, "g") && IsPage(a, "g", None, 1, ["n"]) && IsPage(b, "g", None, 1, ["n"])
    ensures ReceiveAll(h, pa, a, FetchAll(b, ["n"])) == a && ReceiveAll(h, pb, b, FetchAll(a, ["n"])) == b
    ensures GroupData(a, "g", "n") != GroupData(b, "g", "n")
  {
    a, b := Single(h, x), Single(h, y);
    SinglePage(h, x);
    SinglePage(h, y);
    SingleStays(h, pa, x, y);
    SingleStays(h, pb, y, x);
  }

  // ---- Two items of one date ---------------------------------------------

  /**
    * A page of one out of two items of the same date: the other is not newer than the cursor, so no later round lists
    * it.
    */
  lemma DividedDateLosesItem(h: Hash) returns (s: Store, page: seq<string>, d: Timestamp)
    ensures IsPage(s, "g", None, 1, page) && Elems(page) <= s.Keys && IsNewest(s, page, d)
    ensures Matching(s, "g", None) == {"a", "b"} && Elems(page) + Matching(s, "g", Some(d)) == {"a"}
  {
    s, page, d := map["a" := NoteRow(h, []), "b" := NoteRow(h, [])], ["a"], 0.0;
    assert Elems(page) == {"a"} && "a" in Elems(page);
    assert Matching(s, "g", None) == {"a", "b"};
    assert |{"a", "b"}| == 2;
  }

  // ---- Descriptors -------------------------------------------------------

  /** A descriptor without signature. */
  function Plain(c: Descriptors.Crypto, date: string): Descriptors.Descriptor {
    Descriptors.Descriptor("g", "", date, c.checksum("g", ""), None, None, None)
  }

  lemma OneMerged(c: Descriptors.Crypto, db: Descriptors.Db, d: Descriptors.Descriptor, now: string)
    ensures var m := Descriptors.MergeAll(c, db, [d], [now]);
            && m.db == Descriptors.MergeOne(c, db, d, now)
            && (Descriptors.TakesNothing(m) <==> !Descriptors.Accepts(c, db.groups, d))
  {
    assert [d][..0] == [] && [now][..0] == [];
  }

  /** A descriptor dated ahead of the clock is taken, and taken again. */
  lemma AheadOfClockMergesAgain(c: Descriptors.Crypto)
    ensures var ds := [Plain(c, "2")];
            var once := Descriptors.MergeAll(c, Descriptors.Db(map[], map[]), ds, ["1"]);
            !Descriptors.TakesNothing(once) && !Descriptors.TakesNothing(Descriptors.MergeAll(c, once.db, ds, ["1"]))
  {
    var d, none := Plain(c, "2"), Descriptors.Db(map[], map[]);
    OneMerged(c, none, d, "1");
    OneMerged(c, Descriptors.MergeOne(c, none, d, "1"), d, "1");
    assert Before("1", "2");
  }

  /** A descriptor this node has signed. */
  function Own(c: Descriptors.Crypto, date: string): Descriptors.Descriptor {
    Descriptors.Descriptor("g", "", date, c.checksum("g", ""), Some("me"), Some(c.pubkey),
      Some(c.sign(Descriptors.Payload("g", "", date))))
  }

  /** A sound descriptor dated "1" is merged at "2" and passed on: the next peer finds it unsound. */
  lemma PassedOnUnsound() returns (c: Descriptors.Crypto)
    ensures var none := Descriptors.Db(map[], map[]);
            && Descriptors.Accepts(c, none.groups, Own(c, "1"))
            && "g" in Descriptors.MergeOne(c, none, Own(c, "1"), "2").groups
            && !Descriptors.Sound(c, Descriptors.DescriptorOf(c, "g",
               Descriptors.MergeOne(c, none, Own(c, "1"), "2").groups["g"]))
  {
    c := Descriptors.TellingExists({Descriptors.Payload("g", "", "1"), Descriptors.Payload("g", "", "2")});
    assert Descriptors.SignsOwn(c, Descriptors.Payload("g", "", "1"));
    Descriptors.PassedOnSoundIff(c, Descriptors.Db(map[], map[]), Own(c, "1"), "2");
  }

  /** The owner signs a row dated "1" and writes it anew at "2": what it then advertises is unsound. */
  lemma RewrittenUnsound() returns (c: Descriptors.Crypto, db: Descriptors.Db)
    ensures "g" in db.groups && Descriptors.Owns(db, "me", "g")
            && Descriptors.Sound(c, Descriptors.DescriptorOf(c, "g", db.groups["g"]))
    ensures var db' := db.(groups := Descriptors.WithGroup(db.groups, "g", "", "", "", "2"));
            !Descriptors.Sound(c, Descriptors.DescriptorOf(c, "g", Descriptors.LazySigned(c, db', "me", "g")))
  {
    c := Descriptors.TellingExists({Descriptors.Payload("g", "", "1"), Descriptors.Payload("g", "", "2")});
    assert Descriptors.SignsOwn(c, Descriptors.Payload("g", "", "1"));
    var signature := c.sign(Descriptors.Payload("g", "", "1"));
    db := Descriptors.Db(map["g" := Descriptors.GroupRow("", "", "", "1", "1", Some("me"), Some(c.pubkey),
      Some(signature))], map[]);
    Descriptors.RewrittenSoundIff(c, db, "me", "g", "", "", "", "2");
  }
}
