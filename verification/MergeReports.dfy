/** What a merge of descriptors takes, reports and leaves behind, said of the descriptors and rows themselves. */
module MergeReports {
  import opened Collections
  import opened Texts
  import opened Descriptors

  // ---- The two lists -----------------------------------------------------

  /** The descriptor at `i` was taken at its turn. */
  predicate Taken(c: Crypto, db: Db, ds: seq<Descriptor>, clock: seq<Date>, i: nat)
    requires |clock| == |ds| && i < |ds|
  {
    Accepts(c, MergeAll(c, db, ds[..i], clock[..i]).db.groups, ds[i])
  }

  /** The list names the groups of the descriptors at these places, one after the other. */
  predicate PickedAt(ds: seq<Descriptor>, ids: seq<string>, at: seq<nat>) {
    && |at| == |ids|
    && (forall k :: 0 <= k < |at| ==> at[k] < |ds| && ids[k] == ds[at[k]].id)
    && (forall j, k :: 0 <= j < k < |at| ==> at[j] < at[k])
  }

  /** The descriptor at `i` was taken at its turn, and carries the deletion mark, or does not. */
  predicate TakenAs(c: Crypto, db: Db, ds: seq<Descriptor>, clock: seq<Date>, i: nat, deleted: bool)
    requires |clock| == |ds| && i < |ds|
  {
    Taken(c, db, ds, clock, i) && (ds[i].culture == DELETED <==> deleted)
  }

  /** The list names, in order, the groups of exactly those descriptors taken that carry the mark, or do not. */
  ghost predicate Names(c: Crypto, db: Db, ds: seq<Descriptor>, clock: seq<Date>, ids: seq<string>, at: seq<nat>,
                        deleted: bool)
    requires |clock| == |ds|
  {
    && PickedAt(ds, ids, at)
    && forall i :: 0 <= i < |ds| ==> (i in at <==> TakenAs(c, db, ds, clock, i, deleted))
  }

  lemma TakenEarlier(c: Crypto, db: Db, ds: seq<Descriptor>, clock: seq<Date>, n: nat, i: nat)
    requires |clock| == |ds| && i < n <= |ds|
    ensures Taken(c, db, ds[..n], clock[..n], i) <==> Taken(c, db, ds, clock, i)
  {
    assert ds[..n][..i] == ds[..i] && clock[..n][..i] == clock[..i];
  }

  lemma PickNext(ds: seq<Descriptor>, ids: seq<string>, at: seq<nat>)
    requires ds != [] && PickedAt(ds[..|ds| - 1], ids, at)
    ensures PickedAt(ds, ids, at) && PickedAt(ds, ids + [ds[|ds| - 1].id], at + [|ds| - 1]) && |ds| - 1 !in at
  {
  }

  lemma TakenSoFar(c: Crypto, db: Db, ds: seq<Descriptor>, clock: seq<Date>, at: seq<nat>, deleted: bool)
    requires |clock| == |ds| > 0
    requires forall i :: 0 <= i < |ds| - 1 ==>
               (i in at <==> TakenAs(c, db, ds[..|ds| - 1], clock[..|ds| - 1], i, deleted))
    ensures forall i :: 0 <= i < |ds| - 1 ==> (i in at <==> TakenAs(c, db, ds, clock, i, deleted))
  {
    forall i | 0 <= i < |ds| - 1
      ensures i in at <==> TakenAs(c, db, ds, clock, i, deleted)
    {
      TakenEarlier(c, db, ds, clock, |ds| - 1, i);
    }
  }

  /** One more descriptor: its index is added if it was taken and of the kind. */
  lemma NamesNext(c: Crypto, db: Db, ds: seq<Descriptor>, clock: seq<Date>, ids: seq<string>, at: seq<nat>,
                  deleted: bool)
    requires |clock| == |ds| > 0
    requires Names(c, db, ds[..|ds| - 1], clock[..|ds| - 1], ids, at, deleted)
    ensures var n := |ds| - 1;
            if TakenAs(c, db, ds, clock, n, deleted) then Names(c, db, ds, clock, ids + [ds[n].id], at + [n], deleted)
            else Names(c, db, ds, clock, ids, at, deleted)
  {
    PickNext(ds, ids, at);
    TakenSoFar(c, db, ds, clock, at, deleted);
  }

  /**
    * What a merge reports: as upserted, in order, the groups of the descriptors taken at their turn that are no
    * deletions; as tombstoned those of the ones that are.
    */
  lemma {:induction false} ReportsAre(c: Crypto, db: Db, ds: seq<Descriptor>, clock: seq<Date>)
    returns (upserts: seq<nat>, deletions: seq<nat>)
    requires |clock| == |ds|
    ensures Names(c, db, ds, clock, MergeAll(c, db, ds, clock).upserted, upserts, false)
    ensures Names(c, db, ds, clock, MergeAll(c, db, ds, clock).tombstoned, deletions, true)
    decreases |ds|
  {
    if ds == [] {
      upserts, deletions := [], [];
    } else {
      var n := |ds| - 1;
      upserts, deletions := ReportsAre(c, db, ds[..n], clock[..n]);
      var m := MergeAll(c, db, ds[..n], clock[..n]);
      NamesNext(c, db, ds, clock, m.upserted, upserts, false);
      NamesNext(c, db, ds, clock, m.tombstoned, deletions, true);
      ReportNext(c, db, ds, clock);
      if Taken(c, db, ds, clock, n) {
        if ds[n].culture == DELETED {
          deletions := deletions + [n];
        } else {
          upserts := upserts + [n];
        }
      }
    }
  }

  lemma ReportNext(c: Crypto, db: Db, ds: seq<Descriptor>, clock: seq<Date>)
    requires |clock| == |ds| > 0
    ensures var n := |ds| - 1;
            var before, after := MergeAll(c, db, ds[..n], clock[..n]), MergeAll(c, db, ds, clock);
            if !Taken(c, db, ds, clock, n) then after == before
            else if ds[n].culture == DELETED
            then after.upserted == before.upserted && after.tombstoned == before.tombstoned + [ds[n].id]
            else after.upserted == before.upserted + [ds[n].id] && after.tombstoned == before.tombstoned
  {
  }

  // ---- What the last one taken leaves ------------------------------------

  lemma {:induction false} LastTakenIsTaken(c: Crypto, db: Db, ds: seq<Descriptor>, clock: seq<Date>, g: string)
    requires |clock| == |ds|
    ensures var k := LastTaken(c, db, ds, clock, g);
            && (k.Some? ==> Taken(c, db, ds, clock, k.value))
            && forall i :: 0 <= i < |ds| && ds[i].id == g && Taken(c, db, ds, clock, i) ==> k.Some? && i <= k.value
    decreases |ds|
  {
    if ds == [] {
    } else {
      var n := |ds| - 1;
      LastTakenIsTaken(c, db, ds[..n], clock[..n], g);
      forall i | 0 <= i < n
        ensures Taken(c, db, ds[..n], clock[..n], i) <==> Taken(c, db, ds, clock, i)
      {
        TakenEarlier(c, db, ds, clock, n, i);
      }
    }
  }

  lemma MergeOneCulture(c: Crypto, db: Db, d: Descriptor, now: Date, g: string)
    requires d.id == g && Accepts(c, db.groups, d)
    ensures var db' := MergeOne(c, db, d, now);
            && g in db'.groups && db'.groups[g].culture == d.culture
            && (d.culture == DELETED ==> ActiveMembers(db'.members, g) == {})
            && (d.culture != DELETED ==> db'.members == db.members)
  {
  }

  lemma MergeOneSpares(c: Crypto, db: Db, d: Descriptor, now: Date, g: string)
    requires d.id != g || !Accepts(c, db.groups, d)
    ensures var db' := MergeOne(c, db, d, now);
            && (g in db'.groups <==> g in db.groups) && (g in db.groups ==> db'.groups[g] == db.groups[g])
            && ActiveMembers(db'.members, g) == ActiveMembers(db.members, g)
  {
  }

  /**
    * A group ends with the culture of the last descriptor taken for it. If that is a deletion, it has no active members
    * left and is reported as tombstoned; if not, it is reported as upserted.
    */
  lemma {:induction false} LastTakenDecides(c: Crypto, db: Db, ds: seq<Descriptor>, clock: seq<Date>, g: string)
    requires |clock| == |ds| && LastTaken(c, db, ds, clock, g).Some?
    ensures var m, d := MergeAll(c, db, ds, clock), ds[LastTaken(c, db, ds, clock, g).value];
            && g in m.db.groups && m.db.groups[g].culture == d.culture
            && (d.culture == DELETED ==> ActiveMembers(m.db.members, g) == {} && g in m.tombstoned)
            && (d.culture != DELETED ==> g in m.upserted)
    decreases |ds|
  {
    var n := |ds| - 1;
    var before := MergeAll(c, db, ds[..n], clock[..n]).db;
    ReportNext(c, db, ds, clock);
    if ds[n].id == g && Accepts(c, before.groups, ds[n]) {
      MergeOneCulture(c, before, ds[n], clock[n], g);
    } else {
      LastTakenDecides(c, db, ds[..n], clock[..n], g);
      MergeOneSpares(c, before, ds[n], clock[n], g);
    }
  }

  // ---- Who is taken ------------------------------------------------------

  /** Wrong in itself: the checksum, the size, or the signature. */
  predicate Faulty(c: Crypto, d: Descriptor) {
    || d.checksum != c.checksum(d.id, d.culture)
    || (ByteLength(d.culture) > 4096 && d.culture != "__deleted__")
    || (d.ownerPubkey.Some? && d.signature.Some?
        && !c.valid(Payload(d.id, d.culture, d.updatedAt), d.ownerPubkey.value, d.signature.value))
  }

  /** No match for the row: not newer, unsigned against a signature, or of another owner key. */
  predicate Outdone(r: GroupRow, d: Descriptor) {
    || d.updatedAt == r.updatedAt || Before(d.updatedAt, r.updatedAt)
    || (r.signature.Some? && d.signature.None?)
    || (r.ownerPubkey.Some? && d.ownerPubkey.Some? && d.ownerPubkey.value != r.ownerPubkey.value)
  }

  lemma AcceptsIff(c: Crypto, gs: Groups, d: Descriptor)
    ensures Accepts(c, gs, d) <==> !Faulty(c, d) && (d.id in gs ==> !Outdone(gs[d.id], d))
  {
    if d.id in gs {
      BeforeIsTotal(gs[d.id].updatedAt, d.updatedAt);
      BeforeRanks(gs[d.id].updatedAt, d.updatedAt);
    }
  }

  lemma BeforeRanks(s: string, t: string)
    ensures Before(s, t) ==> s != t && !Before(t, s)
  {
    if Before(s, t) {
      BeforeRanksLower(s, t);
      if Before(t, s) {
        BeforeRanksLower(t, s);
      }
    }
  }

  /** A descriptor that is not faulty, and not outdone by the row, becomes the row: under the local name and clock. */
  lemma FitIsTaken(c: Crypto, db: Db, d: Descriptor, now: Date)
    requires !Faulty(c, d) && (d.id in db.groups ==> !Outdone(db.groups[d.id], d))
    ensures var m := MergeAll(c, db, [d], [now]);
            && d.id in m.db.groups && m.db.groups[d.id].culture == d.culture && m.db.groups[d.id].updatedAt == now
            && m.db.groups[d.id].policy == "{}"
            && m.db.groups[d.id].name == (if d.id in db.groups then db.groups[d.id].name else d.id)
            && (FullySigned(d) ==> m.db.groups[d.id].signature == d.signature && m.db.groups[d.id].ownerId == d.ownerId
                                   && m.db.groups[d.id].ownerPubkey == d.ownerPubkey)
            && (d.id in db.groups && !FullySigned(d) ==> m.db.groups[d.id].signature == db.groups[d.id].signature)
            && m.upserted + m.tombstoned == [d.id]
  {
    AcceptsIff(c, db.groups, d);
    assert [d][..0] == [] && [now][..0] == [];
    assert MergeAll(c, db, [d][..0], [now][..0]) == Merge(db, [], []);
  }

  /** A group all of whose descriptors are faulty, or outdone by the row it has, keeps its row and its members. */
  lemma {:induction false} UnfitLeavesRow(c: Crypto, db: Db, ds: seq<Descriptor>, clock: seq<Date>, g: string)
    requires |clock| == |ds|
    requires forall i :: 0 <= i < |ds| && ds[i].id == g ==>
               Faulty(c, ds[i]) || (g in db.groups && Outdone(db.groups[g], ds[i]))
    ensures var m := MergeAll(c, db, ds, clock);
            && (g in m.db.groups <==> g in db.groups) && (g in db.groups ==> m.db.groups[g] == db.groups[g])
            && ActiveMembers(m.db.members, g) == ActiveMembers(db.members, g)
            && g !in m.upserted && g !in m.tombstoned
    decreases |ds|
  {
    if ds == [] {
    } else {
      var n := |ds| - 1;
      UnfitLeavesRow(c, db, ds[..n], clock[..n], g);
      var before := MergeAll(c, db, ds[..n], clock[..n]).db;
      AcceptsIff(c, before.groups, ds[n]);
      MergeOneSpares(c, before, ds[n], clock[n], g);
      ReportNext(c, db, ds, clock);
    }
  }

  // ---- Who signs ---------------------------------------------------------

  /** Named as owner, or, if no one is, an active member in the role of owner. */
  predicate OwnerHere(db: Db, me: string, id: string)
    requires id in db.groups
  {
    var k := MemberKey(id, me);
    if db.groups[id].ownerId.Some? then db.groups[id].ownerId.value == me
    else k in db.members && db.members[k].role == "owner" && db.members[k].posture != "removed"
  }

  /** Advertising signs exactly the rows without a signature that this node owns, and changes nothing else. */
  lemma SignsOwnOnly(c: Crypto, db: Db, me: string, id: string)
    requires id in db.groups
    ensures var r, r' := db.groups[id], AllSigned(c, db, me)[id];
            if r.signature.None? && OwnerHere(db, me, id)
            then r' == r.(ownerId := Some(me), ownerPubkey := Some(c.pubkey),
                          signature := Some(c.sign(Payload(id, r.culture, r.updatedAt))))
            else r' == r
  {
  }

  // ---- What is purged ----------------------------------------------------

  /** Purging removes the groups deleted before the cutoff, with their members, and spares all others. */
  lemma PurgeSpares(db: Db, cutoff: Date, id: string, k: MemberKey)
    ensures var db' := WithoutGroups(db, Purgeable(db.groups, cutoff));
            && (id in db'.groups <==>
                id in db.groups && !(db.groups[id].culture == "__deleted__" && Before(db.groups[id].updatedAt, cutoff)))
            && (id in db'.groups ==> db'.groups[id] == db.groups[id])
            && (k in db'.members <==> k in db.members && (k.group in db.groups ==> k.group in db'.groups))
            && (k in db'.members ==> db'.members[k] == db.members[k])
  {
  }
}
