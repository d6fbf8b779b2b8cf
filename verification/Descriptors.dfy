/** Group rows, their signed descriptors, and the merge of descriptors received from a peer. */
module Descriptors {
  import opened Collections
  import opened Era
  import opened Ranking
  import opened Texts

  /** Group dates are kept as the texts they are, and compared as texts. */
  type Date = string

  const DELETED: string := "__deleted__"
  const REMOVED: string := "removed"
  const ACTIVE: string := "active"
  const OWNER: string := "owner"
  const EMPTY_POLICY: string := "{}"

  datatype GroupRow = GroupRow(
    name: string,
    culture: string,
    policy: string,
    createdAt: Date,
    updatedAt: Date,
    ownerId: Option<string>,
    ownerPubkey: Option<string>,
    signature: Option<string>)

  datatype Descriptor = Descriptor(
    id: string,
    culture: string,
    updatedAt: Date,
    checksum: string,
    ownerId: Option<string>,
    ownerPubkey: Option<string>,
    signature: Option<string>)

  type Groups = map<string, GroupRow>
  datatype MemberKey = MemberKey(group: string, entity: string)
  datatype MemberRow = MemberRow(role: string, posture: string)
  type Members = map<MemberKey, MemberRow>

  /** The group tables of a node. */
  datatype Db = Db(groups: Groups, members: Members)

  /** What a signature covers, joined into one text by the code. */
  datatype Payload = Payload(id: string, culture: string, updatedAt: Date)

  /** SHA-256 over id and culture, Ed25519 verification under a key, and this node's own key, all kept uninterpreted. */
  datatype Crypto = Crypto(
    checksum: (string, string) -> string,
    valid: (Payload, string, string) -> bool,
    sign: Payload -> string,
    pubkey: string)

  function PayloadOf(d: Descriptor): Payload { Payload(d.id, d.culture, d.updatedAt) }

  // ---- Table updates -----------------------------------------------------

  function WithGroup(gs: Groups, id: string, name: string, culture: string, policy: string, now: Date): Groups {
    gs[id := if id in gs then gs[id].(name := name, culture := culture, policy := policy, updatedAt := now)
             else GroupRow(name, culture, policy, now, now, None, None, None)]
  }

  function Signed(r: GroupRow, owner: string, pubkey: string, signature: string): GroupRow {
    r.(ownerId := Some(owner), ownerPubkey := Some(pubkey), signature := Some(signature))
  }

  function WithSignature(gs: Groups, id: string, owner: string, pubkey: string, signature: string): Groups {
    if id in gs then gs[id := Signed(gs[id], owner, pubkey, signature)] else gs
  }

  /** The members of a group that have not been removed. */
  function ActiveMembers(ms: Members, g: string): set<string> {
    set k | k in ms && k.group == g && ms[k].posture != REMOVED :: k.entity
  }

  /** All members of `g` removed, everyone else as before. */
  function WithoutMembers(ms: Members, g: string): Members {
    map k | k in ms :: if k.group == g then ms[k].(posture := REMOVED) else ms[k]
  }

  function Purgeable(gs: Groups, cutoff: Date): set<string> {
    set id | id in gs && gs[id].culture == DELETED && Before(gs[id].updatedAt, cutoff)
  }

  function WithoutGroups(db: Db, ids: set<string>): Db {
    Db(db.groups - ids, map k | k in db.members && k.group !in ids :: db.members[k])
  }

  // ---- Merging one descriptor --------------------------------------------

  /** Checks that do not depend on the local tables: checksum, size, and the signature when it comes with its key. */
  predicate Sound(c: Crypto, d: Descriptor) {
    && d.checksum == c.checksum(d.id, d.culture)
    && (ByteLength(d.culture) <= MAX_CULTURE_BYTES || d.culture == DELETED)
    && (d.ownerPubkey.Some? && d.signature.Some? ==> c.valid(PayloadOf(d), d.ownerPubkey.value, d.signature.value))
  }

  /** Checks against the row already held: no unsigned update of a signed row, no other owner key, only newer dates. */
  predicate Supersedes(r: GroupRow, d: Descriptor) {
    && !(r.signature.Some? && d.signature.None?)
    && !(r.ownerPubkey.Some? && d.ownerPubkey.Some? && r.ownerPubkey != d.ownerPubkey)
    && Before(r.updatedAt, d.updatedAt)
  }

  predicate Accepts(c: Crypto, gs: Groups, d: Descriptor) {
    Sound(c, d) && (d.id in gs ==> Supersedes(gs[d.id], d))
  }

  predicate FullySigned(d: Descriptor) { d.ownerId.Some? && d.ownerPubkey.Some? && d.signature.Some? }

  /** The tables after an accepted descriptor: the local name stays, the date is the local clock's. */
  function Upserted(gs: Groups, d: Descriptor, now: Date): Groups {
    var name := if d.id in gs then gs[d.id].name else d.id;
    var written := WithGroup(gs, d.id, name, d.culture, EMPTY_POLICY, now);
    if FullySigned(d) then WithSignature(written, d.id, d.ownerId.value, d.ownerPubkey.value, d.signature.value)
    else written
  }

  function MergeOne(c: Crypto, db: Db, d: Descriptor, now: Date): Db {
    if !Accepts(c, db.groups, d) then db
    else Db(Upserted(db.groups, d, now), if d.culture == DELETED then WithoutMembers(db.members, d.id) else db.members)
  }

  datatype Merge = Merge(db: Db, upserted: seq<string>, tombstoned: seq<string>)

  /** Descriptors merged in order; `clock` holds the database clock at each. */
  function MergeAll(c: Crypto, db: Db, ds: seq<Descriptor>, clock: seq<Date>): Merge
    requires |clock| == |ds|
  {
    if ds == [] then Merge(db, [], [])
    else
      var n := |ds| - 1;
      var m := MergeAll(c, db, ds[..n], clock[..n]);
      var taken := if Accepts(c, m.db.groups, ds[n]) then [ds[n].id] else [];
      var deleted := ds[n].culture == DELETED;
      Merge(MergeOne(c, m.db, ds[n], clock[n]), m.upserted + (if deleted then [] else taken),
        m.tombstoned + if deleted then taken else [])
  }

  // ---- Advertising -------------------------------------------------------

  function DescriptorOf(c: Crypto, id: string, r: GroupRow): Descriptor {
    Descriptor(id, r.culture, r.updatedAt, c.checksum(id, r.culture), r.ownerId, r.ownerPubkey, r.signature)
  }

  /** This node owns the group, by the row or else by its membership. */
  predicate Owns(db: Db, me: string, id: string)
    requires id in db.groups
  {
    var owner := db.groups[id].ownerId;
    owner == Some(me)
    || (owner.None? && MemberKey(id, me) in db.members
        && db.members[MemberKey(id, me)].posture != REMOVED && db.members[MemberKey(id, me)].role == OWNER)
  }

  /** A row as advertised: owned rows that carry no signature yet are signed first. */
  function LazySigned(c: Crypto, db: Db, me: string, id: string): GroupRow
    requires id in db.groups
  {
    var r := db.groups[id];
    if Owns(db, me, id) && r.signature.None?
    then Signed(r, me, c.pubkey, c.sign(Payload(id, r.culture, r.updatedAt)))
    else r
  }

  function SignedAmong(c: Crypto, db: Db, me: string, ids: set<string>): Groups {
    map id | id in db.groups :: if id in ids then LazySigned(c, db, me, id) else db.groups[id]
  }

  function AllSigned(c: Crypto, db: Db, me: string): Groups { SignedAmong(c, db, me, db.groups.Keys) }

  /** Groups are listed by name. */
  function NameKeys(gs: Groups): map<string, Key> { map id | id in gs :: Key(0, Rank(gs[id].name)) }

  /** Signing one more row: what was signed before does not matter to it. */
  lemma SignsOneMore(c: Crypto, db: Db, me: string, ids: set<string>, id: string)
    requires id in db.groups && id !in ids
    ensures var db' := db.(groups := SignedAmong(c, db, me, ids));
            LazySigned(c, db', me, id) == LazySigned(c, db, me, id)
            && SignedAmong(c, db, me, ids + {id}) == db'.groups[id := LazySigned(c, db, me, id)]
  {
  }

  class GroupStorage {
    var db: Db

    constructor ()
      ensures db == Db(map[], map[])
    {
      db := Db(map[], map[]);
    }

    method WriteGroup(id: string, name: string, culture: string, policy: string, now: Date)
      modifies this
      ensures db == old(db).(groups := WithGroup(old(db.groups), id, name, culture, policy, now))
    {
      db := db.(groups := WithGroup(db.groups, id, name, culture, policy, now));
    }

    method WriteGroupSignature(id: string, owner: string, pubkey: string, signature: string)
      modifies this
      ensures db == old(db).(groups := WithSignature(old(db.groups), id, owner, pubkey, signature))
    {
      db := db.(groups := WithSignature(db.groups, id, owner, pubkey, signature));
    }

    method UpdateMemberPosture(g: string, e: string, posture: string) returns (changed: bool)
      modifies this
      ensures changed == (MemberKey(g, e) in old(db.members)) && db.groups == old(db.groups)
      ensures db.members ==
              if changed then old(db.members)[MemberKey(g, e) := old(db.members)[MemberKey(g, e)].(posture := posture)]
              else old(db.members)
    {
      var k := MemberKey(g, e);
      changed := k in db.members;
      if changed {
        db := db.(members := db.members[k := db.members[k].(posture := posture)]);
      }
    }

    /** Soft-removes whoever is still an active member of the group. */
    method RemoveMembers(g: string)
      modifies this
      ensures db == old(db).(members := WithoutMembers(old(db.members), g))
    {
      var active := ActiveMembers(db.members, g);
      var order := Enumerate(active);
      for i := 0 to |order|
        invariant db.groups == old(db.groups) && db.members.Keys == old(db.members).Keys
        invariant forall k :: k in db.members ==>
                    db.members[k] ==
                    if k.group == g && k.entity in order[..i] then old(db.members)[k].(posture := REMOVED)
                    else old(db.members)[k]
      {
        assert order[i] in Elems(order);
        var _ := UpdateMemberPosture(g, order[i], REMOVED);
      }
      forall k | k in db.members
        ensures db.members[k] == WithoutMembers(old(db.members), g)[k]
      {
        if k.group == g && old(db.members)[k].posture != REMOVED {
          assert k.entity in active && k.entity in Elems(order);
        }
      }
    }

    method MergeDescriptors(c: Crypto, ds: seq<Descriptor>, clock: seq<Date>)
      returns (upserted: seq<string>, tombstoned: seq<string>)
      requires |clock| == |ds|
      modifies this
      ensures Merge(db, upserted, tombstoned) == MergeAll(c, old(db), ds, clock)
    {
      upserted, tombstoned := [], [];
      for i := 0 to |ds|
        invariant Merge(db, upserted, tombstoned) == MergeAll(c, old(db), ds[..i], clock[..i])
      {
        assert ds[..i + 1][..i] == ds[..i] && clock[..i + 1][..i] == clock[..i];
        var taken := MergeDescriptor(c, ds[i], clock[i]);
        if taken {
          if ds[i].culture == DELETED {
            tombstoned := tombstoned + [ds[i].id];
          } else {
            upserted := upserted + [ds[i].id];
          }
        }
      }
      assert ds[..|ds|] == ds && clock[..|clock|] == clock;
    }

    method MergeDescriptor(c: Crypto, d: Descriptor, now: Date) returns (taken: bool)
      modifies this
      ensures taken == Accepts(c, old(db.groups), d) && db == MergeOne(c, old(db), d, now)
    {
      if d.checksum != c.checksum(d.id, d.culture) {
        return false;
      }
      if ByteLength(d.culture) > MAX_CULTURE_BYTES && d.culture != DELETED {
        return false;
      }
      if d.ownerPubkey.Some? && d.signature.Some? {
        if !c.valid(PayloadOf(d), d.ownerPubkey.value, d.signature.value) {
          return false;
        }
      }
      var name := d.id;
      if d.id in db.groups {
        var local := db.groups[d.id];
        if local.signature.Some? && d.signature.None? {
          return false;
        }
        if local.ownerPubkey.Some? && d.ownerPubkey.Some? && local.ownerPubkey.value != d.ownerPubkey.value {
          return false;
        }
        if !Before(local.updatedAt, d.updatedAt) {
          return false;
        }
        name := local.name;
      }
      WriteGroup(d.id, name, d.culture, EMPTY_POLICY, now);
      if d.ownerId.Some? && d.ownerPubkey.Some? && d.signature.Some? {
        WriteGroupSignature(d.id, d.ownerId.value, d.ownerPubkey.value, d.signature.value);
      }
      if d.culture == DELETED {
        RemoveMembers(d.id);
      }
      taken := true;
    }

    method Advertise(c: Crypto, me: string, id: string) returns (d: Descriptor)
      requires id in db.groups
      modifies this
      ensures db == old(db).(groups := old(db.groups)[id := LazySigned(c, old(db), me, id)])
      ensures d == DescriptorOf(c, id, LazySigned(c, old(db), me, id))
    {
      var r := db.groups[id];
      if Owns(db, me, id) && r.signature.None? {
        WriteGroupSignature(id, me, c.pubkey, c.sign(Payload(id, r.culture, r.updatedAt)));
      } else {
        assert db.groups[id := r] == db.groups;
      }
      d := DescriptorOf(c, id, db.groups[id]);
    }

    /** All group ids, ordered by name. */
    method ListGroups() returns (order: seq<string>)
      ensures NoDup(order) && Elems(order) == db.groups.Keys && Ranked(NameKeys(db.groups), order)
    {
      var ids := Enumerate(db.groups.Keys);
      order := SelectBest(NameKeys(db.groups), ids, |ids|);
      AllAreBest(NameKeys(db.groups), ids, order);
    }

    method AdvertiseAll(c: Crypto, me: string, order: seq<string>) returns (ds: seq<Descriptor>)
      requires NoDup(order) && Elems(order) == db.groups.Keys
      modifies this
      ensures db == old(db).(groups := AllSigned(c, old(db), me)) && |ds| == |order|
      ensures forall i :: 0 <= i < |ds| ==>
                order[i] in old(db.groups) && ds[i] == DescriptorOf(c, order[i], LazySigned(c, old(db), me, order[i]))
    {
      ds := [];
      ghost var before, done: set<string> := db, {};
      assert SignedAmong(c, db, me, {}) == db.groups;
      for i := 0 to |order|
        invariant done == Elems(order[..i]) && db == before.(groups := SignedAmong(c, before, me, done)) && |ds| == i
        invariant forall k :: 0 <= k < i ==>
                    order[k] in before.groups && ds[k] == DescriptorOf(c, order[k], LazySigned(c, before, me, order[k]))
      {
        var id := order[i];
        OneMore(order, i);
        SignsOneMore(c, before, me, done, id);
        var d := Advertise(c, me, id);
        ds := ds + [d];
        done := done + {id};
      }
      assert order[..|order|] == order;
    }

    /** Descriptors of all groups by name, one each, signing on the way what this node owns and has not signed. */
    method BuildDescriptors(c: Crypto, me: string) returns (ds: seq<Descriptor>, order: seq<string>)
      modifies this
      ensures db == old(db).(groups := AllSigned(c, old(db), me))
      ensures NoDup(order) && Elems(order) == old(db.groups.Keys) && Ranked(NameKeys(old(db.groups)), order)
      ensures |ds| == |order|
      ensures forall i :: 0 <= i < |ds| ==>
                order[i] in old(db.groups) && ds[i] == DescriptorOf(c, order[i], LazySigned(c, old(db), me, order[i]))
    {
      order := ListGroups();
      ds := AdvertiseAll(c, me, order);
    }

    method AddMember(g: string, e: string, role: string)
      modifies this
      ensures db == old(db).(members := old(db.members)[MemberKey(g, e) := MemberRow(role, ACTIVE)])
    {
      db := db.(members := db.members[MemberKey(g, e) := MemberRow(role, ACTIVE)]);
    }

    method DeleteGroup(id: string) returns (existed: bool)
      modifies this
      ensures db == WithoutGroups(old(db), {id}) && existed == (id in old(db.groups))
    {
      existed := id in db.groups;
      db := WithoutGroups(db, {id});
    }

    method PurgeDeletedGroups(cutoff: Date) returns (purged: nat)
      modifies this
      ensures db == WithoutGroups(old(db), Purgeable(old(db.groups), cutoff))
              && purged == |Purgeable(old(db.groups), cutoff)|
    {
      var doomed := Purgeable(db.groups, cutoff);
      db := WithoutGroups(db, doomed);
      purged := |doomed|;
    }
  }

  // ---- Deletion ----------------------------------------------------------

  /** An accepted deletion leaves the group without active members and everyone else's membership alone. */
  lemma DeletionClearsMembers(c: Crypto, db: Db, d: Descriptor, now: Date, g: string)
    requires Accepts(c, db.groups, d) && d.culture == DELETED
    ensures ActiveMembers(MergeOne(c, db, d, now).members, g) == if g == d.id then {} else ActiveMembers(db.members, g)
    ensures MergeOne(c, db, d, now).members.Keys == db.members.Keys
  {
  }

  // ---- Merging the same descriptors again --------------------------------

  lemma MergeSettles(c: Crypto, db: Db, d: Descriptor, now: Date)
    ensures Accepts(c, MergeOne(c, db, d, now).groups, d) <==> Accepts(c, db.groups, d) && Before(now, d.updatedAt)
  {
  }

  /** A descriptor that is turned away stays turned away, whatever is merged at or after its date. */
  lemma RefusalPersists(c: Crypto, db: Db, d: Descriptor, e: Descriptor, now: Date)
    requires !Accepts(c, db.groups, d) && !Before(now, d.updatedAt)
    ensures !Accepts(c, MergeOne(c, db, e, now).groups, d)
  {
  }

  ghost predicate AllRefused(c: Crypto, gs: Groups, ds: seq<Descriptor>) {
    forall i :: 0 <= i < |ds| ==> !Accepts(c, gs, ds[i])
  }

  ghost predicate NotAhead(ds: seq<Descriptor>, clock: seq<Date>) {
    forall i, j :: 0 <= i < |ds| && 0 <= j < |clock| ==> !Before(clock[j], ds[i].updatedAt)
  }

  lemma {:induction false} MergeRefusesEarlier(c: Crypto, db: Db, ds: seq<Descriptor>, clock: seq<Date>)
    requires |clock| == |ds| && NotAhead(ds, clock)
    ensures AllRefused(c, MergeAll(c, db, ds, clock).db.groups, ds)
    decreases |ds|
  {
    if ds == [] {
    } else {
      var n := |ds| - 1;
      MergeRefusesEarlier(c, db, ds[..n], clock[..n]);
      var before := MergeAll(c, db, ds[..n], clock[..n]).db;
      forall i | 0 <= i < |ds|
        ensures !Accepts(c, MergeOne(c, before, ds[n], clock[n]).groups, ds[i])
      {
        MergeSettles(c, before, ds[n], clock[n]);
        if i < n {
          assert !Accepts(c, before.groups, ds[..n][i]);
          RefusalPersists(c, before, ds[i], ds[n], clock[n]);
        }
      }
    }
  }

  predicate TakesNothing(m: Merge) { m.upserted == [] && m.tombstoned == [] }

  /** A merge takes nothing if and only if the tables as they are refuse every descriptor; then it changes nothing. */
  lemma {:induction false} TakesNothingIff(c: Crypto, db: Db, ds: seq<Descriptor>, clock: seq<Date>)
    requires |clock| == |ds|
    ensures TakesNothing(MergeAll(c, db, ds, clock)) <==> AllRefused(c, db.groups, ds)
    ensures TakesNothing(MergeAll(c, db, ds, clock)) ==> MergeAll(c, db, ds, clock).db == db
    decreases |ds|
  {
    if ds == [] {
    } else {
      var n := |ds| - 1;
      TakesNothingIff(c, db, ds[..n], clock[..n]);
      assert AllRefused(c, db.groups, ds) <==> AllRefused(c, db.groups, ds[..n]) && !Accepts(c, db.groups, ds[n]) by {
        assert forall i :: 0 <= i < n ==> ds[..n][i] == ds[i];
      }
    }
  }

  /**
    * Merging the same descriptors again changes nothing, as long as none is dated ahead of the clock of the first
    * merge.
    */
  lemma MergeIsStable(c: Crypto, db: Db, ds: seq<Descriptor>, clock: seq<Date>, again: seq<Date>)
    requires |clock| == |ds| == |again| && NotAhead(ds, clock)
    ensures var m := MergeAll(c, db, ds, clock); MergeAll(c, m.db, ds, again) == Merge(m.db, [], [])
  {
    MergeRefusesEarlier(c, db, ds, clock);
    TakesNothingIff(c, MergeAll(c, db, ds, clock).db, ds, again);
  }

  predicate DistinctGroups(ds: seq<Descriptor>) {
    forall i, j :: 0 <= i < j < |ds| ==> ds[i].id != ds[j].id
  }

  lemma OtherRowsUntouched(c: Crypto, db: Db, e: Descriptor, now: Date, d: Descriptor)
    requires d.id != e.id
    ensures Accepts(c, MergeOne(c, db, e, now).groups, d) <==> Accepts(c, db.groups, d)
  {
  }

  lemma {:induction false} LaterRowsUntouched(c: Crypto, db: Db, ds: seq<Descriptor>, clock: seq<Date>, d: Descriptor)
    requires |clock| == |ds| && forall i :: 0 <= i < |ds| ==> ds[i].id != d.id
    ensures Accepts(c, MergeAll(c, db, ds, clock).db.groups, d) <==> Accepts(c, db.groups, d)
    decreases |ds|
  {
    if ds != [] {
      var n := |ds| - 1;
      LaterRowsUntouched(c, db, ds[..n], clock[..n], d);
      OtherRowsUntouched(c, MergeAll(c, db, ds[..n], clock[..n]).db, ds[n], clock[n], d);
    }
  }

  lemma {:induction false} StillTakenIff(c: Crypto, db: Db, ds: seq<Descriptor>, clock: seq<Date>, i: nat)
    requires |clock| == |ds| && DistinctGroups(ds) && i < |ds|
    ensures Accepts(c, MergeAll(c, db, ds, clock).db.groups, ds[i])
            <==> Accepts(c, db.groups, ds[i]) && Before(clock[i], ds[i].updatedAt)
    decreases |ds|
  {
    var n := |ds| - 1;
    var before := MergeAll(c, db, ds[..n], clock[..n]).db;
    if i == n {
      LaterRowsUntouched(c, db, ds[..n], clock[..n], ds[n]);
      MergeSettles(c, before, ds[n], clock[n]);
    } else {
      StillTakenIff(c, db, ds[..n], clock[..n], i);
      OtherRowsUntouched(c, before, ds[n], clock[n], ds[i]);
    }
  }

  /**
    * With one descriptor per group, a second merge takes nothing if and only if no accepted one was dated ahead of the
    * clock.
    */
  lemma MergeAgainIff(c: Crypto, db: Db, ds: seq<Descriptor>, clock: seq<Date>, again: seq<Date>)
    requires |clock| == |ds| == |again| && DistinctGroups(ds)
    ensures TakesNothing(MergeAll(c, MergeAll(c, db, ds, clock).db, ds, again))
            <==> forall i :: 0 <= i < |ds| && Accepts(c, db.groups, ds[i]) ==> !Before(clock[i], ds[i].updatedAt)
  {
    TakesNothingIff(c, MergeAll(c, db, ds, clock).db, ds, again);
    forall i | 0 <= i < |ds|
      ensures Accepts(c, MergeAll(c, db, ds, clock).db.groups, ds[i])
              <==> Accepts(c, db.groups, ds[i]) && Before(clock[i], ds[i].updatedAt)
    {
      StillTakenIff(c, db, ds, clock, i);
    }
  }

  /** The index of the last descriptor of group `g` that the merge took. */
  function LastTaken(c: Crypto, db: Db, ds: seq<Descriptor>, clock: seq<Date>, g: string): (r: Option<nat>)
    requires |clock| == |ds|
    ensures r.Some? ==> r.value < |ds| && ds[r.value].id == g
  {
    if ds == [] then None
    else
      var n := |ds| - 1;
      if ds[n].id == g && Accepts(c, MergeAll(c, db, ds[..n], clock[..n]).db.groups, ds[n]) then Some(n)
      else LastTaken(c, db, ds[..n], clock[..n], g)
  }

  lemma MergeOneRow(c: Crypto, db: Db, d: Descriptor, now: Date, g: string)
    ensures var gs := MergeOne(c, db, d, now).groups;
            if d.id == g && Accepts(c, db.groups, d) then g in gs && gs[g].updatedAt == now
            else (g in gs <==> g in db.groups) && (g in gs ==> gs[g] == db.groups[g])
  {
  }

  /** After a merge a group's row carries the clock of the last descriptor taken for it, or is untouched. */
  lemma {:induction false} LastTakenDatesRow(c: Crypto, db: Db, ds: seq<Descriptor>, clock: seq<Date>, g: string)
    requires |clock| == |ds|
    ensures var gs, k := MergeAll(c, db, ds, clock).db.groups, LastTaken(c, db, ds, clock, g);
            if k.Some? then g in gs && gs[g].updatedAt == clock[k.value]
            else (g in gs <==> g in db.groups) && (g in gs ==> gs[g] == db.groups[g])
    decreases |ds|
  {
    if ds != [] {
      var n := |ds| - 1;
      LastTakenDatesRow(c, db, ds[..n], clock[..n], g);
      MergeOneRow(c, MergeAll(c, db, ds[..n], clock[..n]).db, ds[n], clock[n], g);
    }
  }

  lemma {:induction false} UntakenIsRefused(c: Crypto, db: Db, ds: seq<Descriptor>, clock: seq<Date>, i: nat)
    requires |clock| == |ds| && i < |ds| && LastTaken(c, db, ds, clock, ds[i].id).None?
    ensures !Accepts(c, db.groups, ds[i])
    decreases |ds|
  {
    var n := |ds| - 1;
    if i < n {
      UntakenIsRefused(c, db, ds[..n], clock[..n], i);
    } else {
      LastTakenDatesRow(c, db, ds[..n], clock[..n], ds[i].id);
    }
  }

  /** The row's signature and key leave room for the descriptor, whatever its date. */
  predicate KeysAllow(r: GroupRow, d: Descriptor) {
    && !(r.signature.Some? && d.signature.None?)
    && !(r.ownerPubkey.Some? && d.ownerPubkey.Some? && r.ownerPubkey != d.ownerPubkey)
  }

  /**
    * The descriptor is refused as unsound or by the row's keys, or is not dated after the clock of the last one taken
    * for its group.
    */
  ghost predicate Spent(c: Crypto, db: Db, ds: seq<Descriptor>, clock: seq<Date>, i: nat)
    requires |clock| == |ds| && i < |ds|
  {
    var gs, k := MergeAll(c, db, ds, clock).db.groups, LastTaken(c, db, ds, clock, ds[i].id);
    k.Some? ==>
      || !Sound(c, ds[i])
      || (ds[i].id in gs && !KeysAllow(gs[ds[i].id], ds[i]))
      || !Before(clock[k.value], ds[i].updatedAt)
  }

  lemma RefusedIffSpent(c: Crypto, db: Db, ds: seq<Descriptor>, clock: seq<Date>, i: nat)
    requires |clock| == |ds| && i < |ds|
    ensures !Accepts(c, MergeAll(c, db, ds, clock).db.groups, ds[i]) <==> Spent(c, db, ds, clock, i)
  {
    LastTakenDatesRow(c, db, ds, clock, ds[i].id);
    if LastTaken(c, db, ds, clock, ds[i].id).None? {
      UntakenIsRefused(c, db, ds, clock, i);
    }
  }

  /** For any list, groups repeated or not: a second merge takes nothing if and only if every descriptor is spent. */
  lemma MergeAnyAgainIff(c: Crypto, db: Db, ds: seq<Descriptor>, clock: seq<Date>, again: seq<Date>)
    requires |clock| == |ds| == |again|
    ensures TakesNothing(MergeAll(c, MergeAll(c, db, ds, clock).db, ds, again))
            <==> forall i :: 0 <= i < |ds| ==> Spent(c, db, ds, clock, i)
  {
    TakesNothingIff(c, MergeAll(c, db, ds, clock).db, ds, again);
    forall i | 0 <= i < |ds|
      ensures !Accepts(c, MergeAll(c, db, ds, clock).db.groups, ds[i]) <==> Spent(c, db, ds, clock, i)
    {
      RefusedIffSpent(c, db, ds, clock, i);
    }
  }

  // ---- Owner pinning over whole runs -------------------------------------

  datatype Event =
    | Receive(ds: seq<Descriptor>, clock: seq<Date>)
    | Advertise(me: string)
    | LocalWrite(id: string, name: string, culture: string, policy: string, now: Date)
    | SetMember(key: MemberKey, row: MemberRow)
    | ClearMembers(group: string)
    | Delete(ids: set<string>)

  predicate Step(c: Crypto, db: Db, e: Event, db': Db) {
    match e
    case Receive(ds, clock) => |clock| == |ds| && db' == MergeAll(c, db, ds, clock).db
    case Advertise(me) => db' == db.(groups := AllSigned(c, db, me))
    case LocalWrite(id, name, culture, policy, now) =>
      db' == db.(groups := WithGroup(db.groups, id, name, culture, policy, now))
    case SetMember(key, row) => db' == db.(members := db.members[key := row])
    case ClearMembers(g) => db' == db.(members := WithoutMembers(db.members, g))
    case Delete(ids) => db' == WithoutGroups(db, ids)
  }

  predicate IsRun(c: Crypto, states: seq<Db>, events: seq<Event>) {
    && |states| == |events| + 1 && states[0] == Db(map[], map[])
    && forall i {:trigger events[i]} :: 0 <= i < |events| ==> Step(c, states[i], events[i], states[i + 1])
  }

  /** Owner, key and signature are all set or all unset. */
  predicate Complete(r: GroupRow) {
    (r.ownerId.Some? <==> r.signature.Some?) && (r.ownerPubkey.Some? <==> r.signature.Some?)
  }

  predicate AllComplete(gs: Groups) { forall id :: id in gs ==> Complete(gs[id]) }

  /** A key that is set stays as it is while the row exists. */
  predicate KeepsKeys(gs: Groups, gs': Groups) {
    forall id :: id in gs && id in gs' && gs[id].ownerPubkey.Some? ==> gs'[id].ownerPubkey == gs[id].ownerPubkey
  }

  lemma MergeOnePins(c: Crypto, db: Db, d: Descriptor, now: Date)
    requires AllComplete(db.groups)
    ensures AllComplete(MergeOne(c, db, d, now).groups) && KeepsKeys(db.groups, MergeOne(c, db, d, now).groups)
    ensures db.groups.Keys <= MergeOne(c, db, d, now).groups.Keys
  {
  }

  lemma {:induction false} MergeAllPins(c: Crypto, db: Db, ds: seq<Descriptor>, clock: seq<Date>)
    requires |clock| == |ds| && AllComplete(db.groups)
    ensures var m := MergeAll(c, db, ds, clock);
            AllComplete(m.db.groups) && KeepsKeys(db.groups, m.db.groups) && db.groups.Keys <= m.db.groups.Keys
    decreases |ds|
  {
    if ds != [] {
      var n := |ds| - 1;
      MergeAllPins(c, db, ds[..n], clock[..n]);
      MergeOnePins(c, MergeAll(c, db, ds[..n], clock[..n]).db, ds[n], clock[n]);
    }
  }

  lemma StepPins(c: Crypto, db: Db, e: Event, db': Db)
    requires Step(c, db, e, db') && AllComplete(db.groups)
    ensures AllComplete(db'.groups) && KeepsKeys(db.groups, db'.groups)
  {
    if e.Receive? {
      MergeAllPins(c, db, e.ds, e.clock);
    }
  }

  lemma {:induction false} RowsStayComplete(c: Crypto, states: seq<Db>, events: seq<Event>, i: nat)
    requires IsRun(c, states, events) && i < |states|
    ensures AllComplete(states[i].groups)
    decreases i
  {
    if i == 0 {
    } else {
      RowsStayComplete(c, states, events, i - 1);
      assert Step(c, states[i - 1], events[i - 1], states[i - 1 + 1]);
      StepPins(c, states[i - 1], events[i - 1], states[i]);
    }
  }

  /**
    * In every run, owner, key and signature go together, and the owner key of a group does not change while its row
    * exists.
    */
  lemma {:induction false} OwnerIsPinned(c: Crypto, states: seq<Db>, events: seq<Event>, i: nat, j: nat, g: string)
    requires IsRun(c, states, events) && i <= j < |states|
    requires forall k :: i <= k <= j ==> g in states[k].groups
    ensures Complete(states[j].groups[g])
    ensures states[i].groups[g].ownerPubkey.Some? ==> states[j].groups[g].ownerPubkey == states[i].groups[g].ownerPubkey
    decreases j
  {
    RowsStayComplete(c, states, events, j);
    if i < j {
      OwnerIsPinned(c, states, events, i, j - 1, g);
      RowsStayComplete(c, states, events, j - 1);
      assert Step(c, states[j - 1], events[j - 1], states[j - 1 + 1]);
      StepPins(c, states[j - 1], events[j - 1], states[j]);
      assert g in states[j - 1].groups && g in states[j].groups;
    }
  }

  // ---- How far a signature travels ---------------------------------------

  /** Under no key does one signature fit two of these payloads. */
  ghost predicate Telling(c: Crypto, payloads: set<Payload>) {
    forall p, q, k, s :: p in payloads && q in payloads && c.valid(p, k, s) && c.valid(q, k, s) ==> p == q
  }

  /** This node's own signature verifies under its key. */
  predicate SignsOwn(c: Crypto, p: Payload) { c.valid(p, c.pubkey, c.sign(p)) }

  /** A signature that spells its payload out: the lengths of the first two texts, then all three. */
  function Spelled(p: Payload): string { Unary(|p.id|) + (Unary(|p.culture|) + Joined(p)) }

  function Joined(p: Payload): string { p.id + (p.culture + p.updatedAt) }

  function Unary(n: nat): (r: string)
    ensures |r| == n + 1 && r[n] == ';' && forall i :: 0 <= i < n ==> r[i] == '1'
  {
    if n == 0 then ";" else "1" + Unary(n - 1)
  }

  lemma UnaryTells(m: nat, x: string, n: nat, y: string)
    requires Unary(m) + x == Unary(n) + y
    ensures m == n && x == y
  {
    var a, b := Unary(m) + x, Unary(n) + y;
    assert a[m] == ';' && b[n] == ';';
    assert m == n;
    assert x == a[m + 1..] && y == b[n + 1..];
  }

  lemma SpelledTells(p: Payload, q: Payload)
    requires Spelled(p) == Spelled(q)
    ensures p == q
  {
    UnaryTells(|p.id|, Unary(|p.culture|) + Joined(p), |q.id|, Unary(|q.culture|) + Joined(q));
    UnaryTells(|p.culture|, Joined(p), |q.culture|, Joined(q));
    CutTwice(p.id, p.culture + p.updatedAt, q.id, q.culture + q.updatedAt);
    CutTwice(p.culture, p.updatedAt, q.culture, q.updatedAt);
  }

  /**
    * There are signatures that tell all payloads apart and verify under the signer's key: those that spell the payload
    * out.
    */
  lemma TellingExists(payloads: set<Payload>) returns (c: Crypto)
    ensures Telling(c, payloads) && forall p :: SignsOwn(c, p)
  {
    c := Crypto((id, culture) => id, (p, k, s) => s == Spelled(p), p => Spelled(p), "");
    forall p, q, k, s | p in payloads && q in payloads && c.valid(p, k, s) && c.valid(q, k, s)
      ensures p == q
    {
      SpelledTells(p, q);
    }
  }

  predicate Small(culture: string) { ByteLength(culture) <= MAX_CULTURE_BYTES || culture == DELETED }

  /** A row is advertised in a form peers find sound if and only if its signature is over what the row says now. */
  lemma AdvertisedSoundIff(c: Crypto, id: string, r: GroupRow, p: Payload)
    requires r.ownerPubkey.Some? && r.signature.Some? && c.valid(p, r.ownerPubkey.value, r.signature.value)
             && Small(r.culture)
    requires Telling(c, {p, Payload(id, r.culture, r.updatedAt)})
    ensures Sound(c, DescriptorOf(c, id, r)) <==> p == Payload(id, r.culture, r.updatedAt)
  {
    var d := DescriptorOf(c, id, r);
    if Sound(c, d) {
      assert c.valid(PayloadOf(d), r.ownerPubkey.value, r.signature.value);
    }
  }

  /** Merging re-dates the row but not its signature: passed on, it is sound exactly when both dates agree. */
  lemma PassedOnSoundIff(c: Crypto, db: Db, d: Descriptor, now: Date)
    requires Accepts(c, db.groups, d) && FullySigned(d)
    requires Telling(c, {PayloadOf(d), Payload(d.id, d.culture, now)})
    ensures Sound(c, DescriptorOf(c, d.id, MergeOne(c, db, d, now).groups[d.id])) <==> now == d.updatedAt
  {
    AdvertisedSoundIff(c, d.id, MergeOne(c, db, d, now).groups[d.id], PayloadOf(d));
  }

  /** A row this node has just signed is sound when advertised. */
  lemma OwnSignatureIsSound(c: Crypto, db: Db, me: string, id: string)
    requires id in db.groups && Owns(db, me, id) && db.groups[id].signature.None? && Small(db.groups[id].culture)
    requires SignsOwn(c, Payload(id, db.groups[id].culture, db.groups[id].updatedAt))
    ensures Sound(c, DescriptorOf(c, id, LazySigned(c, db, me, id)))
  {
  }

  /**
    * Rewriting a signed row, deletion included, keeps the old signature: peers find it sound only if nothing it covers
    * changed.
    */
  lemma RewrittenSoundIff(c: Crypto, db: Db, me: string, id: string, name: string, culture: string, policy: string,
                          now: Date)
    requires id in db.groups && db.groups[id].signature.Some? && db.groups[id].ownerPubkey.Some?
    requires Sound(c, DescriptorOf(c, id, db.groups[id])) && Small(culture)
    requires Telling(c, {Payload(id, db.groups[id].culture, db.groups[id].updatedAt), Payload(id, culture, now)})
    ensures var db' := db.(groups := WithGroup(db.groups, id, name, culture, policy, now));
            Sound(c, DescriptorOf(c, id, LazySigned(c, db', me, id)))
            <==> culture == db.groups[id].culture && now == db.groups[id].updatedAt
  {
    var r := db.groups[id];
    var r' := WithGroup(db.groups, id, name, culture, policy, now)[id];
    AdvertisedSoundIff(c, id, r', Payload(id, r.culture, r.updatedAt));
  }
}
