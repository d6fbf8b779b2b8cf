/** The write buffer and the push-retry queue of the replication loop. */
module PushQueueModel {
  import opened Collections
  import opened Era
  import opened Replication
  import opened Batching
  import opened Cultures

  type Time = nat

  datatype PendingPush = PendingPush(items: seq<Item>, group: string, attempt: nat, nextAt: Time)

  /** A push message handed to the network task. */
  datatype Message = Message(peer: string, items: seq<Item>)

  type Buffer = map<string, seq<Item>>

  // ---- Local writes ------------------------------------------------------

  /** A local write, with the eagerness of its group at that moment. */
  datatype LocalWrite = LocalWrite(
    group: Option<string>,
    eagerness: string,
    id: string,
    itemType: string,
    data: Blob,
    keyVersion: nat,
    parent: Option<string>,
    isCopy: bool,
    at: Timestamp)

  /** Local writes of oversized items and of groups that keep quiet are not pushed. */
  predicate IsPushed(w: LocalWrite) {
    w.group.Some? && |w.data| <= MAX_ITEM_BYTES && StrategyOf(w.eagerness).EagerPush?
  }

  /** The item pushed for a local write to a group: dated, checksummed and signed as ours. */
  function ItemOf(h: Hash, entity: string, w: LocalWrite): Item
    requires w.group.Some?
  {
    Item(w.id, w.itemType, w.data, h(w.data), entity, w.group.value, w.keyVersion, w.parent, w.isCopy, w.at)
  }

  /**
    * What is pushed for a local write, a peer that accepts the group and does not know the id stores as it was written.
    */
  lemma PushedWriteIsStored(h: Hash, entity: string, w: LocalWrite, policy: Acceptance, s: Store)
    requires IsPushed(w) && w.itemType != TOMBSTONE && policy.Accepts(w.group.value) && w.id !in s
    ensures var (s', outcome) := Receive(h, policy, s, ItemOf(h, entity, w));
            && outcome.Stored? && s' - {w.id} == s && w.id in s'
            && s'[w.id].itemType == w.itemType && s'[w.id].data == w.data && s'[w.id].checksum == Some(h(w.data))
            && s'[w.id].author == Some(entity) && s'[w.id].group == w.group && s'[w.id].parent == w.parent
            && s'[w.id].isCopy == w.isCopy && s'[w.id].updatedAt == w.at
            && (w.keyVersion < 0x8000_0000 ==> s'[w.id].keyVersion == w.keyVersion)
  {
    var x := ItemOf(h, entity, w);
    assert s[w.id := RowOf(h, x)] - {w.id} == s;
  }

  function BufferOf(b: Buffer, g: string): seq<Item> { if g in b then b[g] else [] }

  function Buffered(b: Buffer, x: Item): Buffer { b[x.group := BufferOf(b, x.group) + [x]] }

  // ---- Flushing ----------------------------------------------------------

  function NewPush(items: seq<Item>, g: string, now: Time): PendingPush {
    PendingPush(items, g, 0, now + PUSH_RETRY_BACKOFFS[0])
  }

  function NewPushes(b: Buffer, order: seq<string>, now: Time): seq<PendingPush>
    requires Elems(order) <= b.Keys
  {
    seq(|order|, i requires 0 <= i < |order| => assert order[i] in Elems(order); NewPush(b[order[i]], order[i], now))
  }

  function NonEmpty(b: Buffer): set<string> { set g | g in b && b[g] != [] }

  /** One flush visits each group that has writes exactly once, in some order. */
  predicate Visits(b: Buffer, order: seq<string>) { NoDup(order) && Elems(order) == NonEmpty(b) }

  // ---- Retrying ----------------------------------------------------------

  predicate Due(p: PendingPush, now: Time) { now >= p.nextAt }

  /** What a retry tick leaves of one push: nothing once its last attempt is spent. */
  function RetryOne(p: PendingPush, now: Time): Option<PendingPush> {
    if !Due(p, now) then Some(p)
    else if p.attempt + 1 >= PUSH_RETRY_COUNT then None
    else Some(p.(attempt := p.attempt + 1, nextAt := now + PUSH_RETRY_BACKOFFS[p.attempt + 1]))
  }

  function AsSeq<T>(o: Option<T>): seq<T> { if o.Some? then [o.value] else [] }

  function Retrying(now: Time): PendingPush -> seq<PendingPush> { p => AsSeq(RetryOne(p, now)) }

  function RetryAll(ps: seq<PendingPush>, now: Time): seq<PendingPush> { FlatMap(Retrying(now), ps) }

  function Spending(now: Time): PendingPush -> seq<PendingPush> { p => if RetryOne(p, now).None? then [p] else [] }

  /** The pushes a retry tick gives up on. */
  function Exhausted(ps: seq<PendingPush>, now: Time): seq<PendingPush> { FlatMap(Spending(now), ps) }

  /** Every queued push still has an attempt to make. */
  predicate InRange(ps: seq<PendingPush>) { forall i :: 0 <= i < |ps| ==> ps[i].attempt < PUSH_RETRY_COUNT }

  // ---- What peers are sent -----------------------------------------------

  /** Everything sent to one peer, in order. */
  function Delivered(sent: seq<Message>, peer: string): seq<Item> {
    if sent == [] then []
    else Delivered(sent[..|sent| - 1], peer) + if sent[|sent| - 1].peer == peer then sent[|sent| - 1].items else []
  }

  function CountFor(delivered: map<string, nat>, peer: string): nat { if peer in delivered then delivered[peer] else 0 }

  /** The count kept for each peer is the number of items sent to it. */
  ghost predicate Tallied(sent: seq<Message>, delivered: map<string, nat>) {
    forall peer :: CountFor(delivered, peer) == |Delivered(sent, peer)|
  }

  /** Each of the peers has been sent the items, in order, and no one else anything. */
  ghost predicate Gets(before: seq<Message>, after: seq<Message>, peers: set<string>, items: seq<Item>) {
    forall peer :: Delivered(after, peer) == Delivered(before, peer) + if peer in peers then items else []
  }

  lemma GetsMore(before: seq<Message>, mid: seq<Message>, after: seq<Message>, peers: set<string>, xs: seq<Item>,
                 ys: seq<Item>)
    requires Gets(before, mid, peers, xs) && Gets(mid, after, peers, ys)
    ensures Gets(before, after, peers, xs + ys)
  {
    forall peer
      ensures Delivered(after, peer) == Delivered(before, peer) + if peer in peers then xs + ys else []
    {
      assert Delivered(mid, peer) == Delivered(before, peer) + if peer in peers then xs else [];
    }
  }

  lemma SentOne(sent: seq<Message>, to: string, batch: seq<Item>, peer: string)
    ensures Delivered(sent + [Message(to, batch)], peer) == Delivered(sent, peer) + if peer == to then batch else []
  {
    assert (sent + [Message(to, batch)])[..|sent|] == sent;
  }

  lemma OneMoreTallied(sent: seq<Message>, delivered: map<string, nat>, to: string, batch: seq<Item>)
    requires Tallied(sent, delivered)
    ensures Tallied(sent + [Message(to, batch)], delivered[to := CountFor(delivered, to) + |batch|])
  {
    var sent', delivered' := sent + [Message(to, batch)], delivered[to := CountFor(delivered, to) + |batch|];
    forall peer
      ensures CountFor(delivered', peer) == |Delivered(sent', peer)|
    {
      SentOne(sent, to, batch, peer);
      assert CountFor(delivered, peer) == |Delivered(sent, peer)|;
    }
  }

  predicate WithinLimit(sent: seq<Message>) { forall i :: 0 <= i < |sent| ==> FitsOrSingle(sent[i].items) }

  /** The peers to push a group's items to, as the pool reports them. */
  type Audience = string -> set<string>

  function Share(items: seq<Item>, g: string, to: Audience, peer: string): seq<Item> {
    if peer in to(g) then items else []
  }

  function Sharing(to: Audience, peer: string): PendingPush -> seq<Item> {
    (p: PendingPush) => Share(p.items, p.group, to, peer)
  }

  /** One peer's share of a sequence of pushes. */
  function Shares(ps: seq<PendingPush>, to: Audience, peer: string): seq<Item> { FlatMap(Sharing(to, peer), ps) }

  /**
    * Between `before` and `after` every peer was sent its share of `ps`, in order and nothing else, in messages within
    * the limit.
    */
  ghost predicate Shared(before: seq<Message>, after: seq<Message>, ps: seq<PendingPush>, to: Audience) {
    && (forall peer :: Delivered(after, peer) == Delivered(before, peer) + Shares(ps, to, peer))
    && (WithinLimit(before) ==> WithinLimit(after))
  }

  lemma SharedNone(sent: seq<Message>, to: Audience)
    ensures Shared(sent, sent, [], to)
  {
  }

  lemma SharedMore(a: seq<Message>, b: seq<Message>, c: seq<Message>, ps: seq<PendingPush>, qs: seq<PendingPush>,
                   to: Audience)
    requires Shared(a, b, ps, to) && Shared(b, c, qs, to)
    ensures Shared(a, c, ps + qs, to)
  {
    forall peer
      ensures Delivered(c, peer) == Delivered(a, peer) + Shares(ps + qs, to, peer)
    {
      FlatMapConcat(Sharing(to, peer), ps, qs);
      assert Delivered(c, peer) == Delivered(b, peer) + Shares(qs, to, peer);
    }
  }

  lemma SharedOne(a: seq<Message>, b: seq<Message>, p: PendingPush, to: Audience)
    requires forall peer :: Delivered(b, peer) == Delivered(a, peer) + if peer in to(p.group) then p.items else []
    requires WithinLimit(a) ==> WithinLimit(b)
    ensures Shared(a, b, [p], to)
  {
    forall peer
      ensures Delivered(b, peer) == Delivered(a, peer) + Shares([p], to, peer)
    {
      FlatMapAppend(Sharing(to, peer), [], p);
      assert [] + [p] == [p];
    }
  }

  function Sending(now: Time): PendingPush -> seq<PendingPush> { p => if Due(p, now) then [p] else [] }

  /** The pushes a retry tick sends again. */
  function DueOnes(ps: seq<PendingPush>, now: Time): seq<PendingPush> { FlatMap(Sending(now), ps) }

  lemma TickAdvances(ps: seq<PendingPush>, i: nat, now: Time)
    requires i < |ps|
    ensures RetryAll(ps[..i + 1], now) == RetryAll(ps[..i], now) + AsSeq(RetryOne(ps[i], now))
    ensures |Exhausted(ps[..i + 1], now)| == |Exhausted(ps[..i], now)| + if RetryOne(ps[i], now).None? then 1 else 0
    ensures DueOnes(ps[..i + 1], now) == DueOnes(ps[..i], now) + Sending(now)(ps[i])
  {
    assert ps[..i + 1] == ps[..i] + [ps[i]];
    FlatMapAppend(Retrying(now), ps[..i], ps[i]);
    FlatMapAppend(Spending(now), ps[..i], ps[i]);
    FlatMapAppend(Sending(now), ps[..i], ps[i]);
  }

  class PushQueue {
    var buffer: Buffer
    var pending: seq<PendingPush>
    var sent: seq<Message>
    var delivered: map<string, nat>
    var exhausted: nat
    const entity: string
    const h: Hash

    constructor (entity: string, h: Hash)
      ensures buffer == map[] && pending == [] && sent == [] && exhausted == 0 && Tallied(sent, delivered)
      ensures this.entity == entity && this.h == h
    {
      buffer, pending, sent, delivered, exhausted := map[], [], [], map[], 0;
      this.entity, this.h := entity, h;
    }

    /** Notification of a local write: a group's item is buffered unless it is too large or the group is taciturn. */
    method OnLocalWrite(w: LocalWrite)
      modifies `buffer
      ensures buffer == if IsPushed(w) then Buffered(old(buffer), ItemOf(h, entity, w)) else old(buffer)
    {
      if w.group.None? {
        return;
      }
      if |w.data| > MAX_ITEM_BYTES {
        return;
      }
      match StrategyOf(w.eagerness)
      case EagerPush => buffer := Buffered(buffer, ItemOf(h, entity, w));
      case Passive =>
    }

    /** Sends `items`, split into messages, to every peer: each gets all of them once and in order. */
    method SendBatches(items: seq<Item>, peers: set<string>)
      modifies `sent, `delivered
      ensures Gets(old(sent), sent, peers, items)
      ensures WithinLimit(old(sent)) ==> WithinLimit(sent)
      ensures Tallied(old(sent), old(delivered)) ==> Tallied(sent, delivered)
    {
      var batches := SplitIntoBatches(items);
      for i := 0 to |batches|
        invariant Gets(old(sent), sent, peers, Flatten(batches[..i]))
        invariant WithinLimit(old(sent)) ==> WithinLimit(sent)
        invariant Tallied(old(sent), old(delivered)) ==> Tallied(sent, delivered)
      {
        assert batches[..i + 1] == batches[..i] + [batches[i]];
        FlattenAppend(batches[..i], batches[i]);
        ghost var before := sent;
        SendOne(batches[i], peers);
        GetsMore(old(sent), before, sent, peers, Flatten(batches[..i]), batches[i]);
      }
      assert batches[..|batches|] == batches;
    }

    method SendOne(batch: seq<Item>, peers: set<string>)
      modifies `sent, `delivered
      ensures Gets(old(sent), sent, peers, batch)
      ensures WithinLimit(old(sent)) && FitsOrSingle(batch) ==> WithinLimit(sent)
      ensures Tallied(old(sent), old(delivered)) ==> Tallied(sent, delivered)
    {
      var rest := peers;
      while rest != {}
        invariant rest <= peers
        invariant Gets(old(sent), sent, peers - rest, batch)
        invariant WithinLimit(old(sent)) && FitsOrSingle(batch) ==> WithinLimit(sent)
        invariant Tallied(old(sent), old(delivered)) ==> Tallied(sent, delivered)
        decreases rest
      {
        var peer :| peer in rest;
        SendTo(peer, batch);
        rest := rest - {peer};
      }
    }

    /** Sends one message, and counts its items for the peer. */
    method SendTo(to: string, batch: seq<Item>)
      modifies `sent, `delivered
      ensures forall peer :: Delivered(sent, peer) == Delivered(old(sent), peer) + if peer == to then batch else []
      ensures WithinLimit(old(sent)) && FitsOrSingle(batch) ==> WithinLimit(sent)
      ensures Tallied(old(sent), old(delivered)) ==> Tallied(sent, delivered)
    {
      forall peer
        ensures Delivered(sent + [Message(to, batch)], peer) == Delivered(sent, peer) + if peer == to then batch else []
      {
        SentOne(sent, to, batch, peer);
      }
      if Tallied(sent, delivered) {
        OneMoreTallied(sent, delivered, to, batch);
      }
      sent, delivered := sent + [Message(to, batch)], delivered[to := CountFor(delivered, to) + |batch|];
    }

    /** Turns every buffered group into one queued push, and sends it to the peers there are. */
    method Flush(now: Time, to: Audience) returns (order: seq<string>)
      modifies `buffer, `pending, `sent, `delivered
      ensures Visits(old(buffer), order) && buffer == map[]
      ensures pending == old(pending) + NewPushes(old(buffer), order, now)
      ensures Shared(old(sent), sent, NewPushes(old(buffer), order, now), to)
      ensures Tallied(old(sent), old(delivered)) ==> Tallied(sent, delivered)
    {
      order := Enumerate(NonEmpty(buffer));
      ghost var all := NewPushes(buffer, order, now);
      SharedNone(sent, to);
      for i := 0 to |order|
        invariant buffer == old(buffer)
        invariant Tallied(old(sent), old(delivered)) ==> Tallied(sent, delivered)
        invariant pending == old(pending) + all[..i]
        invariant Shared(old(sent), sent, all[..i], to)
      {
        var g := order[i];
        assert g in Elems(order);
        assert all[..i + 1] == all[..i] + [all[i]];
        ghost var before := sent;
        SendBatches(buffer[g], to(g));
        SharedOne(before, sent, all[i], to);
        SharedMore(old(sent), before, sent, all[..i], [all[i]], to);
        pending := pending + [NewPush(buffer[g], g, now)];
      }
      assert all[..|order|] == all;
      buffer := map[];
    }

    /** One push at a retry tick: if due it is sent again, then rescheduled or, after its last attempt, dropped. */
    method RetryPush(p: PendingPush, now: Time, to: Audience) returns (keep: seq<PendingPush>)
      requires p.attempt < PUSH_RETRY_COUNT
      modifies `sent, `delivered, `exhausted
      ensures keep == AsSeq(RetryOne(p, now))
      ensures exhausted == old(exhausted) + if keep == [] then 1 else 0
      ensures Shared(old(sent), sent, Sending(now)(p), to)
      ensures Tallied(old(sent), old(delivered)) ==> Tallied(sent, delivered)
    {
      if now < p.nextAt {
        SharedNone(sent, to);
        return [p];
      }
      SendBatches(p.items, to(p.group));
      SharedOne(old(sent), sent, p, to);
      var attempt := p.attempt + 1;
      if attempt >= PUSH_RETRY_COUNT {
        exhausted := exhausted + 1;
        keep := [];
      } else {
        keep := [p.(attempt := attempt, nextAt := now + PUSH_RETRY_BACKOFFS[attempt])];
      }
    }

    /** One retry tick over the whole queue. */
    method RetryTick(now: Time, to: Audience)
      requires InRange(pending)
      modifies `pending, `sent, `delivered, `exhausted
      ensures pending == RetryAll(old(pending), now) && InRange(pending)
      ensures exhausted == old(exhausted) + |Exhausted(old(pending), now)|
      ensures Shared(old(sent), sent, DueOnes(old(pending), now), to)
      ensures Tallied(old(sent), old(delivered)) ==> Tallied(sent, delivered)
    {
      var keep: seq<PendingPush> := [];
      SharedNone(sent, to);
      for i := 0 to |pending|
        invariant pending == old(pending)
        invariant keep == RetryAll(pending[..i], now)
        invariant exhausted == old(exhausted) + |Exhausted(pending[..i], now)|
        invariant Shared(old(sent), sent, DueOnes(pending[..i], now), to)
        invariant Tallied(old(sent), old(delivered)) ==> Tallied(sent, delivered)
      {
        ghost var before := sent;
        var more := RetryPush(pending[i], now, to);
        TickAdvances(pending, i, now);
        SharedMore(old(sent), before, sent, DueOnes(pending[..i], now), Sending(now)(pending[i]), to);
        keep := keep + more;
      }
      assert pending[..|pending|] == pending;
      EachRetryCosts(pending, now);
      pending := keep;
    }
  }

  // ---- Each retry uses up one attempt ------------------------------------

  /** Attempts left over all queued pushes. */
  function Remaining(ps: seq<PendingPush>): nat
    requires InRange(ps)
  {
    if ps == [] then 0 else Remaining(ps[..|ps| - 1]) + (PUSH_RETRY_COUNT - ps[|ps| - 1].attempt)
  }

  lemma {:induction false} RemainingConcat(a: seq<PendingPush>, b: seq<PendingPush>)
    requires InRange(a) && InRange(b)
    ensures Remaining(a + b) == Remaining(a) + Remaining(b)
  {
    if b == [] {
      assert a + b == a;
    } else {
      RemainingConcat(a, b[..|b| - 1]);
      assert (a + b)[..|a + b| - 1] == a + b[..|b| - 1];
    }
  }

  lemma OneRetryCosts(p: PendingPush, now: Time)
    requires p.attempt < PUSH_RETRY_COUNT
    ensures InRange(AsSeq(RetryOne(p, now)))
    ensures Remaining(AsSeq(RetryOne(p, now))) == PUSH_RETRY_COUNT - p.attempt - if Due(p, now) then 1 else 0
  {
    var r := AsSeq(RetryOne(p, now));
    if r != [] {
      assert r[..|r| - 1] == [] && Remaining([]) == 0;
    }
  }

  /** A tick uses exactly one attempt of each due push and none of the others. */
  lemma {:induction false} EachRetryCosts(ps: seq<PendingPush>, now: Time)
    requires InRange(ps)
    ensures InRange(RetryAll(ps, now))
    ensures Remaining(RetryAll(ps, now)) + |DueOnes(ps, now)| == Remaining(ps)
    decreases |ps|
  {
    if ps == [] {
    } else {
      var init, p := ps[..|ps| - 1], ps[|ps| - 1];
      EachRetryCosts(init, now);
      OneRetryCosts(p, now);
      RemainingConcat(RetryAll(init, now), AsSeq(RetryOne(p, now)));
    }
  }

  // ---- The life of one push ----------------------------------------------

  /** A push after the retry ticks at `times`. */
  function Follow(p: PendingPush, times: seq<Time>): Option<PendingPush>
    decreases |times|
  {
    if times == [] then Some(p)
    else match RetryOne(p, times[0])
      case None => None
      case Some(q) => Follow(q, times[1..])
  }

  /** How many of the ticks find the push due. */
  function Attempts(p: PendingPush, times: seq<Time>): nat
    decreases |times|
  {
    if times == [] then 0
    else
      (if Due(p, times[0]) then 1 else 0)
      + match RetryOne(p, times[0])
        case None => 0
        case Some(q) => Attempts(q, times[1..])
  }

  /**
    * A push leaves the queue after exactly the attempts it had left; until then it keeps its items and counts its
    * attempts.
    */
  lemma {:induction false} AttemptsAreExact(p: PendingPush, times: seq<Time>)
    requires p.attempt < PUSH_RETRY_COUNT
    ensures Follow(p, times).None? ==> p.attempt + Attempts(p, times) == PUSH_RETRY_COUNT
    ensures Follow(p, times).Some? ==>
              var q := Follow(p, times).value;
              q.attempt == p.attempt + Attempts(p, times) < PUSH_RETRY_COUNT && q.items == p.items && q.group == p.group
    decreases |times|
  {
    if times != [] && RetryOne(p, times[0]).Some? {
      AttemptsAreExact(RetryOne(p, times[0]).value, times[1..]);
    }
  }

  predicate Ordered(times: seq<Time>) { forall i, j :: 0 <= i <= j < |times| ==> times[i] <= times[j] }

  /** How long after its `a`-th attempt a push waits for the next. */
  function Backoff(a: nat): nat { if a < PUSH_RETRY_COUNT then PUSH_RETRY_BACKOFFS[a] else 0 }

  /** Among the ticks there are enough, far enough apart, for all attempts from number `a` on. */
  ghost predicate Spaced(times: seq<Time>, nextAt: Time, a: nat)
    decreases PUSH_RETRY_COUNT - a, 1
  {
    a < PUSH_RETRY_COUNT ==> exists i :: SpacedFrom(times, nextAt, a, i)
  }

  /** Tick `i` can be attempt `a`, and later ticks the remaining ones. */
  ghost predicate SpacedFrom(times: seq<Time>, nextAt: Time, a: nat, i: int)
    requires a < PUSH_RETRY_COUNT
    decreases PUSH_RETRY_COUNT - a, 0
  {
    0 <= i < |times| && times[i] >= nextAt && Spaced(times[i + 1..], times[i] + Backoff(a + 1), a + 1)
  }

  lemma FirstAttempt(times: seq<Time>, nextAt: Time, a: nat) returns (i: nat)
    requires a < PUSH_RETRY_COUNT && Spaced(times, nextAt, a)
    ensures SpacedFrom(times, nextAt, a, i)
  {
    i :| SpacedFrom(times, nextAt, a, i);
  }

  lemma SpacedEarlier(times: seq<Time>, early: Time, late: Time, a: nat)
    requires early <= late && Spaced(times, late, a)
    ensures Spaced(times, early, a)
  {
    if a < PUSH_RETRY_COUNT {
      var i :| SpacedFrom(times, late, a, i);
      assert SpacedFrom(times, early, a, i);
    }
  }

  lemma SpacedMore(times: seq<Time>, k: nat, nextAt: Time, a: nat)
    requires k <= |times| && Spaced(times[k..], nextAt, a)
    ensures Spaced(times, nextAt, a)
  {
    if a < PUSH_RETRY_COUNT {
      var i :| SpacedFrom(times[k..], nextAt, a, i);
      assert times[k..][i + 1..] == times[k + i + 1..];
      assert SpacedFrom(times, nextAt, a, k + i);
    }
  }

  lemma SpacedLater(times: seq<Time>, i: nat, next: Time, a: nat)
    requires i < |times| && Spaced(times[i + 1..], next, a)
    ensures Spaced(times[1..], next, a)
  {
    assert times[1..][i..] == times[i + 1..];
    SpacedMore(times[1..], i, next, a);
  }

  /** Taking the first due tick never costs an attempt later on. */
  lemma FirstDueSuffices(times: seq<Time>, nextAt: Time, a: nat)
    requires times != [] && Ordered(times) && a < PUSH_RETRY_COUNT && Spaced(times, nextAt, a)
    ensures Spaced(times[1..], times[0] + Backoff(a + 1), a + 1)
  {
    var i := FirstAttempt(times, nextAt, a);
    var next := times[0] + Backoff(a + 1);
    SpacedEarlier(times[i + 1..], next, times[i] + Backoff(a + 1), a + 1);
    SpacedLater(times, i, next, a + 1);
  }

  lemma FirstDueCounts(times: seq<Time>, nextAt: Time, a: nat)
    requires times != [] && a < PUSH_RETRY_COUNT && times[0] >= nextAt
             && Spaced(times[1..], times[0] + Backoff(a + 1), a + 1)
    ensures Spaced(times, nextAt, a)
  {
    assert SpacedFrom(times, nextAt, a, 0);
  }

  lemma FirstDueIsBest(times: seq<Time>, nextAt: Time, a: nat)
    requires times != [] && Ordered(times) && a < PUSH_RETRY_COUNT && times[0] >= nextAt
    ensures Spaced(times, nextAt, a) <==> Spaced(times[1..], times[0] + Backoff(a + 1), a + 1)
  {
    if Spaced(times, nextAt, a) {
      FirstDueSuffices(times, nextAt, a);
    } else if Spaced(times[1..], times[0] + Backoff(a + 1), a + 1) {
      FirstDueCounts(times, nextAt, a);
    }
  }

  lemma EarlyTickIsIdle(times: seq<Time>, nextAt: Time, a: nat)
    requires times != [] && a < PUSH_RETRY_COUNT && times[0] < nextAt
    ensures Spaced(times, nextAt, a) <==> Spaced(times[1..], nextAt, a)
  {
    if Spaced(times, nextAt, a) {
      var i := FirstAttempt(times, nextAt, a);
      assert times[1..][i - 1 + 1..] == times[i + 1..];
      assert SpacedFrom(times[1..], nextAt, a, i - 1);
    }
    if Spaced(times[1..], nextAt, a) {
      SpacedMore(times, 1, nextAt, a);
    }
  }

  lemma LastAttempt(times: seq<Time>, nextAt: Time, a: nat)
    requires times != [] && a + 1 == PUSH_RETRY_COUNT && times[0] >= nextAt
    ensures Spaced(times, nextAt, a)
  {
    assert SpacedFrom(times, nextAt, a, 0);
  }

  /** What one tick does to a push, and to the room its attempts need. */
  lemma TickSpends(p: PendingPush, times: seq<Time>)
    requires p.attempt < PUSH_RETRY_COUNT && Ordered(times) && times != []
    ensures RetryOne(p, times[0]).None? ==> Spaced(times, p.nextAt, p.attempt)
    ensures RetryOne(p, times[0]).Some? ==>
              var q := RetryOne(p, times[0]).value;
              q.attempt < PUSH_RETRY_COUNT && (Spaced(times, p.nextAt, p.attempt)
                <==> Spaced(times[1..], q.nextAt, q.attempt))
  {
    if !Due(p, times[0]) {
      EarlyTickIsIdle(times, p.nextAt, p.attempt);
    } else if p.attempt + 1 == PUSH_RETRY_COUNT {
      LastAttempt(times, p.nextAt, p.attempt);
    } else {
      FirstDueIsBest(times, p.nextAt, p.attempt);
    }
  }

  /** A push is given up exactly when the ticks leave room for all its remaining attempts, each after its back-off. */
  lemma {:induction false} GivenUpIff(p: PendingPush, times: seq<Time>)
    requires p.attempt < PUSH_RETRY_COUNT && Ordered(times)
    ensures Follow(p, times).None? <==> Spaced(times, p.nextAt, p.attempt)
    decreases |times|
  {
    if times == [] {
      assert forall i :: !SpacedFrom(times, p.nextAt, p.attempt, i);
    } else {
      TickSpends(p, times);
      if RetryOne(p, times[0]).Some? {
        GivenUpIff(RetryOne(p, times[0]).value, times[1..]);
      }
    }
  }

  /** Waiting time from the due date of attempt `a` to that of the last attempt. */
  function WaitFrom(a: nat): nat
    decreases PUSH_RETRY_COUNT - a
  {
    if a + 1 >= PUSH_RETRY_COUNT then 0 else Backoff(a + 1) + WaitFrom(a + 1)
  }

  lemma {:induction false} SpacedTakesTime(times: seq<Time>, nextAt: Time, a: nat)
    requires Ordered(times) && a < PUSH_RETRY_COUNT && Spaced(times, nextAt, a)
    ensures times != [] && times[|times| - 1] >= nextAt + WaitFrom(a)
    decreases PUSH_RETRY_COUNT - a
  {
    var i :| SpacedFrom(times, nextAt, a, i);
    if a + 1 < PUSH_RETRY_COUNT {
      SpacedTakesTime(times[i + 1..], times[i] + Backoff(a + 1), a + 1);
    }
  }

  /** Ticks that start by `from`, come at least every `gap`, and go on to `until`. */
  predicate Steady(times: seq<Time>, from: Time, gap: nat, until: Time) {
    && times != [] && Ordered(times) && times[0] <= from + gap && times[|times| - 1] >= until
    && forall i :: 0 <= i < |times| - 1 ==> times[i + 1] <= times[i] + gap
  }

  /** The first tick at or after `t`. */
  lemma {:induction false} FirstAfter(times: seq<Time>, t: Time, gap: nat, until: Time) returns (i: nat)
    requires Steady(times, t, gap, until) && until >= t
    ensures i < |times| && t <= times[i] <= t + gap
  {
    i := 0;
    while times[i] < t
      invariant i < |times| && times[i] <= t + gap
      decreases |times| - i
    {
      i := i + 1;
    }
  }

  lemma SteadyTail(times: seq<Time>, from: Time, gap: nat, until: Time, i: nat, t: Time)
    requires Steady(times, from, gap, until) && i < |times| && times[i] <= t && times[i] < until
    ensures Steady(times[i + 1..], t, gap, until)
  {
    assert i + 1 < |times|;
    assert times[i + 1] <= times[i] + gap;
  }

  /** The time that surely suffices from the due date of attempt `a` on: each attempt may come a tick late. */
  function Allowed(a: nat, gap: nat): nat
    decreases PUSH_RETRY_COUNT - a
  {
    if a + 1 >= PUSH_RETRY_COUNT then gap else gap + Backoff(a + 1) + Allowed(a + 1, gap)
  }

  /** The tick that serves as attempt `a`, with enough ticks left for the rest. */
  lemma AttemptInTime(times: seq<Time>, nextAt: Time, gap: nat, a: nat, until: Time) returns (i: nat)
    requires a < PUSH_RETRY_COUNT && Steady(times, nextAt, gap, until) && until >= nextAt + Allowed(a, gap)
    ensures i < |times| && times[i] >= nextAt
    ensures a + 1 < PUSH_RETRY_COUNT ==>
              var next := times[i] + Backoff(a + 1);
              Steady(times[i + 1..], next, gap, until) && until >= next + Allowed(a + 1, gap)
  {
    i := FirstAfter(times, nextAt, gap, until);
    if a + 1 < PUSH_RETRY_COUNT {
      SteadyTail(times, nextAt, gap, until, i, times[i] + Backoff(a + 1));
    }
  }

  lemma {:induction false} SteadyIsSpaced(times: seq<Time>, nextAt: Time, gap: nat, a: nat, until: Time)
    requires a < PUSH_RETRY_COUNT && Steady(times, nextAt, gap, until) && until >= nextAt + Allowed(a, gap)
    ensures Spaced(times, nextAt, a)
    decreases PUSH_RETRY_COUNT - a
  {
    var i := AttemptInTime(times, nextAt, gap, a, until);
    if a + 1 < PUSH_RETRY_COUNT {
      SteadyIsSpaced(times[i + 1..], times[i] + Backoff(a + 1), gap, a + 1, until);
    }
    assert SpacedFrom(times, nextAt, a, i);
  }

  lemma WholeTime(gap: nat)
    ensures WaitFrom(0) == 375 * SECOND && Allowed(0, gap) == 375 * SECOND + 4 * gap
  {
    assert WaitFrom(2) == Backoff(3) && Allowed(2, gap) == gap + Backoff(3) + Allowed(3, gap);
    assert Allowed(0, gap) == gap + Backoff(1) + Allowed(1, gap);
  }

  /**
    * A push queued at `t0` is given up no sooner than 380 seconds later, and, with a retry tick at least every `gap`,
    * no later than four ticks after that.
    */
  lemma Lifetime(p: PendingPush, t0: Time, times: seq<Time>, gap: nat)
    requires p == NewPush(p.items, p.group, t0) && Ordered(times)
    ensures Follow(p, times).None? ==> times != [] && times[|times| - 1] >= t0 + 380 * SECOND
    ensures Steady(times, t0, gap, t0 + 380 * SECOND + 4 * gap) ==> Follow(p, times).None?
  {
    GivenUpIff(p, times);
    WholeTime(gap);
    if Follow(p, times).None? {
      SpacedTakesTime(times, p.nextAt, 0);
    }
    if Steady(times, t0, gap, t0 + 380 * SECOND + 4 * gap) {
      SteadyIsSpaced(times, p.nextAt, gap, 0, t0 + 380 * SECOND + 4 * gap);
    }
  }

  // ---- Whole runs --------------------------------------------------------

  /** The queue, and what was given up. */
  datatype State = State(buffer: Buffer, pending: seq<PendingPush>, dropped: seq<PendingPush>)

  datatype Event = Write(write: LocalWrite) | FlushAt(time: Time, order: seq<string>) | RetryAt(time: Time)

  predicate Step(h: Hash, entity: string, s: State, e: Event, s': State) {
    match e
    case Write(w) => s' == if IsPushed(w) then s.(buffer := Buffered(s.buffer, ItemOf(h, entity, w))) else s
    case FlushAt(now, order) =>
      Visits(s.buffer, order) && s' == s.(buffer := map[], pending := s.pending + NewPushes(s.buffer, order, now))
    case RetryAt(now) =>
      s' == s.(pending := RetryAll(s.pending, now), dropped := s.dropped + Exhausted(s.pending, now))
  }

  predicate IsRun(h: Hash, entity: string, states: seq<State>, events: seq<Event>) {
    && |states| == |events| + 1 && states[0] == State(map[], [], [])
    && forall i {:trigger events[i]} :: 0 <= i < |events| ==> Step(h, entity, states[i], events[i], states[i + 1])
  }

  /**
    * The item an event gives the group to push: that of a write within the size limit, while the group is not taciturn.
    */
  function OutgoingOf(h: Hash, entity: string, e: Event, g: string): seq<Item> {
    if e.Write? && e.write.group == Some(g) && |e.write.data| <= MAX_ITEM_BYTES && e.write.eagerness != "taciturn"
    then [ItemOf(h, entity, e.write)] else []
  }

  /** The items that the group's local writes give rise to. */
  function Outgoing(h: Hash, entity: string, events: seq<Event>, g: string): seq<Item> {
    if events == [] then []
    else Outgoing(h, entity, events[..|events| - 1], g) + OutgoingOf(h, entity, events[|events| - 1], g)
  }

  function Loading(g: string): PendingPush -> seq<Item> { (p: PendingPush) => if p.group == g then p.items else [] }

  /** The items of one group in a sequence of pushes. */
  function LoadOf(ps: seq<PendingPush>, g: string): seq<Item> { FlatMap(Loading(g), ps) }

  /** Every one of these items of the group is in exactly one place: buffered, queued, or given up. */
  ghost predicate Accounted(s: State, items: seq<Item>, g: string) {
    multiset(items) == multiset(BufferOf(s.buffer, g)) + multiset(LoadOf(s.pending, g)) + multiset(LoadOf(s.dropped, g))
  }

  lemma {:induction false} FlushKeepsLoad(b: Buffer, order: seq<string>, now: Time, g: string)
    requires NoDup(order) && Elems(order) <= b.Keys
    ensures LoadOf(NewPushes(b, order, now), g) == if g in order then b[g] else []
    decreases |order|
  {
    if order == [] {
    } else {
      var init, last := order[..|order| - 1], order[|order| - 1];
      assert last in Elems(order) && Elems(init) <= Elems(order);
      FlushKeepsLoad(b, init, now, g);
      var ps := NewPushes(b, order, now);
      assert ps == NewPushes(b, init, now) + [NewPush(b[last], last, now)];
      FlatMapAppend(Loading(g), NewPushes(b, init, now), NewPush(b[last], last, now));
    }
  }

  lemma LoadOfOne(p: PendingPush, g: string)
    ensures LoadOf([p], g) == Loading(g)(p)
  {
    FlatMapAppend(Loading(g), [], p);
    assert [] + [p] == [p];
  }

  lemma OneRetryKeepsLoad(p: PendingPush, now: Time, g: string)
    ensures multiset(LoadOf(Retrying(now)(p), g)) + multiset(LoadOf(Spending(now)(p), g)) == multiset(Loading(g)(p))
  {
    match RetryOne(p, now)
    case None => LoadOfOne(p, g);
    case Some(q) => LoadOfOne(q, g);
  }

  lemma {:induction false} RetryKeepsLoad(ps: seq<PendingPush>, now: Time, g: string)
    ensures multiset(LoadOf(RetryAll(ps, now), g)) + multiset(LoadOf(Exhausted(ps, now), g)) == multiset(LoadOf(ps, g))
    decreases |ps|
  {
    if ps == [] {
    } else {
      var init, p := ps[..|ps| - 1], ps[|ps| - 1];
      RetryKeepsLoad(init, now, g);
      LoadsJoin(RetryAll(init, now), Retrying(now)(p), g);
      LoadsJoin(Exhausted(init, now), Spending(now)(p), g);
      OneRetryKeepsLoad(p, now, g);
    }
  }

  lemma LoadsJoin(a: seq<PendingPush>, b: seq<PendingPush>, g: string)
    ensures multiset(LoadOf(a + b, g)) == multiset(LoadOf(a, g)) + multiset(LoadOf(b, g))
  {
    FlatMapConcat(Loading(g), a, b);
  }

  lemma WriteAccounts(s: State, items: seq<Item>, x: Item, g: string)
    requires Accounted(s, items, g)
    ensures Accounted(s.(buffer := Buffered(s.buffer, x)), items + if x.group == g then [x] else [], g)
  {
    if x.group == g {
      assert multiset(BufferOf(s.buffer, g) + [x]) == multiset(BufferOf(s.buffer, g)) + multiset{x};
      assert multiset(items + [x]) == multiset(items) + multiset{x};
    } else {
      assert items + [] == items;
    }
  }

  lemma FlushAccounts(s: State, items: seq<Item>, order: seq<string>, now: Time, g: string)
    requires Accounted(s, items, g) && Visits(s.buffer, order)
    ensures Accounted(s.(buffer := map[], pending := s.pending + NewPushes(s.buffer, order, now)), items, g)
  {
    FlushKeepsLoad(s.buffer, order, now, g);
    LoadsJoin(s.pending, NewPushes(s.buffer, order, now), g);
    assert g in order <==> g in Elems(order);
  }

  lemma RetryAccounts(s: State, items: seq<Item>, now: Time, g: string)
    requires Accounted(s, items, g)
    ensures Accounted(s.(pending := RetryAll(s.pending, now), dropped := s.dropped + Exhausted(s.pending, now)), items,
              g)
  {
    RetryKeepsLoad(s.pending, now, g);
    LoadsJoin(s.dropped, Exhausted(s.pending, now), g);
  }

  lemma LocalWriteAccounts(h: Hash, entity: string, s: State, w: LocalWrite, items: seq<Item>, g: string)
    requires Accounted(s, items, g)
    ensures Accounted(if IsPushed(w) then s.(buffer := Buffered(s.buffer, ItemOf(h, entity, w))) else s,
                      items + OutgoingOf(h, entity, Write(w), g), g)
  {
    OnlyTaciturnIsPassive(w.eagerness);
    if IsPushed(w) {
      WriteAccounts(s, items, ItemOf(h, entity, w), g);
    } else {
      assert items + [] == items;
    }
  }

  lemma StepAccounts(h: Hash, entity: string, s: State, e: Event, s': State, items: seq<Item>, g: string)
    requires Step(h, entity, s, e, s') && Accounted(s, items, g)
    ensures Accounted(s', items + OutgoingOf(h, entity, e, g), g)
  {
    match e
    case Write(w) => LocalWriteAccounts(h, entity, s, w, items, g);
    case FlushAt(now, order) =>
      assert items + [] == items;
      FlushAccounts(s, items, order, now, g);
    case RetryAt(now) =>
      assert items + [] == items;
      RetryAccounts(s, items, now, g);
  }

  lemma StepKeepsRange(h: Hash, entity: string, s: State, e: Event, s': State)
    requires Step(h, entity, s, e, s') && InRange(s.pending)
    ensures InRange(s'.pending)
  {
    if e.RetryAt? {
      EachRetryCosts(s.pending, e.time);
    }
  }

  lemma RunAccounts(h: Hash, entity: string, states: seq<State>, events: seq<Event>, i: nat, g: string)
    requires IsRun(h, entity, states, events) && i < |events|
    requires Accounted(states[i], Outgoing(h, entity, events[..i], g), g)
    ensures Accounted(states[i + 1], Outgoing(h, entity, events[..i + 1], g), g)
  {
    assert Step(h, entity, states[i], events[i], states[i + 1]);
    assert events[..i + 1] == events[..i] + [events[i]];
    StepAccounts(h, entity, states[i], events[i], states[i + 1], Outgoing(h, entity, events[..i], g), g);
    assert events[..i + 1][..i] == events[..i];
  }

  /**
    * In every run, the items of a group that are buffered, queued or given up are, as a multiset, exactly those of its
    * local writes within the size limit that were made while the group was not taciturn.
    */
  lemma NothingIsLost(h: Hash, entity: string, states: seq<State>, events: seq<Event>, n: nat, g: string)
    requires IsRun(h, entity, states, events) && n < |states|
    ensures Accounted(states[n], Outgoing(h, entity, events[..n], g), g)
  {
    assert events[..0] == [];
    for i := 0 to n
      invariant Accounted(states[i], Outgoing(h, entity, events[..i], g), g)
    {
      RunAccounts(h, entity, states, events, i, g);
    }
  }

  lemma BufferNext(h: Hash, entity: string, s: State, e: Event, s': State, g: string)
    requires Step(h, entity, s, e, s') && !e.FlushAt?
    ensures BufferOf(s'.buffer, g) == BufferOf(s.buffer, g) + OutgoingOf(h, entity, e, g)
  {
    if e.Write? {
      OnlyTaciturnIsPassive(e.write.eagerness);
    }
  }

  /** The items that the group's local writes from event `i` to event `n` give rise to. */
  function OutgoingFrom(h: Hash, entity: string, events: seq<Event>, i: nat, n: nat, g: string): seq<Item>
    requires i <= n <= |events|
  {
    if i == n then [] else OutgoingFrom(h, entity, events, i, n - 1, g) + OutgoingOf(h, entity, events[n - 1], g)
  }

  /** What the group has buffered after each of these steps, given what it had before. */
  predicate Buffers(h: Hash, entity: string, bs: seq<seq<Item>>, events: seq<Event>, i: nat, n: nat, g: string)
    requires i <= n <= |events| && |bs| == |events| + 1
  {
    forall k {:trigger events[k]} :: i <= k < n ==> bs[k + 1] == bs[k] + OutgoingOf(h, entity, events[k], g)
  }

  lemma BuffersAddUp(h: Hash, entity: string, bs: seq<seq<Item>>, events: seq<Event>, i: nat, n: nat, g: string)
    requires i <= n <= |events| && |bs| == |events| + 1 && bs[i] == []
    requires Buffers(h, entity, bs, events, i, n, g)
    ensures bs[n] == OutgoingFrom(h, entity, events, i, n, g)
  {
    for k := i to n
      invariant bs[k] == OutgoingFrom(h, entity, events, i, k, g)
    {
      assert bs[k + 1] == bs[k] + OutgoingOf(h, entity, events[k], g);
    }
  }

  /** What a group has buffered are its writes since the last flush, in the order they were made. */
  lemma BufferIsInOrder(h: Hash, entity: string, states: seq<State>, events: seq<Event>, i: nat, n: nat, g: string)
    requires IsRun(h, entity, states, events) && i <= n < |states| && BufferOf(states[i].buffer, g) == []
    requires forall k :: i <= k < n ==> !events[k].FlushAt?
    ensures BufferOf(states[n].buffer, g) == OutgoingFrom(h, entity, events, i, n, g)
  {
    var bs := seq(|states|, k requires 0 <= k < |states| => BufferOf(states[k].buffer, g));
    forall k | i <= k < n
      ensures bs[k + 1] == bs[k] + OutgoingOf(h, entity, events[k], g)
    {
      RunBufferNext(h, entity, states, events, k, g);
    }
    BuffersAddUp(h, entity, bs, events, i, n, g);
  }

  lemma RunBufferNext(h: Hash, entity: string, states: seq<State>, events: seq<Event>, k: nat, g: string)
    requires IsRun(h, entity, states, events) && k < |events| && !events[k].FlushAt?
    ensures BufferOf(states[k + 1].buffer, g) == BufferOf(states[k].buffer, g) + OutgoingOf(h, entity, events[k], g)
  {
    BufferNext(h, entity, states[k], events[k], states[k + 1], g);
  }

  /** In every run the attempt numbers of queued pushes stay within the back-off table. */
  lemma AttemptsStayInRange(h: Hash, entity: string, states: seq<State>, events: seq<Event>, n: nat)
    requires IsRun(h, entity, states, events) && n < |states|
    ensures InRange(states[n].pending)
  {
    for i := 0 to n
      invariant InRange(states[i].pending)
    {
      assert Step(h, entity, states[i], events[i], states[i + 1]);
      StepKeepsRange(h, entity, states[i], events[i], states[i + 1]);
    }
  }

  /** The retry ticks of a run from step `i` to step `j`. */
  function Ticks(events: seq<Event>, i: nat, j: nat): seq<Time>
    requires i <= j <= |events|
  {
    if i == j then [] else Ticks(events, i, j - 1) + if events[j - 1].RetryAt? then [events[j - 1].time] else []
  }

  function Following(times: seq<Time>): PendingPush -> seq<PendingPush> { p => AsSeq(Follow(p, times)) }

  function FollowAll(ps: seq<PendingPush>, times: seq<Time>): seq<PendingPush> { FlatMap(Following(times), ps) }

  lemma {:induction false} FollowAppend(p: PendingPush, times: seq<Time>, t: Time)
    ensures Follow(p, times + [t]) == match Follow(p, times) case None => None case Some(q) => RetryOne(q, t)
    decreases |times|
  {
    if times == [] {
      assert [t][1..] == [];
    } else if RetryOne(p, times[0]).Some? {
      FollowAppend(RetryOne(p, times[0]).value, times[1..], t);
      assert (times + [t])[1..] == times[1..] + [t];
    }
  }

  lemma FollowOneMore(p: PendingPush, times: seq<Time>, t: Time)
    ensures FlatMap(Retrying(t), Following(times)(p)) == Following(times + [t])(p)
  {
    FollowAppend(p, times, t);
    var q := Follow(p, times);
    if q.Some? {
      FlatMapAppend(Retrying(t), [], q.value);
      assert [] + [q.value] == [q.value];
    }
  }

  lemma FollowAllAppend(ps: seq<PendingPush>, times: seq<Time>, t: Time)
    ensures FollowAll(ps, times + [t]) == RetryAll(FollowAll(ps, times), t)
  {
    forall p
      ensures FlatMap(Retrying(t), Following(times)(p)) == Following(times + [t])(p)
    {
      FollowOneMore(p, times, t);
    }
    FlatMapCompose(Following(times), Retrying(t), Following(times + [t]), ps);
  }

  lemma StepFollows(h: Hash, entity: string, s: State, e: Event, s': State, was: seq<PendingPush>)
    requires Step(h, entity, s, e, s') && was <= s.pending
    ensures (if e.RetryAt? then RetryAll(was, e.time) else was) <= s'.pending
  {
    if e.RetryAt? {
      assert s.pending == was + s.pending[|was|..];
      FlatMapConcat(Retrying(e.time), was, s.pending[|was|..]);
    }
  }

  /** The pushes queued at step `i` are at step `j` the front of the queue, each after the retry ticks in between. */
  lemma {:induction false} QueueFollowsTicks(h: Hash, entity: string, states: seq<State>, events: seq<Event>, i: nat,
                                             j: nat)
    requires IsRun(h, entity, states, events) && i <= j < |states|
    ensures FollowAll(states[i].pending, Ticks(events, i, j)) <= states[j].pending
    decreases j
  {
    var ps := states[i].pending;
    if i == j {
      FlatMapUnit(Following([]), ps);
    } else {
      QueueFollowsTicks(h, entity, states, events, i, j - 1);
      var times, e := Ticks(events, i, j - 1), events[j - 1];
      assert Step(h, entity, states[j - 1], e, states[j - 1 + 1]);
      StepFollows(h, entity, states[j - 1], e, states[j], FollowAll(ps, times));
      if e.RetryAt? {
        FollowAllAppend(ps, times, e.time);
      } else {
        assert times + [] == times;
      }
    }
  }
}
