/** Paging through a peer's items with a date cursor, restarted by a periodic full sync. */
module Cursor {
  import opened Collections
  import opened Cultures
  import opened Era
  import opened Replication
  import opened AntiEntropy

  // ---- The per-group bookkeeping -----------------------------------------

  /** Cursor and cycle counter of one group. */
  datatype Sync = Sync(last: Option<Timestamp>, cycle: nat)

  predicate IsFull(cycle: nat) { cycle % FULL_SYNC_EVERY == 0 }

  function Begun(st: Sync): Sync { st.(cycle := st.cycle + 1) }

  /** The date filter of the round just begun. */
  function SinceOf(st: Sync): Option<Timestamp> { if IsFull(st.cycle) then None else st.last }

  type Time = nat

  class Schedule {
    var nextSyncAt: map<string, Time>
    var lastSyncAt: map<string, Timestamp>
    var cycleCount: map<string, nat>

    constructor ()
      ensures forall g :: SyncOf(g) == Sync(None, 0) && IsDue(g, 0)
    {
      nextSyncAt, lastSyncAt, cycleCount := map[], map[], map[];
    }

    function SyncOf(g: string): Sync
      reads this
    {
      Sync(if g in lastSyncAt then Some(lastSyncAt[g]) else None, if g in cycleCount then cycleCount[g] else 0)
    }

    /** The group has no deadline, or it has passed. */
    predicate IsDue(g: string, now: Time)
      reads this
    {
      g in nextSyncAt ==> now >= nextSyncAt[g]
    }

    /** A due group gets its next deadline, and its cycle is counted; every tenth has no date filter. */
    method BeginRound(g: string, now: Time, interval: nat) returns (due: bool, since: Option<Timestamp>)
      modifies this`cycleCount, this`nextSyncAt
      ensures due == old(IsDue(g, now))
      ensures !due ==> nextSyncAt == old(nextSyncAt) && SyncOf(g) == old(SyncOf(g))
      ensures due ==> nextSyncAt == old(nextSyncAt)[g := now + interval]
      ensures due ==> SyncOf(g) == Begun(old(SyncOf(g))) && since == SinceOf(SyncOf(g))
      ensures cycleCount - {g} == old(cycleCount) - {g}
    {
      if g in nextSyncAt && now < nextSyncAt[g] {
        return false, None;
      }
      due := true;
      nextSyncAt := nextSyncAt[g := now + interval];
      var cycle := (if g in cycleCount then cycleCount[g] else 0) + 1;
      cycleCount := cycleCount[g := cycle];
      if cycle % FULL_SYNC_EVERY == 0 {
        since := None;
      } else {
        since := if g in lastSyncAt then Some(lastSyncAt[g]) else None;
      }
    }

    /**
      * A round that succeeded moves the cursor if it saw any item; a failed one, or one without a peer, reports no
      * date.
      */
    method EndRound(g: string, latest: Option<Timestamp>)
      modifies this`lastSyncAt
      ensures SyncOf(g) == if latest.Some? then old(SyncOf(g)).(last := latest) else old(SyncOf(g))
      ensures lastSyncAt - {g} == old(lastSyncAt) - {g}
    {
      if latest.Some? {
        lastSyncAt := lastSyncAt[g := latest.value];
      }
    }

    /**
      * One group's turn at a sync tick is a step of the runs below: finished, or missed if a request failed or there
      * was no peer. A group that is not due is left alone.
      */
    method SyncGroup(h: Hash, policy: Acceptance, local: Storage, peer: Storage?, g: string, limit: nat, answered: nat,
                     now: Time, eagerness: string, taciturn: nat)
      returns (due: bool, ending: Ending, ghost page: seq<string>)
      requires local != peer && StoreOk(h, local.items) && (peer != null ==> NoTombstones(peer.items))
      modifies this, local`items, local`accessLog
      ensures due == old(IsDue(g, now))
      ensures due ==>
                forall t: Time :: IsDue(g, t) <==> t >= now + if eagerness == "taciturn" then taciturn else 60 * SECOND
      ensures !due ==> nextSyncAt == old(nextSyncAt)
      ensures !due ==> SyncOf(g) == old(SyncOf(g)) && local.items == old(local.items)
      ensures ending.Done? ==> peer != null
      ensures due ==> Step(Rows(peer), g, limit, old(SyncOf(g)), if ending.Done? then Finished(page) else Missed,
                SyncOf(g))
      ensures due && ending.Done? ==> local.items == ReceiveAll(h, policy, old(local.items), FetchAll(peer.items, page))
      ensures lastSyncAt - {g} == old(lastSyncAt) - {g} && cycleCount - {g} == old(cycleCount) - {g}
    {
      var since;
      due, since := BeginRound(g, now, SyncInterval(eagerness, taciturn));
      SyncIntervalIs(eagerness, taciturn);
      if !due {
        return false, NoPeer, [];
      }
      ghost var fetched, ours;
      ending, page, fetched, ours := RunAntiEntropy(h, policy, local, peer, g, since, limit, answered);
      if ending.Done? {
        EndRound(g, ending.latest);
      }
    }

    /**
      * A newly added group starts from scratch: what was kept for it is forgotten, and a sync without date filter runs
      * at once.
      */
    method Bootstrap(h: Hash, policy: Acceptance, local: Storage, peer: Storage?, g: string, limit: nat, answered: nat)
      returns (ending: Ending, ghost page: seq<string>)
      requires local != peer && StoreOk(h, local.items) && (peer != null ==> NoTombstones(peer.items))
      modifies this, local`items, local`accessLog
      ensures nextSyncAt == old(nextSyncAt) - {g}
      ensures ending.Done? ==> peer != null
      ensures Step(Rows(peer), g, limit, old(SyncOf(g)), if ending.Done? then Booted(page) else Unbooted, SyncOf(g))
      ensures ending.Done? ==> local.items == ReceiveAll(h, policy, old(local.items), FetchAll(peer.items, page))
      ensures lastSyncAt - {g} == old(lastSyncAt) - {g} && cycleCount - {g} == old(cycleCount) - {g}
    {
      nextSyncAt := nextSyncAt - {g};
      lastSyncAt := lastSyncAt - {g};
      cycleCount := cycleCount - {g};
      ghost var fetched, ours;
      ending, page, fetched, ours := RunAntiEntropy(h, policy, local, peer, g, None, limit, answered);
      if ending.Done? {
        EndRound(g, ending.latest);
      }
    }
  }

  // ---- Rounds ------------------------------------------------------------

  /** A successful round: the date filter is applied, the page visited, the cursor moved to its newest date. */
  ghost predicate Round(s: Store, g: string, limit: nat, st: Sync, page: seq<string>, st': Sync) {
    && IsPage(s, g, SinceOf(Begun(st)), limit, page)
    && Elems(page) <= s.Keys
    && (page == [] ==> st' == Begun(st))
    && (page != [] ==> exists d :: IsNewest(s, page, d) && st' == Begun(st).(last := Some(d)))
  }

  ghost predicate IsNewest(s: Store, page: seq<string>, d: Timestamp)
    requires Elems(page) <= s.Keys
  {
    && (exists id :: id in Elems(page) && s[id].updatedAt == d)
    && forall id :: id in Elems(page) ==> s[id].updatedAt <= d
  }

  /** What a round of the sweep does, seen from outside. */
  ghost predicate Reads(s: Store, g: string, limit: nat, since: Option<Timestamp>, page: seq<string>,
                        last: Option<Timestamp>, last': Option<Timestamp>) {
    && IsPage(s, g, since, limit, page) && Elems(page) <= s.Keys
    && if page == [] then last' == last else last'.Some? && IsNewest(s, page, last'.value)
  }

  // ---- Turns -------------------------------------------------------------

  /** What can happen to a group: a round or a bootstrap, finished with a page or not. */
  datatype Turn = Finished(page: seq<string>) | Missed | Booted(page: seq<string>) | Unbooted

  /**
    * A missed round counts its cycle and keeps the cursor; a bootstrap forgets both, and its page has no date filter.
    */
  ghost predicate Step(s: Store, g: string, limit: nat, st: Sync, turn: Turn, st': Sync) {
    match turn
    case Finished(page) => Round(s, g, limit, st, page, st')
    case Missed => st' == Begun(st)
    case Booted(page) => st'.cycle == 0 && Reads(s, g, limit, None, page, None, st'.last)
    case Unbooted => st' == Sync(None, 0)
  }

  function Rows(peer: Storage?): Store
    reads peer
  {
    if peer == null then map[] else peer.items
  }

  /** The number of items on `k` full pages. */
  function Span(k: nat, limit: nat): nat { if k == 0 then 0 else Span(k - 1, limit) + limit }

  lemma {:induction false} SpanIsProduct(k: nat, limit: nat)
    ensures Span(k, limit) == k * limit
  {
    if k == 0 {
    } else {
      SpanIsProduct(k - 1, limit);
      assert k * limit == (k - 1) * limit + limit;
    }
  }

  lemma {:induction false} SpanGrows(j: nat, k: nat, limit: nat)
    requires j <= k
    ensures Span(j, limit) <= Span(k, limit)
  {
    if j < k {
      SpanGrows(j, k - 1, limit);
    }
  }

  // ---- Sweeps ------------------------------------------------------------

  /** The rounds of a sweep: no date filter at first, then from cursor to cursor. */
  ghost predicate IsSweep(s: Store, g: string, limit: nat, pages: seq<seq<string>>, lasts: seq<Option<Timestamp>>) {
    && |lasts| == |pages| + 1
    && forall q {:trigger pages[q]} :: 0 <= q < |pages| ==>
       Reads(s, g, limit, if q == 0 then None else lasts[q], pages[q], lasts[q], lasts[q + 1])
  }

  /** What the pages visit between them. */
  function Union(pages: seq<seq<string>>): set<string> {
    if pages == [] then {} else Union(pages[..|pages| - 1]) + Elems(pages[|pages| - 1])
  }

  lemma UnionStep(pages: seq<seq<string>>, q: nat)
    requires q < |pages|
    ensures Union(pages[..q + 1]) == Union(pages[..q]) + Elems(pages[q])
  {
    assert pages[..q + 1][..q] == pages[..q];
  }
}
