/** Whole runs of a group's syncs: rounds that finish or are missed, and bootstraps, in any order. */
module SyncRuns {
  import opened Collections
  import opened Era
  import opened Replication
  import opened AntiEntropy
  import opened Cursor
  import opened TiedPages
  import opened DistinctPages

  /** Successive turns against an unchanging peer, from a fresh start. */
  ghost predicate IsSyncRun(s: Store, g: string, limit: nat, states: seq<Sync>, turns: seq<Turn>) {
    && |states| == |turns| + 1 && states[0] == Sync(None, 0)
    && forall i {:trigger turns[i]} :: 0 <= i < |turns| ==> Step(s, g, limit, states[i], turns[i], states[i + 1])
  }

  // ---- What the turns alone say ------------------------------------------

  /** The cycles counted so far. */
  function Cycles(turns: seq<Turn>): nat {
    if turns == [] then 0
    else if Last(turns).Booted? || Last(turns).Unbooted? then 0
    else Cycles(Front(turns)) + 1
  }

  /** The pages since the last finished page without date filter. A missed round, a full sync too, changes nothing. */
  function Stretch(turns: seq<Turn>): seq<seq<string>> {
    if turns == [] then []
    else match Last(turns)
      case Finished(page) => if IsFull(Cycles(turns)) then [page] else Stretch(Front(turns)) + [page]
      case Missed => Stretch(Front(turns))
      case Booted(page) => [page]
      case Unbooted => []
  }

  /** The length of the longest stretch so far. */
  function Reach(turns: seq<Turn>): nat {
    if turns == [] then 0 else Max(Reach(Front(turns)), |Stretch(turns)|)
  }

  function PageOf(turn: Turn): set<string> {
    if turn.Finished? || turn.Booted? then Elems(turn.page) else {}
  }

  /** What the turns visit between them. */
  function Visited(turns: seq<Turn>): set<string> {
    if turns == [] then {} else Visited(Front(turns)) + PageOf(Last(turns))
  }

  function Front(turns: seq<Turn>): seq<Turn>
    requires turns != []
  {
    turns[..|turns| - 1]
  }

  function Last(turns: seq<Turn>): Turn
    requires turns != []
  {
    turns[|turns| - 1]
  }

  function Max(a: nat, b: nat): nat { if a < b then b else a }

  // ---- A stretch is a sweep ----------------------------------------------

  /** The stretch is a sweep that ends at the cursor. */
  ghost predicate Tracks(s: Store, g: string, limit: nat, turns: seq<Turn>, st: Sync, lasts: seq<Option<Timestamp>>) {
    && st.cycle == Cycles(turns)
    && IsSweep(s, g, limit, Stretch(turns), lasts) && lasts[|Stretch(turns)|] == st.last
    && (Stretch(turns) == [] ==> st.last == None)
  }

  lemma SweepGrows(s: Store, g: string, limit: nat, pages: seq<seq<string>>, lasts: seq<Option<Timestamp>>,
                   page: seq<string>, last': Option<Timestamp>)
    requires IsSweep(s, g, limit, pages, lasts)
    requires Reads(s, g, limit, if pages == [] then None else lasts[|pages|], page, lasts[|pages|], last')
    ensures IsSweep(s, g, limit, pages + [page], lasts + [last'])
  {
    var more, ends := pages + [page], lasts + [last'];
    forall q | 0 <= q < |more|
      ensures Reads(s, g, limit, if q == 0 then None else ends[q], more[q], ends[q], ends[q + 1])
    {
      if q < |pages| {
        assert Reads(s, g, limit, if q == 0 then None else lasts[q], pages[q], lasts[q], lasts[q + 1]);
      }
    }
  }

  lemma SweepBegins(s: Store, g: string, limit: nat, page: seq<string>, last: Option<Timestamp>,
                    last': Option<Timestamp>)
    requires Reads(s, g, limit, None, page, last, last')
    ensures IsSweep(s, g, limit, [page], [last, last'])
  {
  }

  /** What a finished round reads: without date filter if it is a full sync, or else from the cursor on. */
  lemma RoundReads(s: Store, g: string, limit: nat, st: Sync, page: seq<string>, st': Sync)
    requires Round(s, g, limit, st, page, st')
    ensures Reads(s, g, limit, if IsFull(st.cycle + 1) then None else st.last, page, st.last, st'.last)
            && st'.cycle == st.cycle + 1
  {
  }

  /** The stretch after a finished round, by what the round read. */
  lemma FinishedTracks(s: Store, g: string, limit: nat, pages: seq<seq<string>>, lasts: seq<Option<Timestamp>>,
                       full: bool, page: seq<string>, last: Option<Timestamp>, last': Option<Timestamp>)
    returns (lasts': seq<Option<Timestamp>>)
    requires IsSweep(s, g, limit, pages, lasts) && lasts[|pages|] == last && (pages == [] ==> last == None)
    requires Reads(s, g, limit, if full then None else last, page, last, last')
    ensures var pages' := if full then [page] else pages + [page];
            IsSweep(s, g, limit, pages', lasts') && lasts'[|pages'|] == last'
  {
    if full {
      SweepBegins(s, g, limit, page, last, last');
      lasts' := [last, last'];
    } else {
      SweepGrows(s, g, limit, pages, lasts, page, last');
      lasts' := lasts + [last'];
    }
  }

  lemma RoundTracks(s: Store, g: string, limit: nat, turns: seq<Turn>, st: Sync, st': Sync,
                    lasts: seq<Option<Timestamp>>)
    returns (lasts': seq<Option<Timestamp>>)
    requires turns != [] && Last(turns).Finished? && Tracks(s, g, limit, Front(turns), st, lasts)
    requires Round(s, g, limit, st, Last(turns).page, st')
    ensures Tracks(s, g, limit, turns, st', lasts')
  {
    var page := Last(turns).page;
    RoundReads(s, g, limit, st, page, st');
    lasts' := FinishedTracks(s, g, limit, Stretch(Front(turns)), lasts, IsFull(st.cycle + 1), page, st.last, st'.last);
  }

  lemma TurnTracks(s: Store, g: string, limit: nat, turns: seq<Turn>, st: Sync, st': Sync,
                   lasts: seq<Option<Timestamp>>)
    returns (lasts': seq<Option<Timestamp>>)
    requires turns != [] && Tracks(s, g, limit, Front(turns), st, lasts) && Step(s, g, limit, st, Last(turns), st')
    ensures Tracks(s, g, limit, turns, st', lasts')
  {
    match Last(turns)
    case Finished(_) =>
      lasts' := RoundTracks(s, g, limit, turns, st, st', lasts);
    case Missed =>
      lasts' := lasts;
    case Booted(page) =>
      SweepBegins(s, g, limit, page, None, st'.last);
      lasts' := [None, st'.last];
    case Unbooted =>
      lasts' := [None];
  }

  /**
    * At any moment of any run, the pages since the last one without date filter are a sweep, whatever was missed in
    * between, and the cursor is where the sweep ends.
    */
  lemma StretchIsSweep(s: Store, g: string, limit: nat, states: seq<Sync>, turns: seq<Turn>, n: nat)
    returns (lasts: seq<Option<Timestamp>>)
    requires IsSyncRun(s, g, limit, states, turns) && n <= |turns|
    ensures Tracks(s, g, limit, turns[..n], states[n], lasts)
  {
    lasts := [None];
    for i := 0 to n
      invariant Tracks(s, g, limit, turns[..i], states[i], lasts)
    {
      var now := turns[..i + 1];
      assert Front(now) == turns[..i] && Last(now) == turns[i];
      assert Step(s, g, limit, states[i], turns[i], states[i + 1]);
      lasts := TurnTracks(s, g, limit, now, states[i], states[i + 1], lasts);
    }
  }

  // ---- What a run visits -------------------------------------------------

  /** The items on the first `k` pages of the list. */
  function OnPages(all: seq<string>, limit: nat, k: nat): set<string> { Elems(all[..Min(|all|, Span(k, limit))]) }

  lemma OnMorePages(all: seq<string>, limit: nat, j: nat, k: nat)
    requires j <= k
    ensures OnPages(all, limit, j) <= OnPages(all, limit, k)
  {
    SpanGrows(j, k, limit);
    var few, many := all[..Min(|all|, Span(j, limit))], all[..Min(|all|, Span(k, limit))];
    assert few == many[..|few|];
  }

  lemma SweepVisits(s: Store, g: string, all: seq<string>, limit: nat, pages: seq<seq<string>>,
                    lasts: seq<Option<Timestamp>>, k: nat)
    requires Sorted(s, g, None, all) && limit > 0 && IsSweep(s, g, limit, pages, lasts)
    requires |pages| <= k && CleanCuts(s, all, limit, k + 1)
    ensures Union(pages) == OnPages(all, limit, |pages|)
  {
    SweepReachesIff(s, g, all, limit, pages, lasts);
    assert !CutsAt(s, all, limit, |pages|);
    OldestIsPrefix(s, all, Union(pages), Span(|pages|, limit));
  }

  lemma UnionOne(pages: seq<seq<string>>, page: seq<string>)
    ensures Union(pages + [page]) == Union(pages) + Elems(page) && Union([page]) == Elems(page)
  {
    assert (pages + [page])[..|pages|] == pages;
    assert [page][..0] == [];
  }

  lemma StretchUnion(turns: seq<Turn>)
    requires turns != []
    ensures Union(Stretch(turns)) <= Union(Stretch(Front(turns))) + PageOf(Last(turns))
    ensures PageOf(Last(turns)) <= Union(Stretch(turns))
  {
    if Last(turns).Finished? || Last(turns).Booted? {
      UnionOne(Stretch(Front(turns)), Last(turns).page);
    }
  }

  lemma VisitsOneMore(all: seq<string>, limit: nat, turns: seq<Turn>)
    requires turns != [] && Visited(Front(turns)) == OnPages(all, limit, Reach(Front(turns)))
    requires Union(Stretch(Front(turns))) <= Visited(Front(turns))
             && Union(Stretch(turns)) == OnPages(all, limit, |Stretch(turns)|)
    ensures Visited(turns) == OnPages(all, limit, Reach(turns)) && Union(Stretch(turns)) <= Visited(turns)
  {
    StretchUnion(turns);
    var old', new' := Reach(Front(turns)), |Stretch(turns)|;
    assert Visited(turns) == OnPages(all, limit, old') + OnPages(all, limit, new');
    if old' < new' {
      OnMorePages(all, limit, old', new');
    } else {
      OnMorePages(all, limit, new', old');
    }
  }

  lemma ReachGrows(turns: seq<Turn>, n: nat)
    requires n <= |turns|
    ensures |Stretch(turns[..n])| <= Reach(turns[..n]) <= Reach(turns)
  {
    var i := n;
    while i < |turns|
      invariant n <= i <= |turns| && Reach(turns[..n]) <= Reach(turns[..i])
    {
      assert Front(turns[..i + 1]) == turns[..i];
      i := i + 1;
    }
    assert turns[..|turns|] == turns;
  }

  /**
    * A run visits exactly the oldest items, as many as fit the pages of its longest stretch, provided no page boundary
    * up to there divides items of equal date.
    */
  lemma RunVisits(s: Store, g: string, all: seq<string>, limit: nat, states: seq<Sync>, turns: seq<Turn>)
    requires Sorted(s, g, None, all) && limit > 0 && IsSyncRun(s, g, limit, states, turns)
    requires CleanCuts(s, all, limit, Reach(turns) + 1)
    ensures Visited(turns) == Elems(all[..Min(|all|, Reach(turns) * limit)])
  {
    for n := 0 to |turns|
      invariant Visited(turns[..n]) == OnPages(all, limit, Reach(turns[..n]))
      invariant Union(Stretch(turns[..n])) <= Visited(turns[..n])
    {
      var now := turns[..n + 1];
      assert Front(now) == turns[..n];
      var lasts := StretchIsSweep(s, g, limit, states, turns, n + 1);
      ReachGrows(turns, n + 1);
      SweepVisits(s, g, all, limit, Stretch(now), lasts, Reach(turns));
      VisitsOneMore(all, limit, now);
    }
    assert turns[..|turns|] == turns;
    SpanIsProduct(Reach(turns), limit);
  }

  lemma PrefixIsAllIff(all: seq<string>, k: nat)
    requires NoDup(all)
    ensures Elems(all[..Min(|all|, k)]) == Elems(all) <==> |all| <= k
  {
    if |all| <= k {
      assert all[..|all|] == all;
    } else {
      assert all[k] in Elems(all) && all[k] !in Elems(all[..k]);
    }
  }

  /**
    * With distinct dates, a run reaches every item of the group if and only if the group fits the run's longest
    * stretch.
    */
  lemma AllItemsReachedIff(s: Store, g: string, all: seq<string>, limit: nat, states: seq<Sync>, turns: seq<Turn>)
    requires Lists(s, g, all) && limit > 0 && IsSyncRun(s, g, limit, states, turns)
    ensures Visited(turns) == Matching(s, g, None) <==> |all| <= Reach(turns) * limit
  {
    ListsIsSorted(s, g, all, limit, Reach(turns) + 1);
    RunVisits(s, g, all, limit, states, turns);
    PrefixIsAllIff(all, Reach(turns) * limit);
  }

  // ---- How far the longest stretch goes ----------------------------------

  predicate NoneMissed(turns: seq<Turn>) { forall i :: 0 <= i < |turns| ==> !turns[i].Missed? }

  /**
    * While no round is missed, a full sync ends every stretch: none is longer than the ten pages between two of them.
    */
  lemma {:induction false} UnmissedReach(turns: seq<Turn>)
    requires NoneMissed(turns)
    ensures |Stretch(turns)| <= Cycles(turns) % FULL_SYNC_EVERY + 1 && Reach(turns) <= 10
    decreases |turns|
  {
    if turns == [] {
    } else {
      UnmissedReach(Front(turns));
    }
  }

  predicate AllFinished(turns: seq<Turn>) { forall i :: 0 <= i < |turns| ==> turns[i].Finished? }

  lemma FullEveryTen(n: nat)
    requires n > 0
    ensures IsFull(n) ==> n >= FULL_SYNC_EVERY && n % FULL_SYNC_EVERY == 0
    ensures !IsFull(n) && n >= FULL_SYNC_EVERY ==>
              n > FULL_SYNC_EVERY && (n - 1) % FULL_SYNC_EVERY + 1 == n % FULL_SYNC_EVERY
  {
  }

  lemma {:induction false} SteadyStretch(turns: seq<Turn>)
    requires AllFinished(turns)
    ensures Cycles(turns) == |turns|
    ensures |Stretch(turns)| == if |turns| < FULL_SYNC_EVERY then |turns| else |turns| % FULL_SYNC_EVERY + 1
    decreases |turns|
  {
    if turns == [] {
    } else {
      SteadyStretch(Front(turns));
      FullEveryTen(|turns|);
      assert Last(turns).Finished?;
    }
  }

  /** If every round finishes, the ten pages are reached by the second full sync at the latest. */
  lemma SteadyReach(turns: seq<Turn>)
    requires AllFinished(turns) && |turns| >= 19
    ensures Reach(turns) == 10
  {
    UnmissedReach(turns);
    var n := 2 * FULL_SYNC_EVERY - 1;
    SteadyStretch(turns[..n]);
    ReachGrows(turns, n);
  }

  /** If no round is missed, paging reaches every item of a group of distinct dates if and only if it fits ten pages. */
  lemma SteadyReachesIff(s: Store, g: string, all: seq<string>, limit: nat, states: seq<Sync>, turns: seq<Turn>)
    requires Lists(s, g, all) && limit > 0 && IsSyncRun(s, g, limit, states, turns)
    requires AllFinished(turns) && |turns| >= 19
    ensures Visited(turns) == Matching(s, g, None) <==> |all| <= 10 * limit
  {
    AllItemsReachedIff(s, g, all, limit, states, turns);
    SteadyReach(turns);
  }

  /** Exactly the full syncs are missed. */
  predicate FullMissed(turns: seq<Turn>) {
    forall i :: 0 <= i < |turns| ==> if IsFull(i + 1) then turns[i].Missed? else turns[i].Finished?
  }

  /**
    * If the full syncs are missed and nothing else, the cursor is never dropped, and every further round reaches
    * further.
    */
  lemma {:induction false} MissedFullSyncsReach(turns: seq<Turn>)
    requires FullMissed(turns)
    ensures Cycles(turns) == |turns| && |Stretch(turns)| == Reach(turns) == |turns| - |turns| / 10
    decreases |turns|
  {
    if turns == [] {
    } else {
      MissedFullSyncsReach(Front(turns));
      assert Last(turns) == turns[|turns| - 1];
    }
  }

  /** Exactly the full syncs finish. */
  predicate OnlyFull(turns: seq<Turn>) {
    forall i :: 0 <= i < |turns| ==> if IsFull(i + 1) then turns[i].Finished? else turns[i].Missed?
  }

  /** If the full syncs finish and nothing else, no run reaches beyond the first page. */
  lemma {:induction false} OnlyFullSyncsReach(turns: seq<Turn>)
    requires OnlyFull(turns)
    ensures Cycles(turns) == |turns| && |Stretch(turns)| <= Reach(turns) <= 1
    decreases |turns|
  {
    if turns == [] {
    } else {
      OnlyFullSyncsReach(Front(turns));
      assert Last(turns) == turns[|turns| - 1];
    }
  }

  // ---- What a sweep leaves in the local store ----------------------------

  /** The local store before and after each page: what the page names is fetched and received. */
  ghost predicate ReceivesPages(h: Hash, policy: Acceptance, peer: Store, pages: seq<seq<string>>, locals: seq<Store>) {
    && |locals| == |pages| + 1
    && forall q {:trigger pages[q]} :: 0 <= q < |pages| ==>
         locals[q + 1] == ReceiveAll(h, policy, locals[q], FetchAll(peer, pages[q]))
  }

  lemma JoinedStep(pages: seq<seq<string>>, q: nat)
    requires q < |pages|
    ensures Joined(pages[..q + 1]) == Joined(pages[..q]) + pages[q]
  {
    assert pages[..q + 1][..q] == pages[..q];
  }

  lemma ReceivesJoined(h: Hash, policy: Acceptance, peer: Store, pages: seq<seq<string>>, locals: seq<Store>)
    requires ReceivesPages(h, policy, peer, pages, locals)
    ensures locals[|pages|] == ReceiveAll(h, policy, locals[0], FetchAll(peer, Joined(pages)))
  {
    for q := 0 to |pages|
      invariant locals[q] == ReceiveAll(h, policy, locals[0], FetchAll(peer, Joined(pages[..q])))
    {
      JoinedStep(pages, q);
      FetchConcat(peer, Joined(pages[..q]), pages[q]);
      ReceiveConcat(h, policy, locals[0], FetchAll(peer, Joined(pages[..q])), FetchAll(peer, pages[q]));
    }
    assert pages[..|pages|] == pages;
  }

  /** A sweep of `k` rounds leaves the store that one copy of the oldest `k` pages of items would leave. */
  lemma SweepReceives(h: Hash, policy: Acceptance, peer: Store, g: string, all: seq<string>, limit: nat,
                      pages: seq<seq<string>>, lasts: seq<Option<Timestamp>>, locals: seq<Store>)
    requires Lists(peer, g, all) && limit > 0 && IsSweep(peer, g, limit, pages, lasts)
    requires ReceivesPages(h, policy, peer, pages, locals)
    ensures locals[|pages|] == ReceiveAll(h, policy, locals[0], FetchAll(peer, all[..Min(|all|, |pages| * limit)]))
  {
    PagesJoinUp(peer, g, all, limit, pages, lasts);
    ReceivesJoined(h, policy, peer, pages, locals);
  }
}
