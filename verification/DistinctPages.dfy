/** Paging when no two items of a group share a date: every page is the next stretch of the item list. */
module DistinctPages {
  import opened Collections
  import opened Ranking
  import opened Replication
  import opened AntiEntropy
  import opened Cursor
  import opened TiedPages

  /** The group's items, oldest first, no two of the same date. */
  ghost predicate Lists(s: Store, g: string, all: seq<string>) {
    && Elems(all) == Matching(s, g, None)
    && Ascending(s, all)
  }

  ghost predicate Ascending(s: Store, ids: seq<string>) {
    && Elems(ids) <= s.Keys
    && (forall i :: 0 <= i < |ids| ==> ids[i] in s)
    && forall i, j :: 0 <= i < j < |ids| ==> s[ids[i]].updatedAt < s[ids[j]].updatedAt
  }

  lemma SameLast(s: Store, a: seq<string>, b: seq<string>)
    requires Ascending(s, a) && Ascending(s, b) && Elems(a) == Elems(b) && a != [] && b != []
    ensures a[|a| - 1] == b[|b| - 1]
  {
    assert a[|a| - 1] in Elems(b) && b[|b| - 1] in Elems(a);
  }

  lemma WithoutLast(s: Store, a: seq<string>)
    requires Ascending(s, a) && a != []
    ensures Ascending(s, a[..|a| - 1]) && Elems(a[..|a| - 1]) == Elems(a) - {a[|a| - 1]}
            && a == a[..|a| - 1] + [a[|a| - 1]]
  {
    var init, last := a[..|a| - 1], a[|a| - 1];
    assert a == init + [last];
    assert last !in Elems(init);
  }

  lemma EmptyElems(a: seq<string>)
    ensures Elems(a) == {} ==> a == []
  {
    if a != [] {
      assert a[0] in Elems(a);
    }
  }

  /** Two ascending lists of the same items are the same list. */
  lemma {:induction false} AscendingUnique(s: Store, a: seq<string>, b: seq<string>)
    requires Ascending(s, a) && Ascending(s, b) && Elems(a) == Elems(b)
    ensures a == b
    decreases |a|
  {
    if a == [] {
      EmptyElems(b);
    } else if b == [] {
      EmptyElems(a);
    } else {
      SameLast(s, a, b);
      WithoutLast(s, a);
      WithoutLast(s, b);
      AscendingUnique(s, a[..|a| - 1], b[..|b| - 1]);
    }
  }

  lemma AscendingNoDup(s: Store, ids: seq<string>)
    requires Ascending(s, ids)
    ensures NoDup(ids)
  {
  }

  /** A page of items with distinct dates is strictly ascending. */
  lemma PageAscends(s: Store, page: seq<string>, rest: seq<string>)
    requires NoDup(page) && Elems(page) <= Elems(rest) && Ascending(s, rest) && Ranked(DateKeys(s), page)
    ensures Ascending(s, page)
  {
    forall i | 0 <= i < |page|
      ensures page[i] in s && page[i] in rest
    {
      assert page[i] in Elems(page);
    }
    forall i, j | 0 <= i < j < |page|
      ensures s[page[i]].updatedAt < s[page[j]].updatedAt
    {
      assert Le(DateKeys(s)[page[i]], DateKeys(s)[page[j]]);
      var p :| 0 <= p < |rest| && rest[p] == page[i];
      var q :| 0 <= q < |rest| && rest[q] == page[j];
      assert p != q;
    }
  }

  lemma AscendingIsInOrder(s: Store, all: seq<string>)
    requires Ascending(s, all)
    ensures InOrder(s, all) && forall k :: !CutsTie(s, all, k)
  {
  }

  lemma ListsIsSorted(s: Store, g: string, all: seq<string>, limit: nat, k: nat)
    requires Lists(s, g, all)
    ensures Sorted(s, g, None, all) && CleanCuts(s, all, limit, k) && !CutsAt(s, all, limit, k)
  {
    AscendingNoDup(s, all);
    AscendingIsInOrder(s, all);
  }

  lemma AscendingHead(s: Store, all: seq<string>, k: nat)
    requires Ascending(s, all) && k <= |all|
    ensures Ascending(s, all[..k])
  {
    assert Elems(all[..k]) <= Elems(all);
  }

  /** A page of an ascending list is its beginning. */
  lemma PageIsPrefix(s: Store, g: string, since: Option<Timestamp>, limit: nat, page: seq<string>, rest: seq<string>)
    requires IsPage(s, g, since, limit, page) && Sorted(s, g, since, rest) && Ascending(s, rest)
    ensures page == rest[..Min(limit, |rest|)]
  {
    var head := rest[..Min(limit, |rest|)];
    PageIsOldest(s, g, since, limit, page, rest);
    AscendingIsInOrder(s, rest);
    OldestIsPrefix(s, rest, Elems(page), limit);
    PageAscends(s, page, rest);
    AscendingHead(s, rest, |head|);
    AscendingUnique(s, page, head);
  }

  lemma AscendingRest(s: Store, all: seq<string>, m: nat)
    requires Ascending(s, all) && m <= |all|
    ensures Ascending(s, all[m..])
  {
    assert Elems(all[m..]) <= Elems(all);
  }

  /** The slice of the item list that makes up page `q`. */
  function Slice(all: seq<string>, limit: nat, q: nat): seq<string>
  {
    all[Min(|all|, Span(q, limit))..Min(|all|, Span(q + 1, limit))]
  }

  lemma SliceIsNext(all: seq<string>, limit: nat, q: nat)
    ensures var m := Min(|all|, Span(q, limit)); Slice(all, limit, q) == all[m..][..Min(limit, |all| - m)]
  {
    NextEnd(|all|, q, limit);
    var m := Min(|all|, Span(q, limit));
    TakeOfDrop(all, m, Min(limit, |all| - m));
  }

  lemma TakeOfDrop(all: seq<string>, m: nat, k: nat)
    requires m + k <= |all|
    ensures all[m..][..k] == all[m..m + k]
  {
  }

  lemma NextPage(s: Store, g: string, all: seq<string>, limit: nat, m: nat, since: Option<Timestamp>,
                 last: Option<Timestamp>, visited: set<string>, page: seq<string>)
    requires Ascending(s, all) && Behind(s, g, all, m, since, last, visited) && IsPage(s, g, since, limit, page)
    ensures page == all[m..][..Min(limit, |all| - m)]
  {
    AscendingRest(s, all, m);
    PageIsPrefix(s, g, since, limit, page, all[m..]);
  }

  lemma SweptIsBehind(s: Store, g: string, all: seq<string>, limit: nat, visited: set<string>, last: Option<Timestamp>,
                      q: nat)
    requires Lists(s, g, all) && limit > 0 && all != [] && Swept(s, all, limit, visited, last, q)
    ensures Behind(s, g, all, Min(|all|, Span(q, limit)), if q == 0 then None else last, last, visited)
  {
    ListsIsSorted(s, g, all, limit, q);
    RoundStartsBehind(s, g, all, limit, visited, last, q);
  }

  /** Page `q` of a sweep starts where the first `q` pages of the item list end. */
  lemma SweepIsBehind(s: Store, g: string, all: seq<string>, limit: nat, pages: seq<seq<string>>,
                      lasts: seq<Option<Timestamp>>, q: nat)
    requires Lists(s, g, all) && limit > 0 && all != [] && IsSweep(s, g, limit, pages, lasts) && q <= |pages|
    ensures Behind(s, g, all, Min(|all|, Span(q, limit)), if q == 0 then None else lasts[q], lasts[q],
              Union(pages[..q]))
  {
    ListsIsSorted(s, g, all, limit, q);
    CleanSweep(s, g, all, limit, pages, lasts, q);
    SweptIsBehind(s, g, all, limit, Union(pages[..q]), lasts[q], q);
  }

  lemma SweepIsPaged(s: Store, g: string, limit: nat, pages: seq<seq<string>>, lasts: seq<Option<Timestamp>>, q: nat)
    requires IsSweep(s, g, limit, pages, lasts) && q < |pages|
    ensures IsPage(s, g, if q == 0 then None else lasts[q], limit, pages[q])
  {
    assert Reads(s, g, limit, if q == 0 then None else lasts[q], pages[q], lasts[q], lasts[q + 1]);
  }

  lemma NoPages(s: Store, g: string, all: seq<string>, limit: nat, since: Option<Timestamp>, page: seq<string>)
    requires Lists(s, g, all) && all == [] && IsPage(s, g, since, limit, page)
    ensures page == []
  {
    ListsIsSorted(s, g, all, limit, 0);
    NoItemsNoPage(s, g, all, limit, since, page);
    EmptyElems(page);
  }

  /** Page `q` of a sweep is the `q`-th stretch of the item list. */
  lemma SweepPage(s: Store, g: string, all: seq<string>, limit: nat, pages: seq<seq<string>>,
                  lasts: seq<Option<Timestamp>>, q: nat)
    requires Lists(s, g, all) && limit > 0 && IsSweep(s, g, limit, pages, lasts) && q < |pages|
    ensures pages[q] == Slice(all, limit, q)
  {
    var since := if q == 0 then None else lasts[q];
    SweepIsPaged(s, g, limit, pages, lasts, q);
    if all == [] {
      NoPages(s, g, all, limit, since, pages[q]);
    } else {
      SweepIsBehind(s, g, all, limit, pages, lasts, q);
      PageFromBehind(s, g, all, limit, q, since, lasts[q], Union(pages[..q]), pages[q]);
    }
  }

  lemma PageFromBehind(s: Store, g: string, all: seq<string>, limit: nat, q: nat, since: Option<Timestamp>,
                       last: Option<Timestamp>, visited: set<string>, page: seq<string>)
    requires Ascending(s, all) && Behind(s, g, all, Min(|all|, Span(q, limit)), since, last, visited)
             && IsPage(s, g, since, limit, page)
    ensures page == Slice(all, limit, q)
  {
    SliceIsNext(all, limit, q);
    NextPage(s, g, all, limit, Min(|all|, Span(q, limit)), since, last, visited, page);
  }

  function Joined(pages: seq<seq<string>>): seq<string> {
    if pages == [] then [] else Joined(pages[..|pages| - 1]) + pages[|pages| - 1]
  }

  lemma SliceJoins(all: seq<string>, limit: nat, k: nat)
    requires k > 0
    ensures all[..Min(|all|, Span(k, limit))] == all[..Min(|all|, Span(k - 1, limit))] + Slice(all, limit, k - 1)
  {
  }

  lemma {:induction false} SlicesJoin(all: seq<string>, limit: nat, pages: seq<seq<string>>)
    requires forall q :: 0 <= q < |pages| ==> pages[q] == Slice(all, limit, q)
    ensures Joined(pages) == all[..Min(|all|, Span(|pages|, limit))]
    decreases |pages|
  {
    if pages != [] {
      SlicesJoin(all, limit, pages[..|pages| - 1]);
      SliceJoins(all, limit, |pages|);
    }
  }

  /** The pages of a sweep, joined, are the item list from its beginning: nothing skipped, nothing seen twice. */
  lemma PagesJoinUp(s: Store, g: string, all: seq<string>, limit: nat, pages: seq<seq<string>>,
                    lasts: seq<Option<Timestamp>>)
    requires Lists(s, g, all) && limit > 0 && IsSweep(s, g, limit, pages, lasts)
    ensures Joined(pages) == all[..Min(|all|, |pages| * limit)]
  {
    forall q | 0 <= q < |pages|
      ensures pages[q] == Slice(all, limit, q)
    {
      SweepPage(s, g, all, limit, pages, lasts, q);
    }
    SlicesJoin(all, limit, pages);
    SpanIsProduct(|pages|, limit);
  }

  lemma {:induction false} UnionIsJoined(pages: seq<seq<string>>)
    ensures Union(pages) == Elems(Joined(pages))
    decreases |pages|
  {
    if pages == [] {
    } else {
      UnionIsJoined(pages[..|pages| - 1]);
      ElemsConcat(Joined(pages[..|pages| - 1]), pages[|pages| - 1]);
    }
  }

  /** A sweep visits exactly the oldest items, as many as fit its pages. */
  lemma WindowIsCovered(s: Store, g: string, all: seq<string>, limit: nat, pages: seq<seq<string>>,
                        lasts: seq<Option<Timestamp>>)
    requires Lists(s, g, all) && limit > 0 && IsSweep(s, g, limit, pages, lasts)
    ensures Union(pages) == Elems(all[..Min(|all|, |pages| * limit)])
  {
    PagesJoinUp(s, g, all, limit, pages, lasts);
    UnionIsJoined(pages);
  }
}
