/** Paging when items may share a date: the cursor skips what a page cut off in the middle of a date. */
module TiedPages {
  import opened Collections
  import opened Ranking
  import opened Replication
  import opened AntiEntropy
  import opened Cursor

  /** The matching items, oldest first; items of equal date in any order. */
  ghost predicate Sorted(s: Store, g: string, since: Option<Timestamp>, all: seq<string>) {
    NoDup(all) && Elems(all) == Matching(s, g, since) && InOrder(s, all)
  }

  ghost predicate InOrder(s: Store, all: seq<string>) {
    && (forall i :: 0 <= i < |all| ==> all[i] in s)
    && forall i, j :: 0 <= i <= j < |all| ==> s[all[i]].updatedAt <= s[all[j]].updatedAt
  }

  /** The list divides between two items of the same date at position `k`. */
  predicate CutsTie(s: Store, all: seq<string>, k: nat) {
    0 < k < |all| && all[k - 1] in s && all[k] in s && s[all[k - 1]].updatedAt == s[all[k]].updatedAt
  }

  /** The `k` oldest items, or all: no one left out is older than one taken. */
  ghost predicate Oldest(s: Store, all: seq<string>, chosen: set<string>, k: nat) {
    && chosen <= Elems(all) <= s.Keys && |chosen| == Min(k, |all|)
    && forall c, u :: c in chosen && u in Elems(all) && u !in chosen ==> s[c].updatedAt <= s[u].updatedAt
  }

  lemma PageIsOldest(s: Store, g: string, since: Option<Timestamp>, limit: nat, page: seq<string>, rest: seq<string>)
    requires IsPage(s, g, since, limit, page) && Sorted(s, g, since, rest)
    ensures Oldest(s, rest, Elems(page), limit) && |page| == Min(limit, |rest|)
  {
    NoDupCardinality(page);
    NoDupCardinality(rest);
    forall c, u | c in Elems(page) && u in Elems(rest) && u !in Elems(page)
      ensures s[c].updatedAt <= s[u].updatedAt
    {
      assert Le(DateKeys(s)[c], DateKeys(s)[u]);
    }
  }

  lemma IndexOf(all: seq<string>, id: string) returns (i: nat)
    requires id in Elems(all)
    ensures i < |all| && all[i] == id
  {
    i :| i < |all| && all[i] == id;
  }

  lemma IndexBeyond(all: seq<string>, k: nat, id: string) returns (i: nat)
    requires id in Elems(all) && k <= |all| && id !in Elems(all[..k])
    ensures k <= i < |all| && all[i] == id
  {
    i := IndexOf(all, id);
    assert forall j :: 0 <= j < k ==> all[..k][j] == all[j];
  }

  /** An item among the first `k` was left out: then all taken come before it, dates considered. */
  lemma LeftOutEarly(s: Store, all: seq<string>, chosen: set<string>, k: nat, i: nat)
    requires NoDup(all) && InOrder(s, all) && Oldest(s, all, chosen, k) && i < Min(k, |all|) && all[i] !in chosen
    ensures exists c :: c in chosen && c !in Elems(all[..Min(k, |all|)]) && s[c].updatedAt == s[all[i]].updatedAt
  {
    var head := all[..Min(k, |all|)];
    NoDupCardinality(head);
    assert head[i] == all[i] && all[i] in Elems(head) && all[i] in Elems(all);
    if chosen <= Elems(head) {
      SubsetCardinality(chosen, Elems(head) - {all[i]});
    }
    var c :| c in chosen && c !in Elems(head);
    var j := IndexBeyond(all, |head|, c);
    assert s[all[i]].updatedAt <= s[all[j]].updatedAt;
  }

  /** An early item and a late one of the same date put a cut through a tie. */
  lemma TieReaches(s: Store, all: seq<string>, k: nat, i: nat, c: string)
    requires InOrder(s, all) && i < Min(k, |all|) && c in Elems(all) && c !in Elems(all[..Min(k, |all|)])
    requires s[c].updatedAt == s[all[i]].updatedAt
    ensures CutsTie(s, all, k)
  {
    var j := IndexBeyond(all, Min(k, |all|), c);
    assert s[all[i]].updatedAt <= s[all[k - 1]].updatedAt <= s[all[k]].updatedAt <= s[all[j]].updatedAt;
  }

  lemma LeftOutMeansTie(s: Store, all: seq<string>, chosen: set<string>, k: nat, i: nat)
    requires NoDup(all) && InOrder(s, all) && Oldest(s, all, chosen, k) && i < Min(k, |all|) && all[i] !in chosen
    ensures CutsTie(s, all, k)
  {
    LeftOutEarly(s, all, chosen, k, i);
    var c :| c in chosen && c !in Elems(all[..Min(k, |all|)]) && s[c].updatedAt == s[all[i]].updatedAt;
    TieReaches(s, all, k, i, c);
  }

  /** Where no tie is cut, the oldest `k` are the first `k`. */
  lemma OldestIsPrefix(s: Store, all: seq<string>, chosen: set<string>, k: nat)
    requires NoDup(all) && InOrder(s, all) && Oldest(s, all, chosen, k) && !CutsTie(s, all, k)
    ensures chosen == Elems(all[..Min(k, |all|)])
  {
    var head := all[..Min(k, |all|)];
    NoDupCardinality(head);
    forall i | 0 <= i < |head|
      ensures head[i] in chosen
    {
      if all[i] !in chosen {
        LeftOutMeansTie(s, all, chosen, k, i);
      }
    }
    assert Elems(head) <= chosen;
    DifferenceCardinality(chosen, Elems(head));
  }

  /** The newest date among the oldest `k` is that of the item at position `k`. */
  lemma NewestOfOldest(s: Store, all: seq<string>, chosen: set<string>, k: nat)
    requires NoDup(all) && InOrder(s, all) && Oldest(s, all, chosen, k) && k > 0 && all != []
    ensures var d := s[all[Min(k, |all|) - 1]].updatedAt;
            (exists c :: c in chosen && s[c].updatedAt == d) && forall c :: c in chosen ==> s[c].updatedAt <= d
  {
    var m := Min(k, |all|);
    var d := s[all[m - 1]].updatedAt;
    NoneNewer(s, all, chosen, k);
    if all[m - 1] !in chosen {
      LeftOutEarly(s, all, chosen, k, m - 1);
    }
  }

  lemma NoneNewer(s: Store, all: seq<string>, chosen: set<string>, k: nat)
    requires NoDup(all) && InOrder(s, all) && Oldest(s, all, chosen, k) && k > 0 && all != []
    ensures forall c :: c in chosen ==> s[c].updatedAt <= s[all[Min(k, |all|) - 1]].updatedAt
  {
    var m := Min(k, |all|);
    forall c | c in chosen
      ensures s[c].updatedAt <= s[all[m - 1]].updatedAt
    {
      var j := IndexOf(all, c);
      if j >= m {
        var u := EarlyLeftOut(s, all, chosen, k, j);
      }
    }
  }

  /** If an item behind the first `k` was taken, one of the first `k` was not. */
  lemma EarlyLeftOut(s: Store, all: seq<string>, chosen: set<string>, k: nat, j: nat) returns (u: string)
    requires NoDup(all) && InOrder(s, all) && Oldest(s, all, chosen, k) && 0 < k <= j < |all| && all[j] in chosen
    ensures u in Elems(all) && u !in chosen && s[u].updatedAt <= s[all[k - 1]].updatedAt
            && s[all[j]].updatedAt <= s[u].updatedAt
  {
    var head := all[..k];
    NoDupCardinality(head);
    assert all[j] !in Elems(head) by {
      assert forall i :: 0 <= i < k ==> head[i] == all[i] && all[i] != all[j];
    }
    if Elems(head) <= chosen {
      SubsetCardinality(Elems(head) + {all[j]}, chosen);
    }
    u :| u in Elems(head) && u !in chosen;
    var i := IndexOf(head, u);
    assert u == all[i] && u in Elems(all);
  }

  lemma PageNewest(s: Store, g: string, since: Option<Timestamp>, limit: nat, page: seq<string>, rest: seq<string>,
                   d: Timestamp)
    requires IsPage(s, g, since, limit, page) && Sorted(s, g, since, rest) && limit > 0 && Elems(page) <= s.Keys
             && IsNewest(s, page, d)
    ensures rest != [] && d == s[rest[Min(limit, |rest|) - 1]].updatedAt
  {
    PageIsOldest(s, g, since, limit, page, rest);
    var c :| c in Elems(page) && s[c].updatedAt == d;
    assert c in Elems(rest);
    NewestOfOldest(s, rest, Elems(page), limit);
  }

  /** A date cut in two has an item on each side of the cut that is not among any oldest `k`. */
  lemma CutLosesOne(s: Store, all: seq<string>, chosen: set<string>, k: nat) returns (u: string)
    requires NoDup(all) && InOrder(s, all) && Oldest(s, all, chosen, k) && CutsTie(s, all, k)
    ensures u in Elems(all) && u !in chosen && s[u].updatedAt == s[all[k - 1]].updatedAt
  {
    var more := all[..k + 1];
    NoDupCardinality(more);
    if Elems(more) <= chosen {
      SubsetCardinality(Elems(more), chosen);
    }
    u :| u in Elems(more) && u !in chosen;
    var i := IndexOf(more, u);
    assert all[i] == u && u in Elems(all);
    assert s[all[i]].updatedAt <= s[all[k]].updatedAt;
    if i < k {
      LeftOutEarly(s, all, chosen, k, i);
      var c :| c in chosen && c !in Elems(all[..Min(k, |all|)]) && s[c].updatedAt == s[all[i]].updatedAt;
      var j := IndexBeyond(all, k, c);
      assert s[all[k]].updatedAt <= s[all[j]].updatedAt;
    }
  }

  /**
    * One round loses nothing, that is, what it does not visit is newer than its cursor, if and only if its page does
    * not end in the middle of a date.
    */
  lemma RoundLosesNothingIff(s: Store, g: string, since: Option<Timestamp>, limit: nat, page: seq<string>,
                             rest: seq<string>, d: Timestamp)
    requires Sorted(s, g, since, rest) && limit > 0
    requires IsPage(s, g, since, limit, page) && Elems(page) <= s.Keys && IsNewest(s, page, d)
    ensures Matching(s, g, since) == Elems(page) + Matching(s, g, Some(d)) <==> !CutsTie(s, rest, limit)
  {
    PageNewest(s, g, since, limit, page, rest, d);
    PageIsOldest(s, g, since, limit, page, rest);
    if CutsTie(s, rest, limit) {
      var u := CutLosesOne(s, rest, Elems(page), limit);
      assert u in Matching(s, g, since) && u !in Elems(page) + Matching(s, g, Some(d));
    } else {
      OldestIsPrefix(s, rest, Elems(page), limit);
      NothingLost(s, g, since, limit, page, rest, d);
    }
  }

  lemma NothingLost(s: Store, g: string, since: Option<Timestamp>, limit: nat, page: seq<string>, rest: seq<string>,
                    d: Timestamp)
    requires Sorted(s, g, since, rest) && limit > 0 && rest != [] && !CutsTie(s, rest, limit)
    requires Elems(page) == Elems(rest[..Min(limit, |rest|)]) && d == s[rest[Min(limit, |rest|) - 1]].updatedAt
    ensures Matching(s, g, since) == Elems(page) + Matching(s, g, Some(d))
  {
    var m := Min(limit, |rest|);
    assert rest[m - 1] in Elems(rest);
    forall id | id in Elems(rest)
      ensures id in Elems(page) || id in Matching(s, g, Some(d))
    {
      var i := IndexOf(rest, id);
      if i < m {
        assert rest[..m][i] == id;
      } else {
        assert s[rest[m]].updatedAt <= s[rest[i]].updatedAt && d <= s[rest[m]].updatedAt;
      }
    }
    forall id | id in Elems(page)
      ensures id in Elems(rest)
    {
      var i := IndexOf(rest[..m], id);
      assert rest[i] == id;
    }
  }

  // ---- Several rounds ----------------------------------------------------

  /**
    * After `q` rounds of a sweep that cut no tie: the oldest items have been visited, and the cursor is at the newest
    * of them.
    */
  ghost predicate Swept(s: Store, all: seq<string>, limit: nat, visited: set<string>, last: Option<Timestamp>, q: nat) {
    && InOrder(s, all) && Oldest(s, all, visited, Span(q, limit))
    && (q > 0 && all != [] && limit > 0 ==> last == Some(s[all[Min(|all|, Span(q, limit)) - 1]].updatedAt))
  }

  lemma SpanPositive(q: nat, limit: nat)
    requires limit > 0 && q > 0
    ensures Span(q, limit) > 0
  {
  }

  /** The items newer than the cursor are those behind it. */
  lemma NewerIsRest(s: Store, g: string, all: seq<string>, k: nat)
    requires Sorted(s, g, None, all) && 0 < k <= |all| && !CutsTie(s, all, k)
    ensures Sorted(s, g, Some(s[all[k - 1]].updatedAt), all[k..])
  {
    var rest, d := all[k..], s[all[k - 1]].updatedAt;
    forall id | id in Matching(s, g, Some(d))
      ensures id in Elems(rest)
    {
      assert id in Elems(all);
      var i := IndexOf(all, id);
      assert i >= k;
      assert rest[i - k] == id;
    }
    forall id | id in Elems(rest)
      ensures id in Matching(s, g, Some(d))
    {
      var i := IndexOf(rest, id);
      assert all[k + i] == id && id in Elems(all);
      assert s[all[k - 1]].updatedAt <= s[all[k]].updatedAt <= s[all[k + i]].updatedAt;
    }
  }

  /** What a round starts from: the items behind the first `Span(q)`. */
  lemma RoundStartsBehind(s: Store, g: string, all: seq<string>, limit: nat, visited: set<string>,
                          last: Option<Timestamp>, q: nat)
    requires Sorted(s, g, None, all) && all != [] && limit > 0
    requires Swept(s, all, limit, visited, last, q) && !CutsTie(s, all, Span(q, limit))
    ensures Behind(s, g, all, Min(|all|, Span(q, limit)), if q == 0 then None else last, last, visited)
  {
    var m := Min(|all|, Span(q, limit));
    OldestIsPrefix(s, all, visited, Span(q, limit));
    if q == 0 {
      assert all[m..] == all;
    } else {
      SpanPositive(q, limit);
      NewerIsRest(s, g, all, m);
    }
  }

  lemma HeadAndRest(head: seq<string>, rest: seq<string>)
    requires NoDup(head + rest)
    ensures NoDup(head) && Elems(head) !! Elems(rest)
  {
    var all := head + rest;
    assert forall i :: 0 <= i < |head| ==> all[i] == head[i];
    forall id | id in Elems(head)
      ensures id !in Elems(rest)
    {
      var i := IndexOf(head, id);
      assert forall j :: 0 <= j < |rest| ==> all[|head| + j] == rest[j];
    }
  }

  lemma HeadComesFirst(s: Store, head: seq<string>, rest: seq<string>, c: string, u: string)
    requires InOrder(s, head + rest) && c in Elems(head) && u in Elems(rest)
    ensures c in s && u in s && s[c].updatedAt <= s[u].updatedAt
  {
    var i := IndexOf(head, c);
    var j := IndexOf(rest, u);
    assert (head + rest)[i] == c && (head + rest)[|head| + j] == u;
  }

  lemma JoinSizes(head: seq<string>, rest: seq<string>, page: set<string>)
    requires NoDup(head + rest) && page <= Elems(rest)
    ensures |Elems(head) + page| == |head| + |page|
  {
    HeadAndRest(head, rest);
    NoDupCardinality(head);
    assert Elems(head) !! page;
  }

  lemma JoinOldest(s: Store, head: seq<string>, rest: seq<string>, page: set<string>, limit: nat)
    requires NoDup(head + rest) && InOrder(s, head + rest) && Oldest(s, rest, page, limit) && Elems(head) <= s.Keys
    ensures Oldest(s, head + rest, Elems(head) + page, |head| + limit)
  {
    JoinSizes(head, rest, page);
    ElemsConcat(head, rest);
    forall c, u | c in Elems(head) + page && u in Elems(head) + Elems(rest) && u !in Elems(head) + page
      ensures s[c].updatedAt <= s[u].updatedAt
    {
      if c in Elems(head) {
        HeadComesFirst(s, head, rest, c, u);
      }
    }
  }

  lemma NoItemsNoPage(s: Store, g: string, all: seq<string>, limit: nat, since: Option<Timestamp>, page: seq<string>)
    requires Sorted(s, g, None, all) && all == [] && IsPage(s, g, since, limit, page)
    ensures Elems(page) == {}
  {
    assert Matching(s, g, since) <= Matching(s, g, None);
  }

  /** A round is about to read on behind the first `m` items. */
  ghost predicate Behind(s: Store, g: string, all: seq<string>, m: nat, since: Option<Timestamp>,
                         last: Option<Timestamp>, visited: set<string>) {
    && m <= |all| && Sorted(s, g, since, all[m..]) && visited == Elems(all[..m])
    && (m > 0 ==> all[m - 1] in s && last == Some(s[all[m - 1]].updatedAt))
  }

  lemma VisitsOn(s: Store, g: string, head: seq<string>, rest: seq<string>, limit: nat, since: Option<Timestamp>,
                 page: seq<string>, k: nat)
    requires NoDup(head + rest) && InOrder(s, head + rest) && Elems(head) <= s.Keys
    requires Sorted(s, g, since, rest) && IsPage(s, g, since, limit, page)
    requires Min(|head| + |rest|, k) == |head| + Min(limit, |rest|)
    ensures Oldest(s, head + rest, Elems(head) + Elems(page), k)
  {
    PageIsOldest(s, g, since, limit, page, rest);
    JoinOldest(s, head, rest, Elems(page), limit);
  }

  lemma ReadsOn(s: Store, g: string, all: seq<string>, limit: nat, m: nat, since: Option<Timestamp>,
                last: Option<Timestamp>, visited: set<string>, page: seq<string>, k: nat)
    requires Sorted(s, g, None, all) && Behind(s, g, all, m, since, last, visited) && IsPage(s, g, since, limit, page)
    requires Min(|all|, k) == m + Min(limit, |all| - m)
    ensures Oldest(s, all, visited + Elems(page), k)
  {
    var head, rest := all[..m], all[m..];
    assert head + rest == all;
    assert Elems(head) <= Elems(all);
    VisitsOn(s, g, head, rest, limit, since, page, k);
  }

  lemma SweptFurther(s: Store, g: string, all: seq<string>, limit: nat, visited: set<string>, last: Option<Timestamp>,
                     q: nat, since: Option<Timestamp>, page: seq<string>, last': Option<Timestamp>)
    requires Sorted(s, g, None, all) && all != [] && limit > 0
    requires Behind(s, g, all, Min(|all|, Span(q, limit)), since, last, visited)
             && Reads(s, g, limit, since, page, last, last')
    ensures Swept(s, all, limit, visited + Elems(page), last', q + 1)
  {
    var m := Min(|all|, Span(q, limit));
    NextEnd(|all|, q, limit);
    ReadsOn(s, g, all, limit, m, since, last, visited, page, Span(q + 1, limit));
    CursorMoves(s, g, all, limit, m, since, last, page, last');
  }

  /** A round that starts behind an uncut date extends the sweep by one page. */
  lemma SweptStep(s: Store, g: string, all: seq<string>, limit: nat, visited: set<string>, last: Option<Timestamp>,
                  q: nat, page: seq<string>, last': Option<Timestamp>)
    requires Sorted(s, g, None, all) && limit > 0 && Swept(s, all, limit, visited, last, q)
             && !CutsTie(s, all, Span(q, limit))
    requires Reads(s, g, limit, if q == 0 then None else last, page, last, last')
    ensures Swept(s, all, limit, visited + Elems(page), last', q + 1)
  {
    var since := if q == 0 then None else last;
    if all == [] {
      NoItemsNoPage(s, g, all, limit, since, page);
      assert visited + Elems(page) == {};
    } else {
      RoundStartsBehind(s, g, all, limit, visited, last, q);
      SweptFurther(s, g, all, limit, visited, last, q, since, page, last');
    }
  }

  /** A round that starts behind item `m` leaves the cursor at the last date of its page. */
  lemma CursorMoves(s: Store, g: string, all: seq<string>, limit: nat, m: nat, since: Option<Timestamp>,
                    last: Option<Timestamp>, page: seq<string>, last': Option<Timestamp>)
    requires InOrder(s, all) && all != [] && limit > 0 && m <= |all| && Reads(s, g, limit, since, page, last, last')
    requires Sorted(s, g, since, all[m..])
    requires m > 0 ==> last == Some(s[all[m - 1]].updatedAt)
    ensures last' == Some(s[all[m + Min(limit, |all| - m) - 1]].updatedAt)
  {
    var rest := all[m..];
    PageIsOldest(s, g, since, limit, page, rest);
    if page != [] {
      PageNewest(s, g, since, limit, page, rest, last'.value);
      assert rest[Min(limit, |rest|) - 1] == all[m + Min(limit, |rest|) - 1];
    }
  }

  lemma NextEnd(n: nat, q: nat, limit: nat)
    ensures var m := Min(n, Span(q, limit)); Min(n, Span(q + 1, limit)) == m + Min(limit, n - m) == Min(m + limit, n)
  {
  }

  /** No boundary between the first `k` pages cuts a tie. */
  predicate CleanCuts(s: Store, all: seq<string>, limit: nat, k: nat) {
    forall j :: 0 <= j < k ==> !CutsAt(s, all, limit, j)
  }

  /** The boundary behind page `j` cuts a tie. */
  predicate CutsAt(s: Store, all: seq<string>, limit: nat, j: nat) { CutsTie(s, all, Span(j, limit)) }

  lemma CleanSweep(s: Store, g: string, all: seq<string>, limit: nat, pages: seq<seq<string>>,
                   lasts: seq<Option<Timestamp>>, n: nat)
    requires Sorted(s, g, None, all) && limit > 0 && IsSweep(s, g, limit, pages, lasts) && n <= |pages|
             && CleanCuts(s, all, limit, n)
    ensures Swept(s, all, limit, Union(pages[..n]), lasts[n], n)
  {
    SweepStarts(s, g, all, limit, lasts[0]);
    for q := 0 to n
      invariant Swept(s, all, limit, Union(pages[..q]), lasts[q], q)
    {
      assert !CutsAt(s, all, limit, q);
      CleanStep(s, g, all, limit, pages, lasts, q);
    }
  }

  lemma CleanStep(s: Store, g: string, all: seq<string>, limit: nat, pages: seq<seq<string>>,
                  lasts: seq<Option<Timestamp>>, q: nat)
    requires Sorted(s, g, None, all) && limit > 0 && IsSweep(s, g, limit, pages, lasts) && q < |pages|
             && !CutsAt(s, all, limit, q)
    requires Swept(s, all, limit, Union(pages[..q]), lasts[q], q)
    ensures Swept(s, all, limit, Union(pages[..q + 1]), lasts[q + 1], q + 1)
  {
    assert Reads(s, g, limit, if q == 0 then None else lasts[q], pages[q], lasts[q], lasts[q + 1]);
    SweptStep(s, g, all, limit, Union(pages[..q]), lasts[q], q, pages[q], lasts[q + 1]);
    UnionStep(pages, q);
  }

  lemma SweepStarts(s: Store, g: string, all: seq<string>, limit: nat, last: Option<Timestamp>)
    requires Sorted(s, g, None, all)
    ensures Swept(s, all, limit, {}, last, 0)
  {
  }

  /** Once the cursor has reached a date, no older item and none of that date is visited. */
  ghost predicate Past(s: Store, d: Timestamp, last: Option<Timestamp>, visited: set<string>, before: set<string>) {
    last.Some? && last.value >= d && forall id :: id in visited && id !in before ==> id in s && s[id].updatedAt > d
  }

  lemma StaysPast(s: Store, g: string, limit: nat, d: Timestamp, last: Option<Timestamp>, visited: set<string>,
                  before: set<string>, page: seq<string>, last': Option<Timestamp>)
    requires Past(s, d, last, visited, before) && Reads(s, g, limit, last, page, last, last')
    ensures Past(s, d, last', visited + Elems(page), before)
  {
    forall id | id in Elems(page)
      ensures id in s && s[id].updatedAt > d
    {
      assert id in Matching(s, g, last);
    }
    if page != [] {
      assert page[0] in Elems(page);
    }
  }

  lemma SweepStaysPast(s: Store, g: string, limit: nat, d: Timestamp, pages: seq<seq<string>>,
                       lasts: seq<Option<Timestamp>>, j: nat)
    requires IsSweep(s, g, limit, pages, lasts) && 0 < j <= |pages| && lasts[j] == Some(d)
    ensures Past(s, d, lasts[|pages|], Union(pages), Union(pages[..j])) && Union(pages[..j]) <= Union(pages)
  {
    var before := Union(pages[..j]);
    for q := j to |pages|
      invariant Past(s, d, lasts[q], Union(pages[..q]), before) && before <= Union(pages[..q])
    {
      assert Reads(s, g, limit, if q == 0 then None else lasts[q], pages[q], lasts[q], lasts[q + 1]);
      StaysPast(s, g, limit, d, lasts[q], Union(pages[..q]), before, pages[q], lasts[q + 1]);
      UnionStep(pages, q);
    }
    assert pages[..|pages|] == pages;
  }

  /** A cut tie costs an item for the rest of the sweep. */
  lemma DirtyCut(s: Store, g: string, all: seq<string>, limit: nat, pages: seq<seq<string>>,
                 lasts: seq<Option<Timestamp>>, j: nat)
    requires Sorted(s, g, None, all) && limit > 0 && IsSweep(s, g, limit, pages, lasts)
    requires j < |pages| && CleanCuts(s, all, limit, j) && CutsAt(s, all, limit, j)
    ensures !Oldest(s, all, Union(pages), Span(|pages|, limit))
  {
    var before, c := Union(pages[..j]), Span(j, limit);
    CleanSweep(s, g, all, limit, pages, lasts, j);
    var u := CutLosesOne(s, all, before, c);
    SweepStaysPast(s, g, limit, s[all[c - 1]].updatedAt, pages, lasts, j);
    SpanGrows(j + 1, |pages|, limit);
    LostIsMissed(s, all, before, Union(pages), lasts[|pages|], u, c, Span(|pages|, limit));
  }

  lemma LostIsMissed(s: Store, all: seq<string>, before: set<string>, after: set<string>, last: Option<Timestamp>,
                     u: string, c: nat, k: nat)
    requires InOrder(s, all) && 0 < c < |all| && c < k && |before| == c && before <= after
    requires u in Elems(all) && u !in before && s[u].updatedAt == s[all[c - 1]].updatedAt
    requires Past(s, s[all[c - 1]].updatedAt, last, after, before)
    ensures !Oldest(s, all, after, k)
  {
    assert u !in after;
    if Oldest(s, all, after, k) {
      var w := OneMoreVisited(before, after);
      assert false;
    }
  }

  lemma OneMoreVisited(before: set<string>, after: set<string>) returns (w: string)
    requires before <= after && |before| < |after|
    ensures w in after && w !in before
  {
    if after <= before {
      SubsetCardinality(after, before);
    }
    w :| w in after && w !in before;
  }

  /** The first boundary that cuts a tie, if any does. */
  lemma FirstCut(s: Store, all: seq<string>, limit: nat, k: nat) returns (j: nat)
    requires !CleanCuts(s, all, limit, k)
    ensures j < k && CleanCuts(s, all, limit, j) && CutsAt(s, all, limit, j)
  {
    j := 0;
    while !CutsAt(s, all, limit, j)
      invariant j <= k && CleanCuts(s, all, limit, j)
      decreases k - j
    {
      j := j + 1;
    }
  }

  /**
    * Dates equal or not: the rounds of a sweep visit the oldest items, as many as fit their pages, if and only if no
    * boundary between these pages cuts a tie.
    */
  lemma SweepReachesIff(s: Store, g: string, all: seq<string>, limit: nat, pages: seq<seq<string>>,
                        lasts: seq<Option<Timestamp>>)
    requires Sorted(s, g, None, all) && limit > 0 && IsSweep(s, g, limit, pages, lasts)
    ensures Oldest(s, all, Union(pages), Span(|pages|, limit)) <==> CleanCuts(s, all, limit, |pages|)
  {
    if CleanCuts(s, all, limit, |pages|) {
      CleanSweep(s, g, all, limit, pages, lasts, |pages|);
      assert pages[..|pages|] == pages;
    } else {
      var j := FirstCut(s, all, limit, |pages|);
      DirtyCut(s, g, all, limit, pages, lasts, j);
    }
  }

  lemma UnionBounded(s: Store, g: string, limit: nat, pages: seq<seq<string>>, lasts: seq<Option<Timestamp>>)
    requires IsSweep(s, g, limit, pages, lasts)
    ensures |Union(pages)| <= Span(|pages|, limit)
  {
    for q := 0 to |pages|
      invariant |Union(pages[..q])| <= Span(q, limit)
    {
      assert Reads(s, g, limit, if q == 0 then None else lasts[q], pages[q], lasts[q], lasts[q + 1]);
      UnionStep(pages, q);
      UnionCardinality(Union(pages[..q]), Elems(pages[q]));
    }
    assert pages[..|pages|] == pages;
  }

  lemma UnionCardinality<T>(a: set<T>, b: set<T>)
    ensures |a + b| <= |a| + |b|
  {
    assert a + b == a + (b - a);
    SubsetCardinality(b - a, b);
  }

  /**
    * A sweep reaches every item of the group if and only if the group fits its pages and no page boundary inside it
    * cuts a tie.
    */
  lemma SweepReachesAllIff(s: Store, g: string, all: seq<string>, limit: nat, pages: seq<seq<string>>,
                           lasts: seq<Option<Timestamp>>)
    requires Sorted(s, g, None, all) && limit > 0 && IsSweep(s, g, limit, pages, lasts)
    ensures Union(pages) == Matching(s, g, None) <==> |all| <= |pages| * limit && CleanCuts(s, all, limit, |pages|)
  {
    SweepReachesIff(s, g, all, limit, pages, lasts);
    SpanIsProduct(|pages|, limit);
    NoDupCardinality(all);
    UnionBounded(s, g, limit, pages, lasts);
    if |all| <= Span(|pages|, limit) && Oldest(s, all, Union(pages), Span(|pages|, limit)) {
      DifferenceCardinality(Elems(all), Union(pages));
    }
  }
}
