/** Sorting candidates by a key and taking the best few. */
module Ranking {
  import opened Collections

  /** Compared by `major`, then by `minor`; smaller comes first. */
  datatype Key = Key(major: int, minor: real)

  predicate Le(a: Key, b: Key) {
    a.major < b.major || (a.major == b.major && a.minor <= b.minor)
  }

  predicate Ranked<T>(key: map<T, Key>, s: seq<T>)
    requires Elems(s) <= key.Keys
  {
    forall i, j :: 0 <= i < j < |s| ==> Le(key[s[i]], key[s[j]])
  }

  /** `chosen` is `k` members of `pool`, or all of it, and no one left out ranks strictly before one taken. */
  ghost predicate Best<T(!new)>(key: map<T, Key>, pool: set<T>, chosen: set<T>, k: nat)
    requires pool <= key.Keys
  {
    && chosen <= pool
    && |chosen| == Min(k, |pool|)
    && forall c, u :: c in chosen && u in pool && u !in chosen ==> Le(key[c], key[u])
  }

  function Insert<T>(key: map<T, Key>, x: T, s: seq<T>): (r: seq<T>)
    requires x in key && Elems(s) <= key.Keys
    ensures |r| == |s| + 1
    ensures Elems(r) == Elems(s) + {x}
  {
    if s == [] then [x]
    else
      assert s[0] in Elems(s) && Elems(s[1..]) <= Elems(s);
      assert Elems(s) == {s[0]} + Elems(s[1..]);
      if Le(key[x], key[s[0]]) then [x] + s
      else
        var t := Insert(key, x, s[1..]);
        assert Elems([s[0]] + t) == {s[0]} + Elems(t);
        [s[0]] + t
  }

  /** The stable sort of the standard library, as insertion from the right. */
  function Sort<T>(key: map<T, Key>, s: seq<T>): (r: seq<T>)
    requires Elems(s) <= key.Keys
    ensures |r| == |s|
    ensures Elems(r) == Elems(s)
  {
    if s == [] then []
    else
      assert s[0] in Elems(s);
      assert Elems(s) == {s[0]} + Elems(s[1..]);
      Insert(key, s[0], Sort(key, s[1..]))
  }

  lemma {:induction false} InsertKeepsOrder<T>(key: map<T, Key>, x: T, s: seq<T>)
    requires x in key && Elems(s) <= key.Keys
    requires Ranked(key, s) && NoDup(s) && x !in s
    ensures Ranked(key, Insert(key, x, s)) && NoDup(Insert(key, x, s))
  {
    if s != [] && !Le(key[x], key[s[0]]) {
      var tail := s[1..];
      assert Elems(s) == {s[0]} + Elems(tail);
      InsertKeepsOrder(key, x, tail);
      var r := Insert(key, x, tail);
      forall i | 0 <= i < |r|
        ensures r[i] != s[0] && Le(key[s[0]], key[r[i]])
      {
        assert r[i] in Elems(r);
      }
    } else {
      forall i | 0 <= i < |s|
        ensures Le(key[x], key[s[i]])
      {
        assert s[0] in Elems(s) && s[i] in Elems(s);
      }
    }
  }

  lemma {:induction false} SortIsRanked<T>(key: map<T, Key>, s: seq<T>)
    requires Elems(s) <= key.Keys && NoDup(s)
    ensures Ranked(key, Sort(key, s)) && NoDup(Sort(key, s))
  {
    if s == [] {
    } else {
      var tail := s[1..];
      assert Elems(s) == {s[0]} + Elems(tail);
      SortIsRanked(key, tail);
      assert s[0] !in Elems(tail);
      assert s[0] !in Elems(Sort(key, tail));
      InsertKeepsOrder(key, s[0], Sort(key, tail));
    }
  }

  /** Sorting and taking the first `k` selects a best set of size `k`. */
  lemma TakeIsBest<T(!new)>(key: map<T, Key>, s: seq<T>, k: nat)
    requires Elems(s) <= key.Keys && NoDup(s)
    ensures var r := Sort(key, s)[..Min(k, |s|)];
            NoDup(r) && Elems(r) <= Elems(s) && Best(key, Elems(s), Elems(r), k)
  {
    SortIsRanked(key, s);
    var t := Sort(key, s);
    var r := t[..Min(k, |s|)];
    NoDupCardinality(r);
    NoDupCardinality(s);
    forall x | x in Elems(r)
      ensures x in Elems(s)
    {
      assert x in Elems(t);
    }
    forall c, u | c in Elems(r) && u in Elems(s) && u !in Elems(r)
      ensures Le(key[c], key[u])
    {
      assert u in Elems(t);
      var i :| 0 <= i < |r| && r[i] == c;
      var j :| 0 <= j < |t| && t[j] == u;
      assert forall q :: 0 <= q < |r| ==> r[q] == t[q] && r[q] in Elems(r);
      assert i < |r| <= j;
    }
  }

  /** Sorts the candidates and keeps the first `k`. */
  method SelectBest<T(!new)>(key: map<T, Key>, s: seq<T>, k: nat) returns (r: seq<T>)
    requires Elems(s) <= key.Keys && NoDup(s)
    ensures NoDup(r) && Elems(r) <= Elems(s)
    ensures Ranked(key, r)
    ensures Best(key, Elems(s), Elems(r), k)
  {
    TakeIsBest(key, s, k);
    SortIsRanked(key, s);
    r := Sort(key, s)[..Min(k, |s|)];
  }

  lemma BestOfNone<T(!new)>(key: map<T, Key>, pool: set<T>)
    requires pool <= key.Keys
    ensures Best(key, pool, Elems([]), 0)
  {
    assert Elems<T>([]) == {};
  }

  lemma AllAreBest<T(!new)>(key: map<T, Key>, s: seq<T>, r: seq<T>)
    requires Elems(s) <= key.Keys && NoDup(s) && Best(key, Elems(s), Elems(r), |s|)
    ensures Elems(r) == Elems(s)
  {
    NoDupCardinality(s);
    DifferenceCardinality(Elems(s), Elems(r));
  }
}
