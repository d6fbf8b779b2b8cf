/** Facts about finite sequences and sets that the protocol models share. */
module Collections {

  datatype Option<+T> = None | Some(value: T)

  function Max(a: int, b: int): int { if a < b then b else a }

  function Min(a: int, b: int): int { if a < b then a else b }

  predicate NoDup<T(==)>(s: seq<T>) {
    forall i, j :: 0 <= i < j < |s| ==> s[i] != s[j]
  }

  function Elems<T>(s: seq<T>): set<T> {
    set x | x in s
  }

  /** A sequence without repetition is as long as its set of elements is large. */
  lemma {:induction false} NoDupCardinality<T>(s: seq<T>)
    requires NoDup(s)
    ensures |Elems(s)| == |s|
  {
    if s == [] {
    } else {
      var init, last := s[..|s| - 1], s[|s| - 1];
      NoDupCardinality(init);
      assert s == init + [last];
      assert Elems(s) == Elems(init) + {last};
    }
  }

  lemma ElemsConcat<T>(a: seq<T>, b: seq<T>)
    ensures Elems(a + b) == Elems(a) + Elems(b)
  {
  }

  lemma NoDupConcat<T>(a: seq<T>, b: seq<T>)
    requires NoDup(a) && NoDup(b) && Elems(a) !! Elems(b)
    ensures NoDup(a + b) && Elems(a + b) == Elems(a) + Elems(b)
  {
    assert forall i :: 0 <= i < |a| ==> a[i] in Elems(a);
    assert forall i :: 0 <= i < |b| ==> b[i] in Elems(b);
  }

  /** One more element of a list without repetition. */
  lemma OneMore<T>(s: seq<T>, i: nat)
    requires NoDup(s) && i < |s|
    ensures s[i] in Elems(s) && s[i] !in Elems(s[..i]) && Elems(s[..i + 1]) == Elems(s[..i]) + {s[i]}
  {
  }

  lemma SubsetCardinality<T>(a: set<T>, b: set<T>)
    requires a <= b
    ensures |a| <= |b|
  {
    assert b == a + (b - a);
  }

  lemma DifferenceCardinality<T>(a: set<T>, b: set<T>)
    requires b <= a
    ensures |a - b| == |a| - |b|
  {
    assert a == b + (a - b);
  }

  /** A strict subset is strictly smaller. */
  lemma StrictSubsetCardinality<T>(a: set<T>, b: set<T>, x: T)
    requires a <= b && x in b && x !in a
    ensures |a| < |b|
  {
    SubsetCardinality(a, b - {x});
  }

  /** Two ways to cut the same sequence in two. */
  lemma CutTwice<T>(a: seq<T>, b: seq<T>, c: seq<T>, d: seq<T>)
    requires a + b == c + d && |a| <= |c|
    ensures a == c[..|a|] && b == c[|a|..] + d
  {
    assert a == (a + b)[..|a|] == (c + d)[..|a|];
    assert b == (a + b)[|a|..] == (c + d)[|a|..];
  }

  function Count<T>(want: T -> bool, s: seq<T>): nat {
    if s == [] then 0 else Count(want, s[..|s| - 1]) + if want(s[|s| - 1]) then 1 else 0
  }

  lemma {:induction false} CountIsCardinality<T>(want: T -> bool, s: seq<T>)
    requires NoDup(s)
    ensures Count(want, s) == |set x | x in s && want(x)|
    decreases |s|
  {
    if s == [] {
    } else {
      var init, last := s[..|s| - 1], s[|s| - 1];
      CountIsCardinality(want, init);
      assert s == init + [last];
      var was := set x | x in init && want(x);
      assert (set x | x in s && want(x)) == if want(last) then was + {last} else was;
    }
  }

  lemma CountOf<T(!new)>(want: T -> bool, s: seq<T>, wanted: set<T>)
    requires NoDup(s) && forall x :: x in wanted <==> x in s && want(x)
    ensures Count(want, s) == |wanted|
  {
    CountIsCardinality(want, s);
    assert (set x | x in s && want(x)) == wanted;
  }

  /** Replaces every element by the sequence `f` makes of it. */
  function FlatMap<A, B>(f: A -> seq<B>, s: seq<A>): seq<B> {
    if s == [] then [] else FlatMap(f, s[..|s| - 1]) + f(s[|s| - 1])
  }

  lemma FlatMapAppend<A, B>(f: A -> seq<B>, s: seq<A>, x: A)
    ensures FlatMap(f, s + [x]) == FlatMap(f, s) + f(x)
  {
    assert (s + [x])[..|s|] == s;
  }

  lemma {:induction false} FlatMapConcat<A, B>(f: A -> seq<B>, a: seq<A>, b: seq<A>)
    ensures FlatMap(f, a + b) == FlatMap(f, a) + FlatMap(f, b)
    decreases |b|
  {
    if b == [] {
      assert a + b == a;
    } else {
      FlatMapConcat(f, a, b[..|b| - 1]);
      assert (a + b)[..|a + b| - 1] == a + b[..|b| - 1];
    }
  }

  lemma {:induction false} FlatMapCompose<A(!new), B, C>(f: A -> seq<B>, g: B -> seq<C>, h: A -> seq<C>, s: seq<A>)
    requires forall x :: FlatMap(g, f(x)) == h(x)
    ensures FlatMap(g, FlatMap(f, s)) == FlatMap(h, s)
    decreases |s|
  {
    if s == [] {
    } else {
      FlatMapCompose(f, g, h, s[..|s| - 1]);
      FlatMapConcat(g, FlatMap(f, s[..|s| - 1]), f(s[|s| - 1]));
    }
  }

  lemma {:induction false} FlatMapUnit<A>(f: A -> seq<A>, s: seq<A>)
    requires forall i :: 0 <= i < |s| ==> f(s[i]) == [s[i]]
    ensures FlatMap(f, s) == s
    decreases |s|
  {
    if s == [] {
    } else {
      FlatMapUnit(f, s[..|s| - 1]);
    }
  }

  /** Lists a set in some order, as iterating over a hash map does. */
  method Enumerate<T(==)>(s: set<T>) returns (order: seq<T>)
    ensures NoDup(order)
    ensures Elems(order) == s
  {
    order := [];
    var rest := s;
    while rest != {}
      invariant NoDup(order)
      invariant Elems(order) !! rest
      invariant Elems(order) + rest == s
      decreases rest
    {
      var x :| x in rest;
      assert Elems(order + [x]) == Elems(order) + {x};
      order := order + [x];
      rest := rest - {x};
    }
  }
}
