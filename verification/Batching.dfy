/** Splitting buffered items into push messages within the wire limit. */
module Batching {
  import opened Collections
  import opened Era
  import opened Replication
  import opened Texts

  /** Estimated size of an item on the wire. */
  function SizeOf(x: Item): nat { |x.blob| + ByteLength(x.id) + 256 }

  function TotalSize(xs: seq<Item>): nat {
    if xs == [] then 0 else TotalSize(xs[..|xs| - 1]) + SizeOf(xs[|xs| - 1])
  }

  function Flatten(batches: seq<seq<Item>>): seq<Item> {
    if batches == [] then [] else batches[0] + Flatten(batches[1..])
  }

  /** No batch is empty, and none could have taken the first item of the next one. */
  predicate Greedy(batches: seq<seq<Item>>) {
    && (forall i :: 0 <= i < |batches| ==> batches[i] != [])
    && (forall i :: 0 <= i < |batches| - 1 ==> TotalSize(batches[i]) + SizeOf(batches[i + 1][0]) > MAX_MESSAGE_BYTES)
  }

  /** Within the limit, unless it is one item that alone exceeds it. */
  predicate FitsOrSingle(batch: seq<Item>) {
    TotalSize(batch) <= MAX_MESSAGE_BYTES || |batch| == 1
  }

  predicate AllFit(batches: seq<seq<Item>>) {
    forall i :: 0 <= i < |batches| ==> TotalSize(batches[i]) <= MAX_MESSAGE_BYTES
  }

  lemma {:induction false} FlattenAppend(batches: seq<seq<Item>>, last: seq<Item>)
    ensures Flatten(batches + [last]) == Flatten(batches) + last
  {
    if batches == [] {
      assert [last][1..] == [];
      assert last + [] == last == [] + last;
    } else {
      FlattenAppend(batches[1..], last);
      assert (batches + [last])[1..] == batches[1..] + [last];
    }
  }

  predicate AllFitOrSingle(batches: seq<seq<Item>>) {
    forall i :: 0 <= i < |batches| ==> FitsOrSingle(batches[i])
  }

  /** `done` split into closed batches and the one still being filled, which is empty only at the start. */
  predicate Splitting(batches: seq<seq<Item>>, current: seq<Item>, done: seq<Item>) {
    && Flatten(batches) + current == done
    && (current == [] ==> batches == [])
    && (current != [] ==> Greedy(batches + [current]))
    && Greedy(batches) && FitsOrSingle(current) && AllFitOrSingle(batches)
  }

  lemma SplitFills(batches: seq<seq<Item>>, current: seq<Item>, done: seq<Item>, x: Item)
    requires Splitting(batches, current, done) && (current == [] || TotalSize(current) + SizeOf(x) <= MAX_MESSAGE_BYTES)
    ensures Splitting(batches, current + [x], done + [x]) && TotalSize(current + [x]) == TotalSize(current) + SizeOf(x)
  {
    assert (current + [x])[..|current|] == current;
    GreedyExtends(batches, current, x);
  }

  lemma SplitCloses(batches: seq<seq<Item>>, current: seq<Item>, done: seq<Item>, x: Item)
    requires Splitting(batches, current, done) && current != [] && TotalSize(current) + SizeOf(x) > MAX_MESSAGE_BYTES
    ensures Splitting(batches + [current], [x], done + [x]) && TotalSize([x]) == SizeOf(x)
  {
    FlattenAppend(batches, current);
    CloseIsGreedy(batches, current, x);
    assert [x][..0] == [];
    assert AllFitOrSingle(batches + [current]);
  }

  lemma CloseIsGreedy(batches: seq<seq<Item>>, current: seq<Item>, x: Item)
    requires Greedy(batches + [current]) && TotalSize(current) + SizeOf(x) > MAX_MESSAGE_BYTES
    ensures Greedy(batches + [current] + [[x]])
  {
    var more := batches + [current] + [[x]];
    forall i | 0 <= i < |more| - 1
      ensures TotalSize(more[i]) + SizeOf(more[i + 1][0]) > MAX_MESSAGE_BYTES
    {
      if i < |batches| {
        assert more[i] == (batches + [current])[i] && more[i + 1] == (batches + [current])[i + 1];
      }
    }
  }

  /** One pass: a batch is closed when the next item would push it over the limit. */
  method SplitIntoBatches(items: seq<Item>) returns (batches: seq<seq<Item>>)
    ensures Flatten(batches) == items
    ensures Greedy(batches) && AllFitOrSingle(batches)
  {
    batches := [];
    var current: seq<Item> := [];
    var size := 0;
    for i := 0 to |items|
      invariant Splitting(batches, current, items[..i]) && size == TotalSize(current)
    {
      var x := items[i];
      assert items[..i + 1] == items[..i] + [x];
      if current != [] && size + SizeOf(x) > MAX_MESSAGE_BYTES {
        SplitCloses(batches, current, items[..i], x);
        batches := batches + [current];
        current, size := [], 0;
        assert current + [x] == [x];
      } else {
        SplitFills(batches, current, items[..i], x);
      }
      size := size + SizeOf(x);
      current := current + [x];
    }
    assert items[..|items|] == items;
    if current != [] {
      FlattenAppend(batches, current);
      batches := batches + [current];
    }
  }

  lemma GreedyExtends(batches: seq<seq<Item>>, current: seq<Item>, x: Item)
    requires Greedy(batches) && (current != [] ==> Greedy(batches + [current]))
    requires current == [] && batches != [] ==> TotalSize(batches[|batches| - 1]) + SizeOf(x) > MAX_MESSAGE_BYTES
    ensures Greedy(batches + [current + [x]])
  {
    var r := batches + [current + [x]];
    forall i | 0 <= i < |r| - 1
      ensures TotalSize(r[i]) + SizeOf(r[i + 1][0]) > MAX_MESSAGE_BYTES
    {
      if i + 1 < |batches| {
        assert r[i + 1] == batches[i + 1];
      } else if current != [] {
        assert (batches + [current])[i + 1] == current;
        assert TotalSize((batches + [current])[i]) + SizeOf((batches + [current])[i + 1][0]) > MAX_MESSAGE_BYTES;
      }
    }
  }

  // ---- No split within the limit is shorter ------------------------------

  lemma {:induction false} PrefixIsNoLarger(xs: seq<Item>, k: nat)
    requires k <= |xs|
    ensures TotalSize(xs[..k]) <= TotalSize(xs)
  {
    if k < |xs| {
      PrefixIsNoLarger(xs[..|xs| - 1], k);
      assert xs[..|xs| - 1][..k] == xs[..k];
    } else {
      assert xs[..k] == xs;
    }
  }

  lemma {:induction false} SuffixIsNoLarger(xs: seq<Item>, k: nat)
    requires k <= |xs|
    ensures TotalSize(xs[k..]) <= TotalSize(xs)
  {
    if k < |xs| {
      var init := xs[..|xs| - 1];
      SuffixIsNoLarger(init, k);
      assert xs[k..][..|xs[k..]| - 1] == init[k..];
    }
  }

  /** Any stretch within the limit that starts where a greedy batch starts ends within that batch. */
  lemma StretchEndsInBatch(g: seq<Item>, rest: seq<seq<Item>>, stretch: seq<Item>)
    requires Greedy([g] + rest) && stretch <= g + Flatten(rest) && TotalSize(stretch) <= MAX_MESSAGE_BYTES
    ensures |stretch| <= |g|
  {
    if |stretch| > |g| {
      assert rest != [];
      assert ([g] + rest)[1] == rest[0];
      assert TotalSize(([g] + rest)[0]) + SizeOf(([g] + rest)[1][0]) > MAX_MESSAGE_BYTES;
      var next := rest[0][0];
      assert Flatten(rest)[0] == next;
      var long := g + [next];
      assert stretch[..|g| + 1] == long;
      assert long[..|g|] == g;
      PrefixIsNoLarger(stretch, |g| + 1);
    }
  }

  lemma GreedyTail(batches: seq<seq<Item>>)
    requires Greedy(batches) && batches != []
    ensures Greedy(batches[1..]) && batches == [batches[0]] + batches[1..]
  {
    forall i | 0 <= i < |batches[1..]| - 1
      ensures TotalSize(batches[1..][i]) + SizeOf(batches[1..][i + 1][0]) > MAX_MESSAGE_BYTES
    {
      assert batches[1..][i] == batches[i + 1];
      assert TotalSize(batches[i + 1]) + SizeOf(batches[i + 1 + 1][0]) > MAX_MESSAGE_BYTES;
    }
  }

  /** Greedy stays ahead: another split that still has `lead` items more to place needs at least as many batches. */
  lemma {:induction false} GreedyStaysAhead(greedy: seq<seq<Item>>, other: seq<seq<Item>>, lead: seq<Item>)
    requires Greedy(greedy) && AllFit(other) && Flatten(other) == lead + Flatten(greedy)
    ensures |greedy| <= |other|
    decreases |other|
  {
    if greedy == [] {
    } else {
      GreedyTail(greedy);
      var g, rest := greedy[0], greedy[1..];
      assert Flatten(greedy) == g + Flatten(rest);
      assert other != [];
      var o, others := other[0], other[1..];
      assert forall i :: 0 <= i < |others| ==> others[i] == other[i + 1];
      if |o| <= |lead| {
        CutTwice(o, Flatten(others), lead, Flatten(greedy));
        GreedyStaysAhead(greedy, others, lead[|o|..]);
      } else {
        CutTwice(lead, Flatten(greedy), o, Flatten(others));
        var stretch := o[|lead|..];
        SuffixIsNoLarger(o, |lead|);
        StretchEndsInBatch(g, rest, stretch);
        CutTwice(stretch, Flatten(others), g, Flatten(rest));
        GreedyStaysAhead(rest, others, g[|stretch|..]);
      }
    }
  }

  /** No order-preserving split within the message limit uses fewer messages. */
  lemma GreedyIsOptimal(items: seq<Item>, greedy: seq<seq<Item>>, other: seq<seq<Item>>)
    requires Greedy(greedy) && Flatten(greedy) == items
    requires AllFit(other) && Flatten(other) == items
    ensures |greedy| <= |other|
  {
    assert [] + Flatten(greedy) == Flatten(other);
    GreedyStaysAhead(greedy, other, []);
  }

  // ---- What a batch weighs -----------------------------------------------

  /** The bytes of the blobs. */
  function BlobBytes(xs: seq<Item>): nat {
    if xs == [] then 0 else BlobBytes(xs[..|xs| - 1]) + |xs[|xs| - 1].blob|
  }

  /** The bytes of the ids. */
  function IdBytes(xs: seq<Item>): nat {
    if xs == [] then 0 else IdBytes(xs[..|xs| - 1]) + ByteLength(xs[|xs| - 1].id)
  }

  lemma {:induction false} TotalSizeIs(xs: seq<Item>)
    ensures TotalSize(xs) == BlobBytes(xs) + IdBytes(xs) + 256 * |xs|
    decreases |xs|
  {
    if xs == [] {
    } else {
      TotalSizeIs(xs[..|xs| - 1]);
    }
  }

  /** A batch of several items leaves 256 bytes per item beside their blobs and ids, within half a mebibyte. */
  lemma BatchLeavesRoom(batch: seq<Item>)
    requires FitsOrSingle(batch) && |batch| != 1
    ensures BlobBytes(batch) + IdBytes(batch) + 256 * |batch| <= 512 * 1024 && |batch| <= 2048
  {
    TotalSizeIs(batch);
  }
}
