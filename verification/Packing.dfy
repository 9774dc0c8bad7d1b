/** Packing weighted items into blocks of bounded weight, greedily and in order. */
module Packing {

  function Flatten<T>(blocks: seq<seq<T>>): seq<T> {
    if blocks == [] then [] else Flatten(blocks[..|blocks| - 1]) + blocks[|blocks| - 1]
  }

  function Weight<T>(items: seq<T>, weight: T -> nat): nat {
    if items == [] then 0 else Weight(items[..|items| - 1], weight) + weight(items[|items| - 1])
  }

  /** An item joins the last block exactly when that block stays within the limit. */
  function AddItem<T>(blocks: seq<seq<T>>, x: T, weight: T -> nat, limit: int): seq<seq<T>> {
    if blocks != [] && Weight(blocks[|blocks| - 1] + [x], weight) <= limit
    then blocks[..|blocks| - 1] + [blocks[|blocks| - 1] + [x]]
    else blocks + [[x]]
  }

  /** Online packing of the items, in order. */
  function Pack<T>(items: seq<T>, weight: T -> nat, limit: int): seq<seq<T>> {
    if items == [] then []
    else AddItem(Pack(items[..|items| - 1], weight, limit), items[|items| - 1], weight, limit)
  }

  /** A block within the limit, or a single item. */
  ghost predicate Block<T>(block: seq<T>, weight: T -> nat, limit: int) {
    |block| == 1 || (|block| > 1 && Weight(block, weight) <= limit)
  }

  /** The blocks tile the items, each is a block, and none could also take the item after it. */
  ghost predicate Greedy<T>(items: seq<T>, weight: T -> nat, limit: int, blocks: seq<seq<T>>) {
    && Flatten(blocks) == items
    && (forall i :: 0 <= i < |blocks| ==> Block(blocks[i], weight, limit))
    && (forall i :: 0 < i < |blocks| ==> Closed(blocks, i, weight, limit))
  }

  /** The block before block `i` could not also take its first item. */
  ghost predicate Closed<T>(blocks: seq<seq<T>>, i: nat, weight: T -> nat, limit: int)
    requires 0 < i < |blocks|
  {
    blocks[i] != [] && Weight(blocks[i - 1] + [blocks[i][0]], weight) > limit
  }

  /** Any cutting of the items into blocks within the limit. */
  ghost predicate Partition<T>(items: seq<T>, weight: T -> nat, limit: int, blocks: seq<seq<T>>) {
    Flatten(blocks) == items && forall i :: 0 <= i < |blocks| ==> Weight(blocks[i], weight) <= limit
  }

  lemma {:induction false} FlattenConcat<T>(a: seq<seq<T>>, b: seq<seq<T>>)
    ensures Flatten(a + b) == Flatten(a) + Flatten(b)
  {
    if b == [] {
      assert a + b == a;
    } else {
      var n := |b| - 1;
      assert (a + b)[..|a| + n] == a + b[..n];
      FlattenConcat(a, b[..n]);
    }
  }

  lemma FlattenOne<T>(block: seq<T>)
    ensures Flatten([block]) == block
  {
  }

  lemma FlattenTwo<T>(a: seq<T>, b: seq<T>)
    ensures Flatten([a, b]) == a + b
  {
    assert [a, b] == [a] + [b];
    FlattenConcat([a], [b]);
    FlattenOne(a);
    FlattenOne(b);
  }

  lemma {:induction false} WeightConcat<T>(a: seq<T>, b: seq<T>, weight: T -> nat)
    ensures Weight(a + b, weight) == Weight(a, weight) + Weight(b, weight)
  {
    if b == [] {
      assert a + b == a;
    } else {
      var n := |b| - 1;
      assert (a + b)[..|a| + n] == a + b[..n];
      WeightConcat(a, b[..n], weight);
    }
  }

  lemma WeightOne<T>(x: T, weight: T -> nat)
    ensures Weight([x], weight) == weight(x)
  {
  }

  lemma {:induction false} ItemWeighs<T>(items: seq<T>, i: nat, weight: T -> nat)
    requires i < |items|
    ensures weight(items[i]) <= Weight(items, weight)
  {
    if i < |items| - 1 { ItemWeighs(items[..|items| - 1], i, weight); }
  }

  lemma GreedyGrows<T>(items: seq<T>, weight: T -> nat, limit: int, blocks: seq<seq<T>>, x: T)
    requires Greedy(items, weight, limit, blocks) && blocks != []
    requires Weight(blocks[|blocks| - 1] + [x], weight) <= limit
    ensures Greedy(items + [x], weight, limit, blocks[..|blocks| - 1] + [blocks[|blocks| - 1] + [x]])
  {
    var after := blocks[..|blocks| - 1] + [blocks[|blocks| - 1] + [x]];
    forall i | 0 < i < |after| ensures Closed(after, i, weight, limit) {
      assert Closed(blocks, i, weight, limit);
    }
  }

  lemma GreedyOpens<T>(items: seq<T>, weight: T -> nat, limit: int, blocks: seq<seq<T>>, x: T)
    requires Greedy(items, weight, limit, blocks)
    requires blocks != [] ==> Weight(blocks[|blocks| - 1] + [x], weight) > limit
    ensures Greedy(items + [x], weight, limit, blocks + [[x]])
  {
    forall i | 0 < i < |blocks| ensures Closed(blocks + [[x]], i, weight, limit) {
      assert Closed(blocks, i, weight, limit);
    }
  }

  lemma AddItemIsGreedy<T>(items: seq<T>, weight: T -> nat, limit: int, blocks: seq<seq<T>>, x: T)
    requires Greedy(items, weight, limit, blocks)
    ensures Greedy(items + [x], weight, limit, AddItem(blocks, x, weight, limit))
  {
    if blocks != [] && Weight(blocks[|blocks| - 1] + [x], weight) <= limit {
      GreedyGrows(items, weight, limit, blocks, x);
    } else {
      GreedyOpens(items, weight, limit, blocks, x);
    }
  }

  lemma {:induction false} PackIsGreedy<T>(items: seq<T>, weight: T -> nat, limit: int)
    ensures Greedy(items, weight, limit, Pack(items, weight, limit))
  {
    if items != [] {
      var n := |items| - 1;
      PackIsGreedy(items[..n], weight, limit);
      AddItemIsGreedy(items[..n], weight, limit, Pack(items[..n], weight, limit), items[n]);
      assert items == items[..n] + [items[n]];
    }
  }

  lemma {:induction false} PackFits<T>(items: seq<T>, weight: T -> nat, limit: int)
    requires items != [] && Weight(items, weight) <= limit
    ensures Pack(items, weight, limit) == [items]
  {
    var n := |items| - 1;
    assert items == items[..n] + [items[n]];
    if n > 0 {
      PackFits(items[..n], weight, limit);
    } else {
      assert items[..n] == [];
    }
  }

  lemma {:induction false} PackSnoc<T>(items: seq<T>, k: nat, weight: T -> nat, limit: int)
    requires k < |items|
    ensures Pack(items[..k + 1], weight, limit) == AddItem(Pack(items[..k], weight, limit), items[k], weight, limit)
  {
    assert items[..k + 1][..k] == items[..k];
  }

  // ----- Positions of blocks

  /** Where block `j` starts, counted in items. */
  function Offset<T>(blocks: seq<seq<T>>, j: nat): nat
    requires j <= |blocks|
  {
    if j == 0 then 0 else Offset(blocks, j - 1) + |blocks[j - 1]|
  }

  lemma {:induction false} OffsetLeft<T>(a: seq<seq<T>>, b: seq<seq<T>>, j: nat)
    requires j <= |a|
    ensures Offset(a + b, j) == Offset(a, j)
  {
    if j > 0 { OffsetLeft(a, b, j - 1); }
  }

  lemma {:induction false} OffsetRight<T>(a: seq<seq<T>>, b: seq<seq<T>>, j: nat)
    requires |a| <= j <= |a| + |b|
    ensures Offset(a + b, j) == Offset(a, |a|) + Offset(b, j - |a|)
  {
    if j == |a| { OffsetLeft(a, b, j); } else { OffsetRight(a, b, j - 1); }
  }

  lemma {:induction false} OffsetEnd<T>(blocks: seq<seq<T>>)
    ensures Offset(blocks, |blocks|) == |Flatten(blocks)|
  {
    if blocks != [] {
      var n := |blocks| - 1;
      OffsetEnd(blocks[..n]);
      assert blocks == blocks[..n] + [blocks[n]];
      OffsetLeft(blocks[..n], [blocks[n]], n);
    }
  }

  lemma {:induction false} OffsetGrows<T>(blocks: seq<seq<T>>, i: nat, j: nat)
    requires i <= j <= |blocks|
    ensures Offset(blocks, i) <= Offset(blocks, j)
  {
    if i < j { OffsetGrows(blocks, i, j - 1); }
  }

  /** The items of block `i` stand between its offset and the next. */
  lemma {:induction false} BlockAt<T>(blocks: seq<seq<T>>, i: nat)
    requires i < |blocks|
    ensures Offset(blocks, i + 1) <= |Flatten(blocks)|
    ensures Flatten(blocks)[Offset(blocks, i)..Offset(blocks, i + 1)] == blocks[i]
    decreases blocks
  {
    var n := |blocks| - 1;
    var init := blocks[..n];
    assert blocks == init + [blocks[n]];
    OffsetLeft(init, [blocks[n]], i);
    if i < n {
      OffsetLeft(init, [blocks[n]], i + 1);
      BlockAt(init, i);
      assert init[i] == blocks[i];
    } else {
      OffsetEnd(init);
    }
  }

  lemma FlattenSnoc<T>(blocks: seq<seq<T>>, a: nat, b: nat)
    requires a < b <= |blocks|
    ensures Flatten(blocks[a..b]) == Flatten(blocks[a..b - 1]) + blocks[b - 1]
  {
    assert blocks[a..b][..b - 1 - a] == blocks[a..b - 1];
  }

  /** The blocks from `a` to `b` hold the items between their offsets. */
  lemma {:induction false} FlattenRange<T>(blocks: seq<seq<T>>, a: nat, b: nat)
    requires a <= b <= |blocks|
    ensures Offset(blocks, a) <= Offset(blocks, b) <= |Flatten(blocks)|
    ensures Flatten(blocks)[Offset(blocks, a)..Offset(blocks, b)] == Flatten(blocks[a..b])
    decreases b
  {
    OffsetEnd(blocks);
    OffsetGrows(blocks, b, |blocks|);
    if a < b {
      FlattenRange(blocks, a, b - 1);
      BlockAt(blocks, b - 1);
      FlattenSnoc(blocks, a, b);
      JoinRange(Flatten(blocks), Offset(blocks, a), Offset(blocks, b - 1), Offset(blocks, b));
    }
  }

  lemma JoinRange<T>(items: seq<T>, lo: nat, mid: nat, hi: nat)
    requires lo <= mid <= hi <= |items|
    ensures items[lo..hi] == items[lo..mid] + items[mid..hi]
  {
  }

  lemma SliceOfSlice<T>(items: seq<T>, x: nat, y: nat, a: nat, e: nat)
    requires x <= y <= |items| && a <= e <= y - x
    ensures items[x..y][a..e] == items[x + a..x + e]
  {
    var within := items[x..y];
    forall k | 0 <= k < e - a ensures within[a..e][k] == items[x + a..x + e][k] {
      assert within[a + k] == items[x + (a + k)];
    }
  }

  /** A stretch within another weighs no more. */
  lemma WeightRange<T>(items: seq<T>, c: nat, a: nat, b: nat, d: nat, weight: T -> nat)
    requires c <= a <= b <= d <= |items|
    ensures Weight(items[a..b], weight) <= Weight(items[c..d], weight)
  {
    WeightSplit(items, c, a, d, weight);
    WeightSplit(items, a, b, d, weight);
  }

  lemma WeightSplit<T>(items: seq<T>, lo: nat, mid: nat, hi: nat, weight: T -> nat)
    requires lo <= mid <= hi <= |items|
    ensures Weight(items[lo..hi], weight) == Weight(items[lo..mid], weight) + Weight(items[mid..hi], weight)
  {
    assert items[lo..hi] == items[lo..mid] + items[mid..hi];
    WeightConcat(items[lo..mid], items[mid..hi], weight);
  }

  // ----- Greedy packing against any other

  /** One item more than greedy block `i` is over the limit. */
  lemma GreedyBlockStops<T>(items: seq<T>, weight: T -> nat, limit: int, greedy: seq<seq<T>>, i: nat)
    requires Greedy(items, weight, limit, greedy) && i < |greedy| && Offset(greedy, i + 1) < |items|
    ensures Weight(items[Offset(greedy, i)..Offset(greedy, i + 1) + 1], weight) > limit
  {
    var s, t := Offset(greedy, i), Offset(greedy, i + 1);
    OffsetEnd(greedy);
    assert i + 1 < |greedy|;
    assert Closed(greedy, i + 1, weight, limit);
    BlockAt(greedy, i);
    BlockAt(greedy, i + 1);
    assert items[t] == greedy[i + 1][0];
    assert items[s..t + 1] == greedy[i] + [items[t]];
  }

  /** Greedy block `i` reaches as far as any stretch from its start that is within the limit. */
  lemma GreedyBlockReaches<T>(items: seq<T>, weight: T -> nat, limit: int, greedy: seq<seq<T>>, i: nat, e: nat)
    requires Greedy(items, weight, limit, greedy) && i < |greedy|
    requires Offset(greedy, i) <= e <= |items| && Weight(items[Offset(greedy, i)..e], weight) <= limit
    ensures Offset(greedy, i + 1) >= e
  {
    var s, t := Offset(greedy, i), Offset(greedy, i + 1);
    if t < e {
      GreedyBlockStops(items, weight, limit, greedy, i);
      WeightRange(items, s, s, t + 1, e, weight);
    }
  }

  /** A greedy packing that has reached the end is complete. */
  lemma GreedyComplete<T>(items: seq<T>, weight: T -> nat, limit: int, greedy: seq<seq<T>>, i: nat)
    requires Greedy(items, weight, limit, greedy) && i <= |greedy| && Offset(greedy, i) >= |items|
    ensures i == |greedy|
  {
    OffsetEnd(greedy);
    if i < |greedy| {
      assert Block(greedy[i], weight, limit);
      OffsetGrows(greedy, i + 1, |greedy|);
    }
  }

  /** Greedy packing stays ahead: its first `j` blocks reach at least as far as any other `j` within the limit. */
  lemma {:induction false} GreedyStaysAhead<T>(items: seq<T>, weight: T -> nat, limit: int,
                                               greedy: seq<seq<T>>, blocks: seq<seq<T>>, j: nat)
    requires Greedy(items, weight, limit, greedy) && Partition(items, weight, limit, blocks)
    requires j <= |greedy| && j <= |blocks|
    ensures Offset(greedy, j) >= Offset(blocks, j)
    decreases j
  {
    if j > 0 {
      GreedyStaysAhead(items, weight, limit, greedy, blocks, j - 1);
      var s, e := Offset(greedy, j - 1), Offset(blocks, j);
      if s < e {
        BlockAt(blocks, j - 1);
        WeightRange(items, Offset(blocks, j - 1), s, e, e, weight);
        GreedyBlockReaches(items, weight, limit, greedy, j - 1, e);
      }
    }
  }

  /** No cutting into blocks within the limit has fewer blocks than `Pack`. */
  lemma {:induction false} PackIsOptimal<T>(items: seq<T>, weight: T -> nat, limit: int, blocks: seq<seq<T>>)
    requires Partition(items, weight, limit, blocks)
    ensures |Pack(items, weight, limit)| <= |blocks|
  {
    var greedy := Pack(items, weight, limit);
    PackIsGreedy(items, weight, limit);
    if |greedy| > |blocks| {
      GreedyStaysAhead(items, weight, limit, greedy, blocks, |blocks|);
      OffsetEnd(blocks);
      GreedyComplete(items, weight, limit, greedy, |blocks|);
    }
  }

  /** Of two greedy packings with a block at the same place, neither ends first. */
  lemma SameReach<T>(items: seq<T>, weight: T -> nat, limit: int, a: seq<seq<T>>, b: seq<seq<T>>, i: nat)
    requires Greedy(items, weight, limit, a) && Greedy(items, weight, limit, b)
    requires i < |a| && i < |b| && Offset(a, i) == Offset(b, i)
    ensures Offset(a, i + 1) >= Offset(b, i + 1)
  {
    assert Block(a[i], weight, limit) && Block(b[i], weight, limit);
    if |b[i]| > 1 {
      BlockAt(b, i);
      GreedyBlockReaches(items, weight, limit, a, i, Offset(b, i + 1));
    }
  }

  lemma {:induction false} SameOffsets<T>(items: seq<T>, weight: T -> nat, limit: int,
                                          a: seq<seq<T>>, b: seq<seq<T>>, i: nat)
    requires Greedy(items, weight, limit, a) && Greedy(items, weight, limit, b) && i <= |a| && i <= |b|
    ensures Offset(a, i) == Offset(b, i)
    decreases i
  {
    if i > 0 {
      SameOffsets(items, weight, limit, a, b, i - 1);
      SameReach(items, weight, limit, a, b, i - 1);
      SameReach(items, weight, limit, b, a, i - 1);
    }
  }

  lemma SameLength<T>(items: seq<T>, weight: T -> nat, limit: int, a: seq<seq<T>>, b: seq<seq<T>>)
    requires Greedy(items, weight, limit, a) && Greedy(items, weight, limit, b) && |a| <= |b|
    ensures |a| == |b|
  {
    SameOffsets(items, weight, limit, a, b, |a|);
    OffsetEnd(a);
    GreedyComplete(items, weight, limit, b, |a|);
  }

  /** The greedy property pins the packing down completely. */
  lemma {:induction false} GreedyIsUnique<T>(items: seq<T>, weight: T -> nat, limit: int,
                                             a: seq<seq<T>>, b: seq<seq<T>>)
    requires Greedy(items, weight, limit, a) && Greedy(items, weight, limit, b)
    ensures a == b
  {
    if |a| <= |b| {
      SameLength(items, weight, limit, a, b);
    } else {
      SameLength(items, weight, limit, b, a);
    }
    forall i | 0 <= i < |a| ensures a[i] == b[i] {
      SameOffsets(items, weight, limit, a, b, i);
      SameOffsets(items, weight, limit, a, b, i + 1);
      BlockAt(a, i);
      BlockAt(b, i);
    }
  }

  // ----- A stretch of the items packed on its own

  /** Exactly `j` blocks end at or before position `x`. */
  ghost predicate EndedBy<T>(blocks: seq<seq<T>>, j: nat, x: nat) {
    j <= |blocks| && Offset(blocks, j) <= x && (j < |blocks| ==> x < Offset(blocks, j + 1))
  }

  lemma {:induction false} CountEnded<T>(blocks: seq<seq<T>>, n: nat, x: nat) returns (j: nat)
    requires n <= |blocks| && (n < |blocks| ==> x < Offset(blocks, n + 1))
    ensures EndedBy(blocks, j, x)
    decreases n
  {
    j := n;
    if x < Offset(blocks, n) { j := CountEnded(blocks, n - 1, x); }
  }

  /** A block that ends by `x` is counted. */
  lemma EndedCounts<T>(blocks: seq<seq<T>>, j: nat, x: nat, i: nat)
    requires EndedBy(blocks, j, x) && i <= |blocks| && Offset(blocks, i) <= x
    ensures i <= j
  {
    if j < i { OffsetGrows(blocks, j + 1, i); }
  }

  lemma StretchInBlock<T>(items: seq<T>, weight: T -> nat, limit: int, blocks: seq<seq<T>>, j: nat,
                          x: nat, y: nat, a: nat, e: nat)
    requires Partition(items, weight, limit, blocks) && j < |blocks| && x <= y <= |items| && a <= e <= y - x
    requires Offset(blocks, j) <= x + a && x + e <= Offset(blocks, j + 1)
    ensures Weight(items[x..y][a..e], weight) <= limit
  {
    BlockAt(blocks, j);
    SliceOfSlice(items, x, y, a, e);
    WeightRange(items, Offset(blocks, j), x + a, x + e, Offset(blocks, j + 1), weight);
  }

  /** The first `i` greedy blocks of a stretch reach as far as `i` blocks of any partition, or to its end. */
  lemma {:induction false} StretchAhead<T>(items: seq<T>, weight: T -> nat, limit: int, blocks: seq<seq<T>>, j: nat,
                                           x: nat, y: nat, packed: seq<seq<T>>, i: nat)
    requires Partition(items, weight, limit, blocks) && x <= y <= |items|
    requires Greedy(items[x..y], weight, limit, packed) && i <= |packed|
    requires j + i <= |blocks| && Offset(blocks, j) <= x
    ensures Offset(packed, i) >= y - x || x + Offset(packed, i) >= Offset(blocks, j + i)
    decreases i
  {
    if i > 0 {
      StretchAhead(items, weight, limit, blocks, j, x, y, packed, i - 1);
      var a, b := Offset(packed, i - 1), Offset(blocks, j + i);
      if a < y - x && x + a < b {
        var e := if b <= y then b - x else y - x;
        StretchInBlock(items, weight, limit, blocks, j + i - 1, x, y, a, e);
        GreedyBlockReaches(items[x..y], weight, limit, packed, i - 1, e);
      }
    }
  }

  /** A stretch packed on its own has at most one block more than end within it in any partition of the whole. */
  lemma StretchPacked<T>(items: seq<T>, weight: T -> nat, limit: int, blocks: seq<seq<T>>, j: nat, j': nat,
                         x: nat, y: nat, packed: seq<seq<T>>)
    requires Partition(items, weight, limit, blocks) && x <= y <= |items|
    requires Greedy(items[x..y], weight, limit, packed) && EndedBy(blocks, j, x) && EndedBy(blocks, j', y)
    ensures j <= j' && |packed| <= j' - j + 1
  {
    EndedCounts(blocks, j', y, j);
    var i := if j' < |blocks| then j' - j + 1 else j' - j;
    if i < |packed| {
      StretchAhead(items, weight, limit, blocks, j, x, y, packed, i);
      OffsetEnd(blocks);
      GreedyComplete(items[x..y], weight, limit, packed, i);
    }
  }

  // ----- Blocks with a cost

  /** A block is over the limit exactly when it is a single item over the limit, and otherwise has none. */
  lemma BlockOverLimit<T>(block: seq<T>, i: nat, weight: T -> nat, limit: int)
    requires Block(block, weight, limit) && i < |block|
    ensures weight(block[i]) > limit <==> Weight(block, weight) > limit
    ensures weight(block[i]) > limit ==> block == [block[i]]
  {
    ItemWeighs(block, i, weight);
    if |block| == 1 {
      WeightOne(block[0], weight);
      assert block == [block[0]];
    }
  }

  /** The cost of the first `n` blocks. */
  function Cost<T>(blocks: seq<seq<T>>, n: nat, cost: seq<T> -> nat): nat
    requires n <= |blocks|
  {
    if n == 0 then 0 else Cost(blocks, n - 1, cost) + cost(blocks[n - 1])
  }

  /** A block, at cost one if it is within the limit. */
  ghost predicate PricedBlock<T>(blocks: seq<seq<T>>, i: nat, weight: T -> nat, limit: int, cost: seq<T> -> nat)
    requires i < |blocks|
  {
    Block(blocks[i], weight, limit) && (Weight(blocks[i], weight) <= limit ==> cost(blocks[i]) == 1)
  }

  ghost predicate Priced<T>(blocks: seq<seq<T>>, weight: T -> nat, limit: int, cost: seq<T> -> nat) {
    forall i :: 0 <= i < |blocks| ==> PricedBlock(blocks, i, weight, limit, cost)
  }

  /** A greedy block that starts within another block reaches its end, and costs no more. */
  lemma GreedyBlockCovers<T>(items: seq<T>, weight: T -> nat, limit: int, cost: seq<T> -> nat,
                             greedy: seq<seq<T>>, i: nat, blocks: seq<seq<T>>, j: nat)
    requires Greedy(items, weight, limit, greedy) && i < |greedy| && PricedBlock(greedy, i, weight, limit, cost)
    requires Flatten(blocks) == items && j < |blocks| && PricedBlock(blocks, j, weight, limit, cost)
    requires Offset(blocks, j) <= Offset(greedy, i) < Offset(blocks, j + 1)
    ensures Offset(greedy, i + 1) >= Offset(blocks, j + 1)
    ensures cost(greedy[i]) <= cost(blocks[j])
  {
    var s, e := Offset(greedy, i), Offset(blocks, j + 1);
    BlockAt(blocks, j);
    BlockAt(greedy, i);
    var k := s - Offset(blocks, j);
    assert blocks[j][k] == items[s] == greedy[i][0];
    BlockOverLimit(blocks[j], k, weight, limit);
    BlockOverLimit(greedy[i], 0, weight, limit);
    if weight(items[s]) <= limit {
      WeightRange(items, Offset(blocks, j), s, e, e, weight);
      GreedyBlockReaches(items, weight, limit, greedy, i, e);
    }
  }

  /** The first `i` greedy blocks reach the end of the first `j` blocks, at no greater cost. */
  ghost predicate Ahead<T>(greedy: seq<seq<T>>, i: nat, blocks: seq<seq<T>>, j: nat, cost: seq<T> -> nat) {
    && i <= |greedy| && j <= |blocks| && Offset(greedy, i) >= Offset(blocks, j)
    && Cost(greedy, i, cost) <= Cost(blocks, j, cost)
  }

  /** A greedy block more passes the next block, unless it was passed already. */
  lemma AheadStep<T>(items: seq<T>, weight: T -> nat, limit: int, cost: seq<T> -> nat,
                     greedy: seq<seq<T>>, i: nat, blocks: seq<seq<T>>, j: nat)
    requires Greedy(items, weight, limit, greedy) && i < |greedy| && PricedBlock(greedy, i, weight, limit, cost)
    requires Flatten(blocks) == items && j < |blocks| && PricedBlock(blocks, j, weight, limit, cost)
    requires Ahead(greedy, i, blocks, j, cost) && Offset(greedy, i) < Offset(blocks, j + 1)
    ensures Ahead(greedy, i + 1, blocks, j + 1, cost)
  {
    GreedyBlockCovers(items, weight, limit, cost, greedy, i, blocks, j);
  }

  lemma NotAtEnd<T>(greedy: seq<seq<T>>, i: nat, blocks: seq<seq<T>>, j: nat)
    requires Flatten(greedy) == Flatten(blocks) && i <= |greedy| && j < |blocks|
    requires Offset(greedy, i) < Offset(blocks, j + 1)
    ensures i < |greedy|
  {
    BlockAt(blocks, j);
    OffsetEnd(greedy);
  }

  lemma {:induction false} GreedyIsAhead<T>(items: seq<T>, weight: T -> nat, limit: int, cost: seq<T> -> nat,
                                            greedy: seq<seq<T>>, blocks: seq<seq<T>>, j: nat) returns (i: nat)
    requires Greedy(items, weight, limit, greedy) && Priced(greedy, weight, limit, cost)
    requires Flatten(blocks) == items && Priced(blocks, weight, limit, cost) && j <= |blocks|
    ensures Ahead(greedy, i, blocks, j, cost)
    decreases j
  {
    i := 0;
    if j > 0 {
      i := GreedyIsAhead(items, weight, limit, cost, greedy, blocks, j - 1);
      if Offset(greedy, i) < Offset(blocks, j) {
        NotAtEnd(greedy, i, blocks, j - 1);
        assert PricedBlock(greedy, i, weight, limit, cost) && PricedBlock(blocks, j - 1, weight, limit, cost);
        AheadStep(items, weight, limit, cost, greedy, i, blocks, j - 1);
        i := i + 1;
      }
    }
  }

  /** Among all tilings by blocks, whatever single items over the limit cost, none is cheaper than a greedy one. */
  lemma {:induction false} GreedyIsCheapest<T>(items: seq<T>, weight: T -> nat, limit: int, cost: seq<T> -> nat,
                                               greedy: seq<seq<T>>, blocks: seq<seq<T>>)
    requires Greedy(items, weight, limit, greedy) && Priced(greedy, weight, limit, cost)
    requires Flatten(blocks) == items && Priced(blocks, weight, limit, cost)
    ensures Cost(greedy, |greedy|, cost) <= Cost(blocks, |blocks|, cost)
  {
    var i := GreedyIsAhead(items, weight, limit, cost, greedy, blocks, |blocks|);
    OffsetEnd(blocks);
    GreedyComplete(items, weight, limit, greedy, i);
  }
}
