/** How many pieces `splitInSubstrings` makes, compared with every other way of cutting the text
    (Source/Utility/String+Splitting.swift).
 */
module SplittingBounds {
  import opened Packing
  import opened Splitting

  /** The number of pieces of a group. */
  function PiecesOf(maxLength: int): seq<Text> -> nat {
    (group: seq<Text>) => |GroupPieces(group, maxLength)|
  }

  lemma {:induction false} PiecesToCounts(groups: seq<seq<Text>>, n: nat, maxLength: int)
    requires n <= |groups|
    ensures |AllPieces(groups[..n], maxLength)| == Cost(groups, n, PiecesOf(maxLength))
    decreases n
  {
    if n > 0 {
      assert groups[..n][..n - 1] == groups[..n - 1];
      PiecesToCounts(groups, n - 1, maxLength);
    }
  }

  lemma PiecesCounted(groups: seq<seq<Text>>, maxLength: int)
    ensures |AllPieces(groups, maxLength)| == Cost(groups, |groups|, PiecesOf(maxLength))
  {
    PiecesToCounts(groups, |groups|, maxLength);
    assert groups[..|groups|] == groups;
  }

  // ----- Against every grouping of the words

  lemma GroupsArePriced(groups: seq<seq<Text>>, maxLength: int)
    requires WordGroups(groups, maxLength)
    ensures Priced(groups, Utf8Length, maxLength, PiecesOf(maxLength))
  {
    forall i | 0 <= i < |groups| ensures PricedBlock(groups, i, Utf8Length, maxLength, PiecesOf(maxLength)) {
      assert Block(groups[i], Utf8Length, maxLength);
    }
  }

  lemma GreedyGroupsFewest(words: seq<Text>, maxLength: int, greedy: seq<seq<Text>>, groups: seq<seq<Text>>)
    requires Greedy(words, Utf8Length, maxLength, greedy)
    requires Flatten(groups) == words && WordGroups(groups, maxLength)
    ensures |AllPieces(greedy, maxLength)| <= |AllPieces(groups, maxLength)|
  {
    GroupsArePriced(greedy, maxLength);
    GroupsArePriced(groups, maxLength);
    GreedyIsCheapest(words, Utf8Length, maxLength, PiecesOf(maxLength), greedy, groups);
    PiecesCounted(greedy, maxLength);
    PiecesCounted(groups, maxLength);
  }

  lemma SomePiece(words: seq<Text>, maxLength: int)
    requires words != [] && words[|words| - 1] != []
    ensures |AllPieces(Pack(words, Utf8Length, maxLength), maxLength)| >= 1
  {
    LastGroupHasText(words, maxLength);
    PiecesAreThere(Pack(words, Utf8Length, maxLength), maxLength);
  }

  /** For every text and limit: of all groupings of its words into groups within the limit and single words,
      with words over the limit cut by character, none has fewer pieces. */
  lemma {:induction false} SubstringsOptimal(text: Text, words: seq<Text>, maxLength: int, groups: seq<seq<Text>>)
    requires Tiling(text, words) && words != []
    requires Flatten(groups) == words && WordGroups(groups, maxLength)
    ensures |SubstringPieces(text, words, maxLength)| <= |AllPieces(groups, maxLength)|
  {
    PackIsGreedy(words, Utf8Length, maxLength);
    GreedyGroupsFewest(words, maxLength, Pack(words, Utf8Length, maxLength), groups);
    SomePiece(words, maxLength);
  }

  predicate IsLong(word: Text, maxLength: int) {
    Utf8Length(word) > maxLength
  }

  // ----- Against every cutting of the text

  /** Pieces within the limit that make up the text and cut no word within the limit. */
  ghost predicate Cutting(text: Text, words: seq<Text>, maxLength: int, cuts: seq<Text>) {
    && Partition(text, CharWidth, maxLength, cuts)
    && forall i :: 0 <= i < |words| ==> NotCut(words, i, cuts, maxLength)
  }

  ghost predicate NotCut(words: seq<Text>, i: nat, cuts: seq<Text>, maxLength: int)
    requires i < |words|
  {
    IsLong(words[i], maxLength) || WordInOnePiece(words, i, cuts)
  }

  /** How many of the first `n` words are over the limit. */
  function LongWords(words: seq<Text>, n: nat, maxLength: int): nat
    requires n <= |words|
  {
    if n == 0 then 0 else LongWords(words, n - 1, maxLength) + if IsLong(words[n - 1], maxLength) then 1 else 0
  }

  lemma {:induction false} LongWordsGrow(words: seq<Text>, m: nat, n: nat, maxLength: int)
    requires m <= n <= |words|
    ensures LongWords(words, m, maxLength) <= LongWords(words, n, maxLength)
  {
    if m < n { LongWordsGrow(words, m, n - 1, maxLength); }
  }

  /** The words of a stretch of the text that lies in one piece weigh no more than the limit. */
  lemma WordsInPiece(text: Text, words: seq<Text>, cuts: seq<Text>, j: nat, a: nat, b: nat, maxLength: int)
    requires Flatten(words) == text && Partition(text, CharWidth, maxLength, cuts) && j < |cuts| && a <= b <= |words|
    requires Offset(cuts, j) <= Offset(words, a) && Offset(words, b) <= Offset(cuts, j + 1)
    ensures Weight(words[a..b], Utf8Length) <= maxLength
  {
    FlattenRange(words, a, b);
    Utf8OfWords(words[a..b]);
    BlockAt(cuts, j);
    WeightRange(text, Offset(cuts, j), Offset(words, a), Offset(words, b), Offset(cuts, j + 1), CharWidth);
  }

  /** A word in one piece lies in the piece that it starts in. */
  lemma EndsInSamePiece(words: seq<Text>, p: nat, cuts: seq<Text>, j: nat)
    requires p < |words| && words[p] != [] && WordInOnePiece(words, p, cuts)
    requires j < |cuts| && Offset(cuts, j) <= Offset(words, p) < Offset(cuts, j + 1)
    ensures Offset(words, p + 1) <= Offset(cuts, j + 1)
  {
    var lo, hi := Offset(words, p), Offset(words, p + 1);
    var m :| 0 <= m < |cuts| && Encloses(cuts, m, lo, hi);
    if m < j { OffsetGrows(cuts, m + 1, j); }
    if j < m { OffsetGrows(cuts, j + 1, m); }
  }

  /** A piece that goes on past the words `a..p` of a greedy group goes on into a long word. */
  lemma GroupEndsPiece(text: Text, words: seq<Text>, cuts: seq<Text>, j: nat, a: nat, p: nat, maxLength: int)
    requires Flatten(words) == text && Cutting(text, words, maxLength, cuts)
    requires a <= p < |words| && words[p] != [] && Weight(words[a..p + 1], Utf8Length) > maxLength
    requires j < |cuts| && Offset(cuts, j) <= Offset(words, a) && Offset(words, p) < Offset(cuts, j + 1)
    ensures IsLong(words[p], maxLength)
  {
    if !IsLong(words[p], maxLength) {
      OffsetGrows(words, a, p);
      assert NotCut(words, p, cuts, maxLength);
      EndsInSamePiece(words, p, cuts, j);
      WordsInPiece(text, words, cuts, j, a, p + 1, maxLength);
    }
  }

  ghost predicate NextIsLong(words: seq<Text>, n: nat, maxLength: int) {
    n < |words| && IsLong(words[n], maxLength)
  }

  /** What the pieces of the first `g` groups may exceed those of a cutting that have ended: two for each long
      word gone by, and one before the next. */
  ghost predicate InDebt(words: seq<Text>, cuts: seq<Text>, greedy: seq<seq<Text>>, g: nat, j: nat,
                         cost: seq<Text> -> nat, maxLength: int)
    requires g <= |greedy| && Offset(greedy, g) <= |words|
  {
    var n := Offset(greedy, g);
    && EndedBy(cuts, j, Offset(words, n))
    && Cost(greedy, g, cost)
       <= j + 2 * LongWords(words, n, maxLength) + if NextIsLong(words, n, maxLength) then 1 else 0
  }

  lemma GroupStarts<T>(words: seq<T>, greedy: seq<seq<T>>, weight: T -> nat, limit: int, g: nat)
    requires Greedy(words, weight, limit, greedy) && g < |greedy|
    ensures Offset(greedy, g) < Offset(greedy, g + 1) <= |words|
    ensures words[Offset(greedy, g)] == greedy[g][0]
    ensures words[Offset(greedy, g)..Offset(greedy, g + 1)] == greedy[g]
  {
    assert Block(greedy[g], weight, limit);
    BlockAt(greedy, g);
  }

  lemma WordsAdvance(text: Text, words: seq<Text>, a: nat, p: nat)
    requires Tiling(text, words) && a < p <= |words|
    ensures Offset(words, a) < Offset(words, p) <= |text|
    ensures p == |words| <==> Offset(words, p) == |text|
  {
    assert words[a] != [];
    OffsetGrows(words, a + 1, p);
    OffsetEnd(words);
    if p < |words| {
      assert words[p] != [];
      OffsetGrows(words, p + 1, |words|);
    }
  }

  /** While a greedy group goes by, a piece of any cutting ends, unless a long word comes next. */
  lemma PieceEndsUnlessLong(text: Text, words: seq<Text>, cuts: seq<Text>, j: nat, j': nat, a: nat, p: nat,
                            maxLength: int)
    requires Tiling(text, words) && Cutting(text, words, maxLength, cuts) && a < p <= |words|
    requires p < |words| ==> Weight(words[a..p + 1], Utf8Length) > maxLength
    requires EndedBy(cuts, j, Offset(words, a)) && EndedBy(cuts, j', Offset(words, p))
    ensures j < j' || (j == j' && NextIsLong(words, p, maxLength))
  {
    WordsAdvance(text, words, a, p);
    EndedCounts(cuts, j', Offset(words, p), j);
    if j == j' {
      OffsetEnd(cuts);
      if j < |cuts| { OffsetGrows(cuts, j + 1, |cuts|); }
      assert words[p] != [];
      GroupEndsPiece(text, words, cuts, j, a, p, maxLength);
    }
  }

  /** The word cut greedily by character has `n` pieces. */
  ghost predicate CutInto(word: Text, n: nat, maxLength: int) {
    exists packed: seq<Text> :: Greedy(word, CharWidth, maxLength, packed) && |packed| == n
  }

  /** What the cost of group `g` is, and where the group ends. */
  ghost predicate GroupIs(words: seq<Text>, greedy: seq<seq<Text>>, g: nat, cost: seq<Text> -> nat, maxLength: int)
    requires g < |greedy|
  {
    var a, p := Offset(greedy, g), Offset(greedy, g + 1);
    && a < p <= |words|
    && if IsLong(words[a], maxLength) then p == a + 1 && CutInto(words[a], cost(greedy[g]), maxLength)
       else cost(greedy[g]) == 1 && (p < |words| ==> Weight(words[a..p + 1], Utf8Length) > maxLength)
  }

  lemma GroupIsSo(words: seq<Text>, greedy: seq<seq<Text>>, g: nat, maxLength: int)
    requires Greedy(words, Utf8Length, maxLength, greedy) && g < |greedy|
    ensures GroupIs(words, greedy, g, PiecesOf(maxLength), maxLength)
  {
    GroupStarts(words, greedy, Utf8Length, maxLength, g);
    assert Block(greedy[g], Utf8Length, maxLength);
    BlockOverLimit(greedy[g], 0, Utf8Length, maxLength);
    if IsLong(greedy[g][0], maxLength) {
      FlattenOne(greedy[g][0]);
      PackIsGreedy(greedy[g][0], CharWidth, maxLength);
      assert CutInto(greedy[g][0], |Pack(greedy[g][0], CharWidth, maxLength)|, maxLength);
    } else if Offset(greedy, g + 1) < |words| {
      GreedyBlockStops(words, Utf8Length, maxLength, greedy, g);
    }
  }

  /** A group that is one piece keeps within the debt. */
  lemma FittingGroupDebt(text: Text, words: seq<Text>, cuts: seq<Text>, greedy: seq<seq<Text>>, g: nat,
                         j: nat, j': nat, cost: seq<Text> -> nat, maxLength: int)
    requires Tiling(text, words) && Cutting(text, words, maxLength, cuts)
    requires g < |greedy| && GroupIs(words, greedy, g, cost, maxLength)
    requires !IsLong(words[Offset(greedy, g)], maxLength)
    requires InDebt(words, cuts, greedy, g, j, cost, maxLength)
    requires EndedBy(cuts, j', Offset(words, Offset(greedy, g + 1)))
    ensures InDebt(words, cuts, greedy, g + 1, j', cost, maxLength)
  {
    var a, p := Offset(greedy, g), Offset(greedy, g + 1);
    LongWordsGrow(words, a, p, maxLength);
    PieceEndsUnlessLong(text, words, cuts, j, j', a, p, maxLength);
  }

  /** A long word pays the debt made before it and adds its own. */
  lemma LongGroupDebt(text: Text, words: seq<Text>, cuts: seq<Text>, greedy: seq<seq<Text>>, g: nat,
                      j: nat, j': nat, cost: seq<Text> -> nat, maxLength: int)
    requires Flatten(words) == text && Partition(text, CharWidth, maxLength, cuts)
    requires g < |greedy| && GroupIs(words, greedy, g, cost, maxLength)
    requires IsLong(words[Offset(greedy, g)], maxLength)
    requires InDebt(words, cuts, greedy, g, j, cost, maxLength)
    requires EndedBy(cuts, j', Offset(words, Offset(greedy, g + 1)))
    ensures InDebt(words, cuts, greedy, g + 1, j', cost, maxLength)
  {
    var a := Offset(greedy, g);
    var packed: seq<Text> :| Greedy(words[a], CharWidth, maxLength, packed) && |packed| == cost(greedy[g]);
    BlockAt(words, a);
    StretchPacked(text, CharWidth, maxLength, cuts, j, j', Offset(words, a), Offset(words, a + 1), packed);
  }

  ghost predicate GroupsAre(words: seq<Text>, greedy: seq<seq<Text>>, cost: seq<Text> -> nat, maxLength: int) {
    forall g :: 0 <= g < |greedy| ==> GroupIs(words, greedy, g, cost, maxLength)
  }

  lemma {:induction false} DebtOfGroups(text: Text, words: seq<Text>, cuts: seq<Text>, greedy: seq<seq<Text>>, g: nat,
                                        cost: seq<Text> -> nat, maxLength: int)
    returns (j: nat)
    requires Tiling(text, words) && Flatten(words) == text && Cutting(text, words, maxLength, cuts)
    requires GroupsAre(words, greedy, cost, maxLength) && g <= |greedy|
    ensures Offset(greedy, g) <= |words| && InDebt(words, cuts, greedy, g, j, cost, maxLength)
    decreases g
  {
    if g == 0 {
      j := CountEnded(cuts, |cuts|, 0);
    } else {
      var i := DebtOfGroups(text, words, cuts, greedy, g - 1, cost, maxLength);
      assert GroupIs(words, greedy, g - 1, cost, maxLength);
      j := CountEnded(cuts, |cuts|, Offset(words, Offset(greedy, g)));
      if IsLong(words[Offset(greedy, g - 1)], maxLength) {
        LongGroupDebt(text, words, cuts, greedy, g - 1, i, j, cost, maxLength);
      } else {
        FittingGroupDebt(text, words, cuts, greedy, g - 1, i, j, cost, maxLength);
      }
    }
  }

  /** Against every cutting of the text within the limit that keeps the fitting words whole: each long word costs
      at most two pieces more, so without long words none has fewer. */
  lemma {:induction false} SubstringsNearOptimal(text: Text, words: seq<Text>, maxLength: int, cuts: seq<Text>)
    requires Tiling(text, words) && Cutting(text, words, maxLength, cuts)
    ensures text != [] ==>
              |SubstringPieces(text, words, maxLength)| <= |cuts| + 2 * LongWords(words, |words|, maxLength)
    ensures text == [] ==> |SubstringPieces(text, words, maxLength)| <= 1
  {
    if Utf8Length(text) <= maxLength {
      assert text != [] ==> cuts != [];
    } else if words == [] {
      PackIsOptimal(text, CharWidth, maxLength, cuts);
    } else {
      var greedy := Pack(words, Utf8Length, maxLength);
      PackIsGreedy(words, Utf8Length, maxLength);
      forall g | 0 <= g < |greedy| ensures GroupIs(words, greedy, g, PiecesOf(maxLength), maxLength) {
        GroupIsSo(words, greedy, g, maxLength);
      }
      var j := DebtOfGroups(text, words, cuts, greedy, |greedy|, PiecesOf(maxLength), maxLength);
      OffsetEnd(greedy);
      PiecesCounted(greedy, maxLength);
    }
  }

  // ----- What long words cost

  /** A run of `n` equal characters. */
  function Copies(c: Composed, n: nat): Text {
    seq(n, _ => c)
  }

  lemma {:induction false} CopiesWidth(c: Composed, n: nat)
    requires CharWidth(c) == 1
    ensures Utf8Length(Copies(c, n)) == n
    decreases n
  {
    if n > 0 {
      assert Copies(c, n)[..n - 1] == Copies(c, n - 1);
      CopiesWidth(c, n - 1);
    }
  }

  /** A word of one character more than the limit is cut in two. */
  lemma OverByOne(c: Composed, limit: nat)
    requires CharWidth(c) == 1 && limit > 0
    ensures IsLong(Copies(c, limit + 1), limit)
    ensures |GroupPieces([Copies(c, limit + 1)], limit)| == 2
  {
    var word, two := Copies(c, limit + 1), [Copies(c, limit), [c]];
    CopiesWidth(c, limit);
    CopiesWidth(c, limit + 1);
    assert Copies(c, limit) + [c] == word;
    assert Flatten([Copies(c, limit)]) == Copies(c, limit);
    assert two[..1] == [Copies(c, limit)];
    assert Flatten(two) == word;
    assert Greedy(word, CharWidth, limit, two);
    PackIsGreedy(word, CharWidth, limit);
    GreedyIsUnique(word, CharWidth, limit, two, Pack(word, CharWidth, limit));
    FlattenOne(word);
    WeightOne(word, Utf8Length);
  }

  /** A word within the limit that stands alone is one piece. */
  lemma FitsAlone(c: Composed, n: nat, limit: nat)
    requires CharWidth(c) == 1 && n <= limit
    ensures |GroupPieces([Copies(c, n)], limit)| == 1
  {
    CopiesWidth(c, n);
    WeightOne(Copies(c, n), Utf8Length);
  }

  /** Each word in a group of its own. */
  function Singles(words: seq<Text>): seq<seq<Text>> {
    seq(|words|, i requires 0 <= i < |words| => [words[i]])
  }

  lemma {:induction false} FlattenSingles(words: seq<Text>)
    ensures Flatten(Singles(words)) == words
  {
    if words != [] {
      var n := |words| - 1;
      assert Singles(words)[..n] == Singles(words[..n]);
      FlattenSingles(words[..n]);
    }
  }

  ghost predicate Apart(words: seq<Text>, i: nat, maxLength: int)
    requires 0 < i < |words|
  {
    Utf8Length(words[i - 1]) + Utf8Length(words[i]) > maxLength
  }

  /** Words of which no two neighbours fit together are split one by one. */
  lemma SplitApart(text: Text, words: seq<Text>, maxLength: int)
    requires Utf8Length(text) > maxLength && words != []
    requires forall i :: 0 < i < |words| ==> Apart(words, i, maxLength)
    ensures |SubstringPieces(text, words, maxLength)| == Cost(Singles(words), |words|, PiecesOf(maxLength))
  {
    var groups := Singles(words);
    forall i | 0 < i < |groups| ensures Closed(groups, i, Utf8Length, maxLength) {
      assert Apart(words, i, maxLength);
      WeightConcat([words[i - 1]], [words[i]], Utf8Length);
      WeightOne(words[i - 1], Utf8Length);
      WeightOne(words[i], Utf8Length);
    }
    FlattenSingles(words);
    PackIsGreedy(words, Utf8Length, maxLength);
    GreedyIsUnique(words, Utf8Length, maxLength, groups, Pack(words, Utf8Length, maxLength));
    PiecesCounted(groups, maxLength);
  }

  ghost predicate LongOrInHalf(words: seq<Text>, i: nat, limit: nat)
    requires i < |words|
  {
    IsLong(words[i], limit) || Offset(words, i + 1) <= limit || Offset(words, i) >= limit
  }

  lemma WordInHalf(words: seq<Text>, i: nat, half: Text)
    requires i < |words| && LongOrInHalf(words, i, |half|) && |Flatten(words)| == 2 * |half|
    ensures NotCut(words, i, [half, half], |half|)
  {
    var cuts := [half, half];
    assert Offset(cuts, 1) == |half| && Offset(cuts, 2) == 2 * |half|;
    OffsetGrows(words, i + 1, |words|);
    OffsetEnd(words);
    if Offset(words, i + 1) <= |half| {
      assert Encloses(cuts, 0, Offset(words, i), Offset(words, i + 1));
    } else if Offset(words, i) >= |half| {
      assert Encloses(cuts, 1, Offset(words, i), Offset(words, i + 1));
    }
  }

  lemma TwoHalves(c: Composed, limit: nat)
    requires CharWidth(c) == 1
    ensures Partition(Copies(c, 2 * limit), CharWidth, limit, [Copies(c, limit), Copies(c, limit)])
  {
    var half := Copies(c, limit);
    CopiesWidth(c, limit);
    FlattenTwo(half, half);
    assert half + half == Copies(c, 2 * limit);
  }

  /** Two halves at the limit are a cutting for words that are long or lie in one half. */
  lemma Halves(c: Composed, limit: nat, words: seq<Text>)
    requires CharWidth(c) == 1 && Flatten(words) == Copies(c, 2 * limit)
    requires forall i :: 0 <= i < |words| ==> LongOrInHalf(words, i, limit)
    ensures Cutting(Copies(c, 2 * limit), words, limit, [Copies(c, limit), Copies(c, limit)])
  {
    var half := Copies(c, limit);
    TwoHalves(c, limit);
    forall i | 0 <= i < |words| ensures NotCut(words, i, [half, half], limit) {
      assert LongOrInHalf(words, i, limit);
      WordInHalf(words, i, half);
    }
  }

  lemma SinglesCost(words: seq<Text>, n: nat, maxLength: int)
    requires n < |words|
    ensures Cost(Singles(words), n + 1, PiecesOf(maxLength))
         == Cost(Singles(words), n, PiecesOf(maxLength)) + |GroupPieces([words[n]], maxLength)|
  {
  }

  /** A long word before a fitting one. */
  function LongFirst(c: Composed, limit: nat): seq<Text>
    requires limit >= 2
  {
    [Copies(c, limit + 1), Copies(c, limit - 1)]
  }

  lemma LongFirstCut(c: Composed, limit: nat)
    requires CharWidth(c) == 1 && limit >= 2
    ensures Flatten(LongFirst(c, limit)) == Copies(c, 2 * limit)
    ensures Cutting(Copies(c, 2 * limit), LongFirst(c, limit), limit, [Copies(c, limit), Copies(c, limit)])
  {
    var words := LongFirst(c, limit);
    FlattenTwo(words[0], words[1]);
    assert words[0] + words[1] == Copies(c, 2 * limit);
    CopiesWidth(c, limit + 1);
    assert Offset(words, 1) == limit + 1;
    assert LongOrInHalf(words, 0, limit) && LongOrInHalf(words, 1, limit);
    Halves(c, limit, words);
  }

  lemma LongFirstPieces(c: Composed, limit: nat)
    requires CharWidth(c) == 1 && limit >= 2
    ensures |SubstringPieces(Copies(c, 2 * limit), LongFirst(c, limit), limit)| == 3
  {
    var words := LongFirst(c, limit);
    CopiesWidth(c, 2 * limit);
    CopiesWidth(c, limit + 1);
    CopiesWidth(c, limit - 1);
    assert Apart(words, 1, limit);
    SplitApart(Copies(c, 2 * limit), words, limit);
    SinglesCost(words, 0, limit);
    SinglesCost(words, 1, limit);
    OverByOne(c, limit);
    FitsAlone(c, limit - 1, limit);
  }

  /** From limit two on, a long word before a fitting one: three pieces where two would do. */
  lemma LongWordCostsOne(c: Composed, limit: nat) returns (text: Text, words: seq<Text>, cuts: seq<Text>)
    requires CharWidth(c) == 1 && limit >= 2
    ensures Tiling(text, words) && Cutting(text, words, limit, cuts)
    ensures |SubstringPieces(text, words, limit)| == 3 && |cuts| == 2
  {
    text, words, cuts := Copies(c, 2 * limit), LongFirst(c, limit), [Copies(c, limit), Copies(c, limit)];
    LongFirstCut(c, limit);
    LongFirstPieces(c, limit);
  }

  /** A long word between two fitting ones. */
  function LongBetween(c: Composed, limit: nat): seq<Text>
    requires limit >= 3
  {
    [Copies(c, 1), Copies(c, limit + 1), Copies(c, limit - 2)]
  }

  lemma LongBetweenTiles(c: Composed, limit: nat)
    requires limit >= 3
    ensures Flatten(LongBetween(c, limit)) == Copies(c, 2 * limit)
  {
    var words := LongBetween(c, limit);
    FlattenTwo(words[0], words[1]);
    assert words[..2] == [words[0], words[1]];
    assert words[0] + words[1] + words[2] == Copies(c, 2 * limit);
  }

  lemma LongBetweenCut(c: Composed, limit: nat)
    requires CharWidth(c) == 1 && limit >= 3
    ensures Cutting(Copies(c, 2 * limit), LongBetween(c, limit), limit, [Copies(c, limit), Copies(c, limit)])
  {
    var words := LongBetween(c, limit);
    LongBetweenTiles(c, limit);
    CopiesWidth(c, limit + 1);
    assert Offset(words, 1) == 1 && Offset(words, 2) == limit + 2;
    assert LongOrInHalf(words, 0, limit) && LongOrInHalf(words, 1, limit) && LongOrInHalf(words, 2, limit);
    Halves(c, limit, words);
  }

  lemma LongBetweenLong(c: Composed, limit: nat)
    requires CharWidth(c) == 1 && limit >= 3
    ensures LongWords(LongBetween(c, limit), 3, limit) == 1
  {
    var words := LongBetween(c, limit);
    CopiesWidth(c, 1);
    CopiesWidth(c, limit + 1);
    CopiesWidth(c, limit - 2);
    assert !IsLong(words[0], limit) && IsLong(words[1], limit) && !IsLong(words[2], limit);
    assert LongWords(words, 1, limit) == 0;
    assert LongWords(words, 2, limit) == 1;
  }

  lemma LongBetweenPieces(c: Composed, limit: nat)
    requires CharWidth(c) == 1 && limit >= 3
    ensures |SubstringPieces(Copies(c, 2 * limit), LongBetween(c, limit), limit)| == 4
  {
    var words := LongBetween(c, limit);
    CopiesWidth(c, 2 * limit);
    assert Apart(words, 1, limit) && Apart(words, 2, limit) by {
      CopiesWidth(c, 1);
      CopiesWidth(c, limit + 1);
      CopiesWidth(c, limit - 2);
    }
    SplitApart(Copies(c, 2 * limit), words, limit);
    SinglesCost(words, 0, limit);
    SinglesCost(words, 1, limit);
    SinglesCost(words, 2, limit);
    FitsAlone(c, 1, limit);
    OverByOne(c, limit);
    FitsAlone(c, limit - 2, limit);
  }

  /** From limit three on, a long word between two fitting ones: four pieces where two would do. */
  lemma LongWordCostsTwo(c: Composed, limit: nat) returns (text: Text, words: seq<Text>, cuts: seq<Text>)
    requires CharWidth(c) == 1 && limit >= 3
    ensures Tiling(text, words) && Cutting(text, words, limit, cuts) && LongWords(words, |words|, limit) == 1
    ensures |SubstringPieces(text, words, limit)| == |cuts| + 2
  {
    text, words, cuts := Copies(c, 2 * limit), LongBetween(c, limit), [Copies(c, limit), Copies(c, limit)];
    LongBetweenTiles(c, limit);
    LongBetweenCut(c, limit);
    LongBetweenLong(c, limit);
    LongBetweenPieces(c, limit);
  }
}
