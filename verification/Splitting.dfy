/** Splitting a text into pieces of bounded UTF-8 length
    (Source/Utility/String+Splitting.swift).

    A text is a sequence of composed characters, each given by the bytes of its UTF-8
    encoding. The word enumeration of the platform is an input: a tiling of the text into
    non-empty chunks (the enclosing ranges), or no chunk at all.
 */
module Splitting {
  import opened Options
  import opened Packing

  /** A composed character sequence: its UTF-8 bytes, at least one. */
  datatype Composed = Composed(lead: bv8, rest: seq<bv8>)

  type Text = seq<Composed>

  /** `Trap` is the runtime failure of forming a range that ends before it starts. */
  datatype Split = Pieces(pieces: seq<Text>) | Trap

  // ----- Composed characters of a word

  function CharWidth(c: Composed): nat {
    1 + |c.rest|
  }

  function Utf8Length(text: Text): nat {
    Weight(text, CharWidth)
  }

  /** The UTF-8 encoding of a character, and of a text. */
  function Encoding(c: Composed): seq<bv8> {
    [c.lead] + c.rest
  }

  function Bytes(text: Text): seq<bv8> {
    if text == [] then [] else Bytes(text[..|text| - 1]) + Encoding(text[|text| - 1])
  }

  /** The length of a text is the number of bytes of its encoding. */
  lemma {:induction false} Utf8LengthIsBytes(text: Text)
    ensures Utf8Length(text) == |Bytes(text)|
  {
    if text != [] { Utf8LengthIsBytes(text[..|text| - 1]); }
  }

  lemma Utf8One(c: Composed)
    ensures Utf8Length([c]) == CharWidth(c)
  {
    WeightOne(c, CharWidth);
  }

  predicate StartsTooWide(text: Text, maxLength: int) {
    |text| > 0 && |Encoding(text[0])| > maxLength
  }

  /** One composed character more, with `splitted` done and the piece `open` under way. */
  lemma {:induction false} OpenPieceStep(text: Text, i: nat, splitted: seq<Text>, open: Text, maxLength: int)
    requires 0 < i < |text| && splitted + [open] == Pack(text[..i], CharWidth, maxLength)
    ensures Utf8Length(open + [text[i]]) <= maxLength ==>
              splitted + [open + [text[i]]] == Pack(text[..i + 1], CharWidth, maxLength)
    ensures Utf8Length(open + [text[i]]) > maxLength ==>
              splitted + [open] + [[text[i]]] == Pack(text[..i + 1], CharWidth, maxLength)
  {
    PackSnoc(text, i, CharWidth, maxLength);
    assert (splitted + [open])[..|splitted|] == splitted;
  }

  lemma FirstPieceStep(text: Text, maxLength: int)
    requires text != []
    ensures Utf8Length(text[0..1]) == CharWidth(text[0])
    ensures [text[0..1]] == Pack(text[..1], CharWidth, maxLength)
  {
    Utf8One(text[0]);
    assert text[0..1] == text[..1] == [text[0]] && text[..1][..0] == [];
  }

  /** After `i` characters the finished pieces and the one from `start` are their packing. */
  ghost predicate PackedSoFar(text: Text, start: nat, i: nat, splitted: seq<Text>, maxLength: int)
    requires start <= i <= |text|
  {
    if i == 0 then splitted == [] else splitted + [text[start..i]] == Pack(text[..i], CharWidth, maxLength)
  }

  lemma WordStep(text: Text, start: nat, i: nat, splitted: seq<Text>, maxLength: int)
    requires start <= i < |text| && (i > 0 ==> start < i) && PackedSoFar(text, start, i, splitted, maxLength)
    ensures i == 0 ==> Utf8Length(text[start..i + 1]) == CharWidth(text[0])
    ensures i == 0 || Utf8Length(text[start..i + 1]) <= maxLength ==>
              PackedSoFar(text, start, i + 1, splitted, maxLength)
    ensures i > 0 && Utf8Length(text[start..i + 1]) > maxLength ==>
              PackedSoFar(text, i, i + 1, splitted + [text[start..i]], maxLength)
  {
    if i == 0 {
      FirstPieceStep(text, maxLength);
      assert splitted + [text[start..i + 1]] == [text[start..i + 1]];
    } else {
      assert text[start..i + 1] == text[start..i] + [text[i]];
      assert text[i..i + 1] == [text[i]];
      OpenPieceStep(text, i, splitted, text[start..i], maxLength);
    }
  }

  lemma WordEnd(text: Text, start: nat, splitted: seq<Text>, maxLength: int)
    requires start <= |text| && text != [] && PackedSoFar(text, start, |text|, splitted, maxLength)
    ensures splitted + [text[start..]] == Pack(text, CharWidth, maxLength)
  {
    assert text[..|text|] == text && text[start..|text|] == text[start..];
  }

  /** What the enumeration has done after `i` characters; the last of them closes the last piece. */
  ghost predicate WordState(text: Text, i: nat, start: nat, splitted: seq<Text>, maxLength: int) {
    && start <= i <= |text| && (i > 0 ==> start < i && !StartsTooWide(text, maxLength))
    && if i < |text| then PackedSoFar(text, start, i, splitted, maxLength)
       else splitted == Pack(text, CharWidth, maxLength)
  }

  /** The block the enumeration runs for each composed character of `splitWord`. */
  method EnumerateCharacter(text: Text, i: nat, currentStart: nat, splitted: seq<Text>, maxLength: int)
    returns (trap: bool, currentStart': nat, splitted': seq<Text>)
    requires i < |text| && WordState(text, i, currentStart, splitted, maxLength)
    ensures trap <==> i == 0 && StartsTooWide(text, maxLength)
    ensures !trap ==> WordState(text, i + 1, currentStart', splitted', maxLength)
  {
    trap, currentStart', splitted' := false, currentStart, splitted;
    WordStep(text, currentStart, i, splitted, maxLength);
    if Utf8Length(text[currentStart..i + 1]) > maxLength {
      if currentStart == i {
        trap := true;
        return;
      }
      splitted' := splitted + [text[currentStart..i]];
      currentStart' := i;
    }
    if i + 1 == |text| {
      WordEnd(text, currentStart', splitted', maxLength);
      splitted' := splitted' + [text[currentStart'..]];
    }
  }

  /** `splitWord`: only a first character wider than the limit makes the range form backwards. */
  method SplitWord(text: Text, maxLength: int) returns (r: Split)
    ensures r == if StartsTooWide(text, maxLength) then Trap else Pieces(Pack(text, CharWidth, maxLength))
  {
    var splitted: seq<Text> := [];
    var currentStart, i := 0, 0;
    while i < |text|
      invariant WordState(text, i, currentStart, splitted, maxLength)
    {
      var trap;
      trap, currentStart, splitted := EnumerateCharacter(text, i, currentStart, splitted, maxLength);
      if trap {
        return Trap;
      }
      i := i + 1;
    }
    r := Pieces(splitted);
  }

  ghost predicate AllWithin(pieces: seq<Text>, maxLength: int) {
    forall i :: 0 <= i < |pieces| ==> |Bytes(pieces[i])| <= maxLength
  }

  ghost predicate CharsWithin(text: Text, maxLength: int) {
    forall i :: 0 <= i < |text| ==> |Encoding(text[i])| <= maxLength
  }

  lemma {:induction false} CharsOfPieces(pieces: seq<Text>, maxLength: int)
    requires AllWithin(pieces, maxLength)
    ensures CharsWithin(Flatten(pieces), maxLength)
  {
    if pieces != [] {
      var n := |pieces| - 1;
      CharsOfPieces(pieces[..n], maxLength);
      forall i | 0 <= i < |pieces[n]| ensures |Encoding(pieces[n][i])| <= maxLength {
        ItemWeighs(pieces[n], i, CharWidth);
        Utf8LengthIsBytes(pieces[n]);
      }
    }
  }

  /** The pieces of a word keep to the limit exactly when every composed character does. */
  lemma SplitWordBounded(text: Text, maxLength: int)
    ensures AllWithin(Pack(text, CharWidth, maxLength), maxLength) <==> CharsWithin(text, maxLength)
  {
    var pieces := Pack(text, CharWidth, maxLength);
    PackIsGreedy(text, CharWidth, maxLength);
    if AllWithin(pieces, maxLength) {
      CharsOfPieces(pieces, maxLength);
    }
    if CharsWithin(text, maxLength) {
      forall i | 0 <= i < |pieces| ensures |Bytes(pieces[i])| <= maxLength {
        Utf8LengthIsBytes(pieces[i]);
        assert Block(pieces[i], CharWidth, maxLength);
        if |pieces[i]| == 1 {
          SingleCharOfText(text, pieces, i);
          Utf8One(pieces[i][0]);
          assert pieces[i] == [pieces[i][0]];
        }
      }
    }
  }

  lemma {:induction false} SingleCharOfText(text: Text, pieces: seq<Text>, i: nat)
    requires Flatten(pieces) == text && i < |pieces| && |pieces[i]| == 1
    ensures pieces[i][0] in text
    decreases pieces
  {
    var n := |pieces| - 1;
    if i < n { SingleCharOfText(Flatten(pieces[..n]), pieces[..n], i); }
  }

  // ----- Words of a text

  /** What the platform's word enumeration hands over for a text. */
  ghost predicate Tiling(text: Text, words: seq<Text>) {
    words != [] ==> Flatten(words) == text && forall i :: 0 <= i < |words| ==> words[i] != []
  }

  /** A group of words is one piece, unless it is a single word over the limit. */
  function GroupPieces(group: seq<Text>, maxLength: int): seq<Text> {
    if Weight(group, Utf8Length) <= maxLength then [Flatten(group)]
    else Pack(Flatten(group), CharWidth, maxLength)
  }

  function AllPieces(groups: seq<seq<Text>>, maxLength: int): seq<Text> {
    if groups == [] then []
    else AllPieces(groups[..|groups| - 1], maxLength) + GroupPieces(groups[|groups| - 1], maxLength)
  }

  /** Words packed greedily into groups, words over the limit packed greedily by character. */
  function SubstringPieces(text: Text, words: seq<Text>, maxLength: int): seq<Text> {
    if Utf8Length(text) <= maxLength then [text]
    else if words == [] then Pack(text, CharWidth, maxLength)
    else AllPieces(Pack(words, Utf8Length, maxLength), maxLength)
  }

  /** Some word, or a text without words, that is over the limit opens with a too wide character. */
  predicate SubstringsTrap(text: Text, words: seq<Text>, maxLength: int) {
    && Utf8Length(text) > maxLength
    && if words == [] then StartsTooWide(text, maxLength)
       else SomeStartsTooWide(words, maxLength)
  }

  lemma {:induction false} Utf8OfWords(words: seq<Text>)
    ensures Utf8Length(Flatten(words)) == Weight(words, Utf8Length)
  {
    if words != [] {
      var n := |words| - 1;
      Utf8OfWords(words[..n]);
      WeightConcat(Flatten(words[..n]), words[n], CharWidth);
    }
  }

  /** How the open chunk and the finished messages stand for the groups packed so far. */
  ghost predicate Progress(groups: seq<seq<Text>>, messages: seq<Text>, chunk: Option<Text>, maxLength: int) {
    match chunk
    case Some(text) =>
      && groups != []
      && var last := groups[|groups| - 1];
      && messages == AllPieces(groups[..|groups| - 1], maxLength)
      && text == Flatten(last) && text != [] && Weight(last, Utf8Length) <= maxLength
    case None =>
      && messages == AllPieces(groups, maxLength)
      && (groups != [] ==> Weight(groups[|groups| - 1], Utf8Length) >= maxLength)
  }

  /** The open group takes the word exactly when the joined chunk stays within the limit. */
  lemma OpenGroupTakes(groups: seq<seq<Text>>, messages: seq<Text>, chunk: Option<Text>, word: Text, maxLength: int)
    requires Progress(groups, messages, chunk, maxLength) && word != []
    ensures (groups != [] && Weight(groups[|groups| - 1] + [word], Utf8Length) <= maxLength)
            <==> (chunk.Some? && Utf8Length(chunk.value + word) <= maxLength)
  {
    Utf8Positive(word);
    if groups != [] {
      var last := groups[|groups| - 1];
      WeightConcat(last, [word], Utf8Length);
      WeightOne(word, Utf8Length);
      if chunk.Some? {
        Utf8OfWords(last);
        WeightConcat(chunk.value, word, CharWidth);
      }
    }
  }

  lemma Utf8Positive(text: Text)
    requires text != []
    ensures Utf8Length(text) > 0
  {
  }

  /** Without an open group, a word that fits starts one. */
  lemma ProgressOpens(groups: seq<seq<Text>>, messages: seq<Text>, word: Text, maxLength: int)
    requires messages == AllPieces(groups, maxLength) && word != [] && Utf8Length(word) <= maxLength
    ensures Progress(groups + [[word]], messages, Some(word), maxLength)
  {
  }

  /** A word that fits beside the open chunk joins its group. */
  lemma ProgressJoins(groups: seq<seq<Text>>, messages: seq<Text>, chunk: Text, word: Text, maxLength: int)
    requires Progress(groups, messages, Some(chunk), maxLength) && word != []
    requires Utf8Length(chunk + word) <= maxLength
    ensures Progress(AddItem(groups, word, Utf8Length, maxLength), messages, Some(chunk + word), maxLength)
  {
    OpenGroupTakes(groups, messages, Some(chunk), word, maxLength);
    var m := |groups| - 1;
    var after := AddItem(groups, word, Utf8Length, maxLength);
    assert after[..m] == groups[..m] && after[m] == groups[m] + [word];
    assert (groups[m] + [word])[..|groups[m]|] == groups[m];
  }

  /** The open chunk is the last piece so far. */
  lemma ProgressFlushes(groups: seq<seq<Text>>, messages: seq<Text>, chunk: Option<Text>, maxLength: int)
    requires Progress(groups, messages, chunk, maxLength)
    ensures AllPieces(groups, maxLength) == if chunk.Some? then messages + [chunk.value] else messages
  {
  }

  /** A word at or over the limit is cut by character and leaves no chunk open. */
  lemma ProgressCuts(groups: seq<seq<Text>>, messages: seq<Text>, word: Text, maxLength: int)
    requires messages == AllPieces(groups, maxLength) && word != [] && Utf8Length(word) >= maxLength
    ensures Progress(groups + [[word]], messages + Pack(word, CharWidth, maxLength), None, maxLength)
  {
    FlattenOne(word);
    WeightOne(word, Utf8Length);
    assert (groups + [[word]])[..|groups|] == groups;
    if Utf8Length(word) <= maxLength { PackFits(word, CharWidth, maxLength); }
  }

  /** The block the enumeration runs for each word of `splitInSubstrings`. */
  method EnumerateWord(nextChunk: Text, endOfString: bool, maxLength: int,
                       messages: seq<Text>, previousChunk: Option<Text>,
                       ghost groups: seq<seq<Text>>)
    returns (trap: bool, messages': seq<Text>, previousChunk': Option<Text>)
    requires nextChunk != [] && Progress(groups, messages, previousChunk, maxLength)
    ensures trap <==> StartsTooWide(nextChunk, maxLength)
    ensures !trap && !endOfString ==>
              Progress(AddItem(groups, nextChunk, Utf8Length, maxLength), messages', previousChunk', maxLength)
    ensures !trap && endOfString ==>
              messages' == AllPieces(AddItem(groups, nextChunk, Utf8Length, maxLength), maxLength)
  {
    trap, messages', previousChunk' := false, messages, previousChunk;
    var currentChunk := (if previousChunk.Some? then previousChunk.value else []) + nextChunk;
    ghost var groups' := AddItem(groups, nextChunk, Utf8Length, maxLength);
    OpenGroupTakes(groups, messages, previousChunk, nextChunk, maxLength);
    if previousChunk.None? { assert currentChunk == nextChunk; }
    if Utf8Length(currentChunk) <= maxLength {
      ItemWeighs(currentChunk, |currentChunk| - |nextChunk|, CharWidth);
      if previousChunk.Some? {
        ProgressJoins(groups, messages, previousChunk.value, nextChunk, maxLength);
      } else {
        ProgressOpens(groups, messages, nextChunk, maxLength);
      }
      previousChunk' := Some(currentChunk);
      if endOfString {
        ProgressFlushes(groups', messages, previousChunk', maxLength);
        messages' := messages' + [currentChunk];
      }
    } else {
      ProgressFlushes(groups, messages, previousChunk, maxLength);
      if previousChunk.Some? && previousChunk.value != [] {
        messages' := messages' + [previousChunk.value];
      }
      previousChunk' := Some(nextChunk);
      if Utf8Length(nextChunk) >= maxLength {
        var cut := SplitWord(nextChunk, maxLength);
        if cut.Trap? {
          trap := true;
          return;
        }
        ProgressCuts(groups, messages', nextChunk, maxLength);
        messages' := messages' + cut.pieces;
        previousChunk' := None;
      } else {
        ItemWeighs(nextChunk, 0, CharWidth);
        ProgressOpens(groups, messages', nextChunk, maxLength);
        if endOfString {
          ProgressFlushes(groups', messages', previousChunk', maxLength);
          messages' := messages' + [nextChunk];
        }
      }
    }
  }

  lemma PiecesAreThere(groups: seq<seq<Text>>, maxLength: int)
    requires groups != [] && Flatten(groups[|groups| - 1]) != []
    ensures AllPieces(groups, maxLength) != []
  {
  }

  predicate SomeStartsTooWide(words: seq<Text>, maxLength: int) {
    exists i :: 0 <= i < |words| && StartsTooWide(words[i], maxLength)
  }

  lemma SomeStartsTooWideSnoc(words: seq<Text>, k: nat, maxLength: int)
    requires k < |words|
    ensures SomeStartsTooWide(words[..k + 1], maxLength)
            <==> SomeStartsTooWide(words[..k], maxLength) || StartsTooWide(words[k], maxLength)
  {
  }

  lemma SomeStartsTooWideMore(words: seq<Text>, k: nat, maxLength: int)
    requires k <= |words| && SomeStartsTooWide(words[..k], maxLength)
    ensures SomeStartsTooWide(words, maxLength)
  {
  }

  /** The whole enumeration: the messages collected, unless a word traps. */
  method EnumerateWords(words: seq<Text>, maxLength: int) returns (trap: bool, messages: seq<Text>)
    requires forall i :: 0 <= i < |words| ==> words[i] != []
    ensures trap <==> SomeStartsTooWide(words, maxLength)
    ensures !trap ==> messages == AllPieces(Pack(words, Utf8Length, maxLength), maxLength)
  {
    trap, messages := false, [];
    var previousChunk: Option<Text> := None;
    ghost var groups: seq<seq<Text>> := [];
    var k := 0;
    while k < |words|
      invariant 0 <= k <= |words| && !trap
      invariant !SomeStartsTooWide(words[..k], maxLength)
      invariant groups == Pack(words[..k], Utf8Length, maxLength)
      invariant k < |words| ==> Progress(groups, messages, previousChunk, maxLength)
      invariant k == |words| ==> messages == AllPieces(groups, maxLength)
    {
      trap, messages, previousChunk := EnumerateWord(words[k], k + 1 == |words|,
          maxLength, messages, previousChunk, groups);
      SomeStartsTooWideSnoc(words, k, maxLength);
      if trap {
        SomeStartsTooWideMore(words, k + 1, maxLength);
        return;
      }
      PackSnoc(words, k, Utf8Length, maxLength);
      groups := AddItem(groups, words[k], Utf8Length, maxLength);
      k := k + 1;
    }
    assert words[..k] == words;
  }

  /** Never traps unless a word over the limit opens with a character over the limit. */
  method SplitInSubstrings(text: Text, words: seq<Text>, maxLength: int) returns (r: Split)
    requires Tiling(text, words)
    ensures r == if SubstringsTrap(text, words, maxLength) then Trap
              else Pieces(SubstringPieces(text, words, maxLength))
  {
    if Utf8Length(text) <= maxLength {
      return Pieces([text]);
    }
    var trap, messages := EnumerateWords(words, maxLength);
    if trap {
      return Trap;
    }
    if words != [] {
      LastGroupHasText(words, maxLength);
      PiecesAreThere(Pack(words, Utf8Length, maxLength), maxLength);
    }
    if |messages| == 0 {
      r := SplitWord(text, maxLength);
    } else {
      r := Pieces(messages);
    }
  }

  lemma LastGroupHasText(words: seq<Text>, maxLength: int)
    requires words != [] && words[|words| - 1] != []
    ensures var groups := Pack(words, Utf8Length, maxLength);
            groups != [] && Flatten(groups[|groups| - 1]) != []
  {
  }

  // ----- What the pieces promise

  lemma {:induction false} AllPiecesLossless(groups: seq<seq<Text>>, maxLength: int)
    ensures Flatten(AllPieces(groups, maxLength)) == Flatten(Flatten(groups))
  {
    if groups != [] {
      var n := |groups| - 1;
      AllPiecesLossless(groups[..n], maxLength);
      FlattenConcat(AllPieces(groups[..n], maxLength), GroupPieces(groups[n], maxLength));
      FlattenConcat(Flatten(groups[..n]), groups[n]);
      FlattenOne(Flatten(groups[n]));
      PackIsGreedy(Flatten(groups[n]), CharWidth, maxLength);
    }
  }

  /** The pieces concatenate to the text, for every text, tiling and limit. */
  lemma {:induction false} SubstringsLossless(text: Text, words: seq<Text>, maxLength: int)
    requires Tiling(text, words)
    ensures Flatten(SubstringPieces(text, words, maxLength)) == text
  {
    FlattenOne(text);
    PackIsGreedy(text, CharWidth, maxLength);
    PackIsGreedy(words, Utf8Length, maxLength);
    AllPiecesLossless(Pack(words, Utf8Length, maxLength), maxLength);
  }

  lemma {:induction false} AllPiecesBounded(groups: seq<seq<Text>>, maxLength: int)
    requires CharsWithin(Flatten(Flatten(groups)), maxLength)
    ensures AllWithin(AllPieces(groups, maxLength), maxLength)
  {
    if groups != [] {
      var n := |groups| - 1;
      var before, last := Flatten(Flatten(groups[..n])), Flatten(groups[n]);
      FlattenConcat(Flatten(groups[..n]), groups[n]);
      CharsOfConcat(before, last, maxLength);
      AllPiecesBounded(groups[..n], maxLength);
      GroupBounded(groups[n], maxLength);
    }
  }

  lemma GroupBounded(group: seq<Text>, maxLength: int)
    requires CharsWithin(Flatten(group), maxLength)
    ensures AllWithin(GroupPieces(group, maxLength), maxLength)
  {
    Utf8OfWords(group);
    Utf8LengthIsBytes(Flatten(group));
    SplitWordBounded(Flatten(group), maxLength);
  }

  lemma CharsOfConcat(a: Text, b: Text, maxLength: int)
    requires CharsWithin(a + b, maxLength)
    ensures CharsWithin(a, maxLength) && CharsWithin(b, maxLength)
  {
    forall i | 0 <= i < |a| ensures |Encoding(a[i])| <= maxLength { assert a[i] == (a + b)[i]; }
    forall i | 0 <= i < |b| ensures |Encoding(b[i])| <= maxLength { assert b[i] == (a + b)[|a| + i]; }
  }

  /** The pieces of a text over the limit, in bytes, are all within it exactly when every character is, and that of
      any other text is the text itself. */
  lemma {:induction false} SubstringsBounded(text: Text, words: seq<Text>, maxLength: int)
    requires Tiling(text, words)
    ensures |Bytes(text)| > maxLength ==>
              (AllWithin(SubstringPieces(text, words, maxLength), maxLength) <==> CharsWithin(text, maxLength))
    ensures |Bytes(text)| <= maxLength ==> SubstringPieces(text, words, maxLength) == [text]
  {
    var pieces := SubstringPieces(text, words, maxLength);
    Utf8LengthIsBytes(text);
    SubstringsLossless(text, words, maxLength);
    if AllWithin(pieces, maxLength) { CharsOfPieces(pieces, maxLength); }
    if CharsWithin(text, maxLength) && Utf8Length(text) > maxLength {
      if words == [] {
        SplitWordBounded(text, maxLength);
      } else {
        PackIsGreedy(words, Utf8Length, maxLength);
        AllPiecesBounded(Pack(words, Utf8Length, maxLength), maxLength);
      }
    }
  }

  lemma {:induction false} FirstCharOfText(words: seq<Text>, i: nat)
    requires i < |words| && words[i] != []
    ensures words[i][0] in Flatten(words)
    decreases words
  {
    var n := |words| - 1;
    if i < n { FirstCharOfText(words[..n], i); }
  }

  /** A text whose characters are all within the limit is split without a trap. */
  lemma {:induction false} NoTrapWithinLimit(text: Text, words: seq<Text>, maxLength: int)
    requires Tiling(text, words) && CharsWithin(text, maxLength)
    ensures !SubstringsTrap(text, words, maxLength)
  {
    if words != [] && SomeStartsTooWide(words, maxLength) {
      var i :| 0 <= i < |words| && StartsTooWide(words[i], maxLength);
      FirstCharOfText(words, i);
    }
  }

  /** All the characters of word `i` lie in the same piece. */
  ghost predicate WordInOnePiece(words: seq<Text>, i: nat, pieces: seq<Text>)
    requires i < |words|
  {
    InOnePiece(pieces, Offset(words, i), Offset(words, i + 1))
  }

  ghost predicate InOnePiece(pieces: seq<Text>, lo: nat, hi: nat) {
    exists j :: 0 <= j < |pieces| && Encloses(pieces, j, lo, hi)
  }

  ghost predicate Encloses(pieces: seq<Text>, j: nat, lo: nat, hi: nat)
    requires j < |pieces|
  {
    Offset(pieces, j) <= lo && hi <= Offset(pieces, j + 1)
  }

  lemma EnclosedInMore(pieces: seq<Text>, more: seq<Text>, j: nat, lo: nat, hi: nat)
    requires j < |pieces| && Encloses(pieces, j, lo, hi)
    ensures Encloses(pieces + more, j, lo, hi)
  {
    OffsetLeft(pieces, more, j);
    OffsetLeft(pieces, more, j + 1);
  }

  lemma WordInEarlierPiece(init: seq<Text>, last: seq<Text>, i: nat, pieces: seq<Text>, more: seq<Text>)
    requires i < |init| && WordInOnePiece(init, i, pieces)
    ensures WordInOnePiece(init + last, i, pieces + more)
  {
    var j :| 0 <= j < |pieces| && Encloses(pieces, j, Offset(init, i), Offset(init, i + 1));
    EnclosedInMore(pieces, more, j, Offset(init, i), Offset(init, i + 1));
    OffsetLeft(init, last, i);
    OffsetLeft(init, last, i + 1);
  }

  lemma {:induction false} WordInLastPiece(init: seq<Text>, last: seq<Text>, i: nat, pieces: seq<Text>)
    requires |init| <= i < |init + last| && Offset(pieces, |pieces|) == Offset(init, |init|)
    ensures WordInOnePiece(init + last, i, pieces + [Flatten(last)])
  {
    LastPiece(pieces, Flatten(last));
    OffsetsInLast(init, last, i);
    assert Encloses(pieces + [Flatten(last)], |pieces|, Offset(init + last, i), Offset(init + last, i + 1));
  }

  lemma LastPiece(pieces: seq<Text>, piece: Text)
    ensures Offset(pieces + [piece], |pieces|) == Offset(pieces, |pieces|)
    ensures Offset(pieces + [piece], |pieces| + 1) == Offset(pieces, |pieces|) + |piece|
  {
    OffsetLeft(pieces, [piece], |pieces|);
  }

  lemma OffsetsInLast(init: seq<Text>, last: seq<Text>, i: nat)
    requires |init| <= i < |init + last|
    ensures Offset(init, |init|) <= Offset(init + last, i)
    ensures Offset(init + last, i + 1) <= Offset(init, |init|) + |Flatten(last)|
  {
    OffsetRight(init, last, i);
    OffsetRight(init, last, i + 1);
    OffsetGrows(last, i + 1 - |init|, |last|);
    OffsetEnd(last);
  }

  lemma {:induction false} FittingGroup(group: seq<Text>, k: nat, maxLength: int)
    requires Block(group, Utf8Length, maxLength) && k < |group| && Utf8Length(group[k]) <= maxLength
    ensures GroupPieces(group, maxLength) == [Flatten(group)]
  {
    if |group| == 1 {
      WeightOne(group[0], Utf8Length);
      assert group == [group[0]];
    }
  }

  ghost predicate WordGroups(groups: seq<seq<Text>>, maxLength: int) {
    forall g :: 0 <= g < |groups| ==> Block(groups[g], Utf8Length, maxLength)
  }

  lemma {:induction false} WordInGroupPieces(groups: seq<seq<Text>>, i: nat, maxLength: int)
    requires WordGroups(groups, maxLength)
    requires i < |Flatten(groups)| && Utf8Length(Flatten(groups)[i]) <= maxLength
    ensures WordInOnePiece(Flatten(groups), i, AllPieces(groups, maxLength))
    decreases groups
  {
    var n := |groups| - 1;
    var init, pieces := Flatten(groups[..n]), AllPieces(groups[..n], maxLength);
    if i < |init| {
      assert Flatten(groups)[i] == init[i];
      WordInGroupPieces(groups[..n], i, maxLength);
      WordInEarlierPiece(init, groups[n], i, pieces, GroupPieces(groups[n], maxLength));
    } else {
      assert Flatten(groups)[i] == groups[n][i - |init|];
      AllPiecesLossless(groups[..n], maxLength);
      OffsetEnd(pieces);
      OffsetEnd(init);
      FittingGroup(groups[n], i - |init|, maxLength);
      WordInLastPiece(init, groups[n], i, pieces);
    }
  }

  /** No word within the limit is ever cut. */
  lemma {:induction false} SubstringsKeepWords(text: Text, words: seq<Text>, maxLength: int, i: nat)
    requires Tiling(text, words) && i < |words| && |Bytes(words[i])| <= maxLength
    ensures WordInOnePiece(words, i, SubstringPieces(text, words, maxLength))
  {
    Utf8LengthIsBytes(words[i]);
    if Utf8Length(text) <= maxLength {
      OffsetGrows(words, i + 1, |words|);
      OffsetEnd(words);
      assert Offset([text], 1) == |text|;
      assert Encloses([text], 0, Offset(words, i), Offset(words, i + 1));
    } else {
      PackIsGreedy(words, Utf8Length, maxLength);
      WordInGroupPieces(Pack(words, Utf8Length, maxLength), i, maxLength);
    }
  }
}
