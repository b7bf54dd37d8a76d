/** Cleaning and normalising news text. */
module NewsText {
  import opened Utf8
  import opened Mojibake
  import HtmlEntities

  // ---------------------------------------------------------------- catalogue artifacts

  const DOLLAR: Byte := '$' as int
  const QUESTION: Byte := '?' as int
  const SPACE: nat := 0x20

  predicate IsDigit(b: int) {
    '0' as int <= b <= '9' as int
  }

  predicate IsLetter(b: int) {
    'A' as int <= b <= 'Z' as int || 'a' as int <= b <= 'z' as int
  }

  /** How many digits follow one another from a position on, counting at most `limit`. */
  function DigitsAt(text: Bytes, i: nat, limit: nat): nat
    decreases limit
  {
    if limit == 0 || i >= |text| || !IsDigit(text[i]) then 0 else 1 + DigitsAt(text, i + 1, limit - 1)
  }

  function QuestionsAt(text: Bytes, i: nat): nat
    decreases |text| - i
  {
    if i >= |text| || text[i] != QUESTION then 0 else 1 + QuestionsAt(text, i + 1)
  }

  /** The length of the catalogue (MARC) artifact a text starts with, zero if it starts with none: three
      digits, `$`, a letter, then question marks, then up to three digits, at least one of either. */
  function MarcLength(text: Bytes): nat {
    if DigitsAt(text, 0, 3) == 3 && 5 < |text| && text[3] == DOLLAR && IsLetter(text[4]) then
      var questions := QuestionsAt(text, 5);
      var digits := DigitsAt(text, 5 + questions, 3);
      if questions == 0 && digits == 0 then 0 else 5 + questions + digits
    else 0
  }

  lemma {:induction false} DigitsInSuffix(input: Bytes, offset: nat, i: nat, limit: nat)
    requires offset <= |input|
    ensures DigitsAt(input, offset + i, limit) == DigitsAt(input[offset..], i, limit)
    ensures DigitsAt(input, offset + i, limit) <= limit
    ensures i <= |input| - offset ==> offset + i + DigitsAt(input, offset + i, limit) <= |input|
    decreases limit
  {
    if limit != 0 && offset + i < |input| && IsDigit(input[offset + i]) {
      DigitsInSuffix(input, offset, i + 1, limit - 1);
    }
  }

  lemma {:induction false} QuestionsInSuffix(input: Bytes, offset: nat, i: nat)
    requires offset <= |input|
    ensures QuestionsAt(input, offset + i) == QuestionsAt(input[offset..], i)
    ensures i <= |input| - offset ==> offset + i + QuestionsAt(input, offset + i) <= |input|
    decreases |input| - offset - i
  {
    if offset + i < |input| && input[offset + i] == QUESTION {
      QuestionsInSuffix(input, offset, i + 1);
    }
  }

  /** The digit loops of the artifact test. */
  method SkipDigits(input: Bytes, start: nat) returns (i: nat, count: nat)
    ensures count == DigitsAt(input, start, 3) && i == start + count
  {
    i, count := start, 0;
    while i < |input| && IsDigit(input[i]) && count < 3
      invariant i == start + count && count <= 3
      invariant DigitsAt(input, start, 3) == count + DigitsAt(input, i, 3 - count)
      decreases 3 - count
    {
      i := i + 1;
      count := count + 1;
    }
  }

  /** LooksLikeMarcArtifact, zero standing for its refusal. */
  method LooksLikeMarcArtifact(input: Bytes, offset: nat) returns (length: nat)
    requires offset <= |input|
    ensures length == MarcLength(input[offset..]) && offset + length <= |input|
  {
    DigitsInSuffix(input, offset, 0, 3);
    var i, leadingDigits := SkipDigits(input, offset);
    if leadingDigits != 3 || i + 2 >= |input| || input[i] != DOLLAR || !IsLetter(input[i + 1]) {
      return 0;
    }
    i := i + 2;
    QuestionsInSuffix(input, offset, 5);
    var questions := 0;
    while i < |input| && input[i] == QUESTION
      invariant i == offset + 5 + questions <= |input|
      invariant QuestionsAt(input, offset + 5) == questions + QuestionsAt(input, i)
    {
      i := i + 1;
      questions := questions + 1;
    }
    DigitsInSuffix(input, offset, 5 + questions, 3);
    var end, trailingDigits := SkipDigits(input, i);
    if questions == 0 && trailingDigits == 0 {
      return 0;
    }
    return end - offset;
  }

  // ---------------------------------------------------------------- cleaning

  /** What cleaning makes of a piece of input: a character kept, a gap, or nothing at all. */
  datatype Piece = Kept(codepoint: nat) | Gap | Dropped

  function Classify(codepoint: nat): Piece {
    if codepoint == 0xFFFD then Gap
    else if codepoint == 0xFEFF || codepoint == 0x200B then Dropped
    else if codepoint <= SPACE || codepoint == 0x7F || codepoint == 0xA0 then Gap
    else Kept(codepoint)
  }

  function FirstPiece(text: Bytes): (r: (Piece, nat))
    requires text != []
  {
    var artifact := MarcLength(text);
    if artifact > 0 then (Gap, artifact)
    else
      var d := DecodeAt(text, 0);
      (Classify(d.codepoint), d.next)
  }

  lemma MarcFits(text: Bytes)
    ensures MarcLength(text) <= |text|
  {
    if MarcLength(text) > 0 {
      assert text[0..] == text;
      QuestionsInSuffix(text, 0, 5);
      DigitsInSuffix(text, 0, 5 + QuestionsAt(text, 5), 3);
    }
  }

  lemma PieceAdvances(text: Bytes)
    requires text != []
    ensures 0 < FirstPiece(text).1 <= |text|
    ensures FirstPiece(text).0.Kept? ==> Scalar(FirstPiece(text).0.codepoint)
  {
    MarcFits(text);
    DecodeMeetsGrammar(text, 0);
  }

  function Pieces(text: Bytes): seq<Piece>
    decreases |text|
  {
    if text == [] then []
    else
      var (piece, length) := FirstPiece(text);
      PieceAdvances(text);
      [piece] + Pieces(text[length..])
  }

  /** The characters written for a run of pieces: the kept ones, and one space before a kept one when a
      gap has passed since the last and something has been written already. */
  function Render(pieces: seq<Piece>, started: bool, pending: bool): seq<nat> {
    if pieces == [] then []
    else match pieces[0]
      case Kept(codepoint) => (if pending then [SPACE] else []) + [codepoint] + Render(pieces[1..], true, false)
      case Gap => Render(pieces[1..], started, started)
      case Dropped => Render(pieces[1..], started, pending)
  }

  function CleanedChars(text: Bytes): seq<nat> {
    Render(Pieces(text), false, false)
  }

  /** What CleanAndValidate yields. */
  function Cleaned(text: Bytes): Bytes {
    EncodeAll(CleanedChars(text))
  }

  predicate Visible(codepoint: nat) {
    Classify(codepoint).Kept? && Scalar(codepoint)
  }

  /** What may follow a kept character: kept characters and single spaces, the last not a space. */
  predicate Follows(codepoints: seq<nat>) {
    || codepoints == []
    || (Visible(codepoints[0]) && Follows(codepoints[1..]))
    || (codepoints[0] == SPACE && |codepoints| > 1 && Visible(codepoints[1]) && Follows(codepoints[2..]))
  }

  /** Kept characters with single spaces strictly between them. */
  predicate Tidy(codepoints: seq<nat>) {
    codepoints == [] || (Visible(codepoints[0]) && Follows(codepoints[1..]))
  }

  predicate AllVisible(pieces: seq<Piece>) {
    forall i :: 0 <= i < |pieces| && pieces[i].Kept? ==> Visible(pieces[i].codepoint)
  }

  lemma {:induction false} PiecesAreVisible(text: Bytes)
    ensures AllVisible(Pieces(text))
    decreases |text|
  {
    hide DecodeAt, MarcLength;
    if text != [] {
      PieceAdvances(text);
      PiecesAreVisible(text[FirstPiece(text).1..]);
    }
  }

  lemma {:induction false} RenderFollows(pieces: seq<Piece>, pending: bool)
    requires AllVisible(pieces)
    ensures var r := Render(pieces, true, pending);
            Follows(r) && (pending && r != [] ==> r[0] == SPACE)
  {
    hide Classify;
    if pieces != [] {
      var rest := pieces[1..];
      match pieces[0]
      case Kept(codepoint) =>
        RenderFollows(rest, false);
        var r := Render(pieces, true, pending);
        assert r[if pending then 2 else 1..] == Render(rest, true, false);
      case Gap => RenderFollows(rest, true);
      case Dropped => RenderFollows(rest, pending);
    }
  }

  lemma {:induction false} RenderIsTidy(pieces: seq<Piece>)
    requires AllVisible(pieces)
    ensures Tidy(Render(pieces, false, false))
  {
    hide Classify, Follows;
    if pieces != [] {
      match pieces[0]
      case Kept(codepoint) => RenderFollows(pieces[1..], false);
      case _ => RenderIsTidy(pieces[1..]);
    }
  }

  // ---------------------------------------------------------------- words

  /** The words of a text: its kept characters, cut at the gaps. `word` is the one being read. */
  function Words(pieces: seq<Piece>, word: seq<nat>): seq<seq<nat>> {
    if pieces == [] then Flushed(word)
    else match pieces[0]
      case Kept(codepoint) => Words(pieces[1..], word + [codepoint])
      case Gap => Flushed(word) + Words(pieces[1..], [])
      case Dropped => Words(pieces[1..], word)
  }

  function Flushed(word: seq<nat>): seq<seq<nat>> {
    if word == [] then [] else [word]
  }

  /** Words with one space between each two. */
  function Joined(words: seq<seq<nat>>): seq<nat> {
    if words == [] then [] else if |words| == 1 then words[0] else words[0] + [SPACE] + Joined(words[1..])
  }

  function AfterSpace(codepoints: seq<nat>): seq<nat> {
    if codepoints == [] then [] else [SPACE] + codepoints
  }

  lemma {:induction false} WordsAreNotEmpty(pieces: seq<Piece>, word: seq<nat>)
    ensures forall i :: 0 <= i < |Words(pieces, word)| ==> Words(pieces, word)[i] != []
  {
    if pieces != [] {
      match pieces[0]
      case Kept(codepoint) => WordsAreNotEmpty(pieces[1..], word + [codepoint]);
      case Gap => WordsAreNotEmpty(pieces[1..], []);
      case Dropped => WordsAreNotEmpty(pieces[1..], word);
    }
  }

  /** The text rendered for a run of pieces is its words with single spaces between them. */
  lemma {:induction false} RenderIsWords(pieces: seq<Piece>, word: seq<nat>)
    ensures word != [] ==> word + Render(pieces, true, false) == Joined(Words(pieces, word))
    ensures Render(pieces, true, true) == AfterSpace(Joined(Words(pieces, [])))
    ensures Render(pieces, false, false) == Joined(Words(pieces, []))
  {
    if pieces != [] {
      var rest := pieces[1..];
      match pieces[0]
      case Kept(codepoint) =>
        RenderIsWords(rest, word + [codepoint]);
        RenderIsWords(rest, [codepoint]);
        assert [] + [codepoint] == [codepoint];
        assert word + ([codepoint] + Render(rest, true, false)) == (word + [codepoint]) + Render(rest, true, false);
        assert [SPACE] + [codepoint] + Render(rest, true, false) == [SPACE] + ([codepoint] + Render(rest, true, false));
      case Gap =>
        RenderIsWords(rest, []);
        WordsAreNotEmpty(rest, []);
        JoinedGap(word, Words(rest, []));
      case Dropped => RenderIsWords(rest, word);
    }
  }

  lemma JoinedGap(word: seq<nat>, words: seq<seq<nat>>)
    requires forall i :: 0 <= i < |words| ==> words[i] != []
    ensures word != [] ==> Joined(Flushed(word) + words) == word + AfterSpace(Joined(words))
    ensures Flushed([]) + words == words
  {
    hide Joined;
    assert [] + words == words;
    if words == [] {
      assert [word] + words == [word] && word + [] == word;
      JoinedAlone(word);
    } else {
      JoinedIsNotEmpty(words);
      JoinedMore(word, words);
    }
  }

  lemma JoinedAlone(word: seq<nat>)
    ensures Joined([word]) == word && Joined([]) == []
  {
  }

  lemma JoinedMore(word: seq<nat>, words: seq<seq<nat>>)
    requires words != []
    ensures Joined([word] + words) == word + ([SPACE] + Joined(words))
  {
    assert ([word] + words)[1..] == words;
    assert word + [SPACE] + Joined(words) == word + ([SPACE] + Joined(words));
  }

  lemma JoinedIsNotEmpty(words: seq<seq<nat>>)
    requires words != [] && words[0] != []
    ensures Joined(words) != []
  {
  }

  // ---------------------------------------------------------------- the cleaning loop

  lemma PiecesStep(input: Bytes, offset: nat)
    requires offset < |input|
    ensures var (piece, length) := FirstPiece(input[offset..]);
            0 < length <= |input| - offset
            && Pieces(input[offset..]) == [piece] + Pieces(input[offset + length..])
            && (piece.Kept? ==> Scalar(piece.codepoint))
  {
    hide FirstPiece;
    PieceAdvances(input[offset..]);
    var (_, length) := FirstPiece(input[offset..]);
    assert input[offset..][length..] == input[offset + length..];
  }

  lemma FirstPieceAt(input: Bytes, offset: nat)
    requires offset < |input|
    ensures var artifact := MarcLength(input[offset..]);
            var d := DecodeAt(input, offset);
            FirstPiece(input[offset..])
            == if artifact > 0 then (Gap, artifact) else (Classify(d.codepoint), d.next - offset)
  {
    hide MarcLength, DecodeAt, Classify;
    DecodeSuffix(input, offset);
    DecodeMeetsGrammar(input, offset);
  }

  /** What is still to be written. */
  function Remaining(input: Bytes, offset: nat, started: bool, pending: bool): Bytes
    requires offset <= |input|
  {
    EncodeAll(Render(Pieces(input[offset..]), started, pending))
  }

  lemma RemainingStep(input: Bytes, offset: nat, output: Bytes, pending: bool)
    requires offset < |input|
    ensures var (piece, length) := FirstPiece(input[offset..]);
            && 0 < length <= |input| - offset
            && output + Remaining(input, offset, output != [], pending)
               == match piece
                  case Kept(codepoint) =>
                    (output + (if pending then [SPACE] else []) + Encode(codepoint))
                    + Remaining(input, offset + length, true, false)
                  case Gap => output + Remaining(input, offset + length, output != [], output != [])
                  case Dropped => output + Remaining(input, offset + length, output != [], pending)
  {
    hide FirstPiece, Encode;
    PiecesStep(input, offset);
    var (piece, length) := FirstPiece(input[offset..]);
    var rest := Pieces(input[offset + length..]);
    assert ([piece] + rest)[1..] == rest;
    if piece.Kept? {
      RenderedKept(piece.codepoint, Render(rest, true, false), pending, output);
    }
  }

  lemma RenderedKept(codepoint: nat, rest: seq<nat>, pending: bool, output: Bytes)
    ensures output + EncodeAll((if pending then [SPACE] else []) + [codepoint] + rest)
            == output + (if pending then [SPACE] else []) + Encode(codepoint) + EncodeAll(rest)
  {
    var written := [codepoint] + rest;
    assert written[1..] == rest;
    if pending {
      assert ([SPACE] + [codepoint] + rest)[1..] == written;
      assert Encode(SPACE) == [SPACE];
    } else {
      assert [] + [codepoint] + rest == written;
    }
  }

  /** A text without the spaces at its end. */
  function Stripped(text: Bytes): Bytes {
    if text != [] && text[|text| - 1] == SPACE then Stripped(text[..|text| - 1]) else text
  }

  lemma {:induction false} EndsVisible(codepoints: seq<nat>)
    requires codepoints != [] && codepoints[|codepoints| - 1] != SPACE
    ensures var text := EncodeAll(codepoints); text != [] && text[|text| - 1] != SPACE
  {
    var rest := codepoints[1..];
    if rest != [] {
      assert rest[|rest| - 1] == codepoints[|codepoints| - 1];
      EndsVisible(rest);
    }
  }

  lemma {:induction false} TidyMeans(codepoints: seq<nat>, started: bool)
    requires if started then Follows(codepoints) else Tidy(codepoints)
    ensures forall i :: 0 <= i < |codepoints| ==> codepoints[i] == SPACE || Visible(codepoints[i])
    ensures forall i :: 0 <= i < |codepoints| && codepoints[i] == SPACE ==>
              (started || 0 < i) && i < |codepoints| - 1 && codepoints[i + 1] != SPACE
    decreases |codepoints|
  {
    if codepoints != [] {
      if Visible(codepoints[0]) && Follows(codepoints[1..]) {
        TidyMeans(codepoints[1..], true);
        assert forall i :: 0 < i < |codepoints| ==> codepoints[i] == codepoints[1..][i - 1];
      } else {
        TidyMeans(codepoints[2..], true);
        assert forall i :: 1 < i < |codepoints| ==> codepoints[i] == codepoints[2..][i - 2];
      }
    }
  }

  lemma CleanedIsTidy(text: Bytes)
    ensures Tidy(CleanedChars(text)) && Scalars(CleanedChars(text))
    ensures Stripped(Cleaned(text)) == Cleaned(text)
  {
    hide Pieces, Render, Classify;
    PiecesAreVisible(text);
    RenderIsTidy(Pieces(text));
    var chars := CleanedChars(text);
    TidyMeans(chars, false);
    if chars != [] {
      EndsVisible(chars);
    }
  }

  /** CleanAndValidate. */
  method CleanAndValidate(input: Bytes) returns (output: Bytes)
    ensures output == Cleaned(input)
  {
    hide DecodeAt, MarcLength, Classify, FirstPiece, Remaining, Encode;
    output := [];
    var pendingSpace := false;
    var offset := 0;
    assert Cleaned(input) == [] + Remaining(input, 0, false, false) by { StartsWhole(input); }
    while offset < |input|
      invariant offset <= |input| && (pendingSpace ==> output != [])
      invariant Cleaned(input) == output + Remaining(input, offset, output != [], pendingSpace)
      decreases |input| - offset
    {
      RemainingStep(input, offset, output, pendingSpace);
      FirstPieceAt(input, offset);
      var artifactLength := LooksLikeMarcArtifact(input, offset);
      if artifactLength > 0 {
        offset := offset + artifactLength;
        pendingSpace := output != [];
        continue;
      }
      var codepoint, next, _ := DecodeOne(input, offset);
      ClassifyIs(codepoint);
      offset := next;
      if codepoint == 0xFFFD {
        pendingSpace := output != [];
        continue;
      }
      if codepoint == 0xFEFF || codepoint == 0x200B {
        continue;
      }
      if codepoint <= SPACE || codepoint == 0x7F || codepoint == 0xA0 {
        pendingSpace := output != [];
        continue;
      }
      if pendingSpace {
        output := output + [SPACE];
        pendingSpace := false;
      }
      output := output + Encode(codepoint);
    }
    EndsWhole(input, output, pendingSpace);
    ghost var whole := output;
    while output != [] && output[|output| - 1] == SPACE
      invariant Stripped(output) == Stripped(whole)
    {
      output := output[..|output| - 1];
    }
    CleanedIsTidy(input);
  }

  lemma StartsWhole(input: Bytes)
    ensures Cleaned(input) == [] + Remaining(input, 0, false, false)
  {
    assert input[0..] == input;
  }

  lemma EndsWhole(input: Bytes, output: Bytes, pending: bool)
    ensures output + Remaining(input, |input|, output != [], pending) == output
  {
    assert input[|input|..] == [];
  }

  lemma ClassifyIs(codepoint: nat)
    ensures Classify(codepoint)
            == if codepoint == 0xFFFD then Gap
               else if codepoint == 0xFEFF || codepoint == 0x200B then Dropped
               else if codepoint <= SPACE || codepoint == 0x7F || codepoint == 0xA0 then Gap
               else Kept(codepoint)
  {
  }

  // ---------------------------------------------------------------- normalising

  function Normalized(text: Bytes): Bytes {
    var decoded := HtmlEntities.Decoded(text);
    Cleaned(if Markers(decoded) != 0 then Repaired(decoded) else decoded)
  }

  method NormalizeNewsText(text: Bytes) returns (result: Bytes)
    ensures result == Normalized(text)
  {
    hide HtmlEntities.Decoded, Markers, Repaired, Cleaned;
    var normalized := HtmlEntities.DecodeHtmlEntities(text);
    var markers := MojibakeMarkers(normalized);
    if markers != 0 {
      normalized := RepairWindows1252Mojibake(normalized);
    }
    result := CleanAndValidate(normalized);
  }

  /** Clean text: the encoding of scalar values, none of them discarded ones, with single spaces strictly
      between the others. */
  ghost predicate CleanText(text: Bytes) {
    exists codepoints :: Shows(text, codepoints)
  }

  predicate Shows(text: Bytes, codepoints: seq<nat>) {
    && text == EncodeAll(codepoints) && Scalars(codepoints)
    && (forall i :: 0 <= i < |codepoints| ==> codepoints[i] == SPACE || Classify(codepoints[i]).Kept?)
    && (forall i :: 0 <= i < |codepoints| && codepoints[i] == SPACE ==>
          0 < i < |codepoints| - 1 && codepoints[i + 1] != SPACE)
  }

  /** Whatever bytes come in, well-formed UTF-8 comes out, with no leading, trailing or doubled space and
      none of the discarded code points. */
  lemma NormalizedIsClean(text: Bytes)
    ensures WellFormed(Normalized(text)) && CleanText(Normalized(text))
  {
    hide HtmlEntities.Decoded, Markers, Repaired, WellFormed, Classify;
    var decoded := HtmlEntities.Decoded(text);
    var repaired := if Markers(decoded) != 0 then Repaired(decoded) else decoded;
    var chars := CleanedChars(repaired);
    CleanedIsTidy(repaired);
    TidyMeans(chars, false);
    EncodedAllIsWellFormed(chars);
    assert Shows(Normalized(text), chars);
  }
}
