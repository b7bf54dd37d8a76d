/** What cleaning does, in terms of characters: which ones stay, which cut words, which vanish, and how far an
    artifact reaches. */
module NewsTextLaws {
  import opened Utf8
  import opened NewsText
  import opened NewsIdempotence

  // ---------------------------------------------------------------- artifacts

  predicate Digit(b: int) {
    0x30 <= b <= 0x39
  }

  predicate Letter(b: int) {
    0x41 <= b <= 0x5A || 0x61 <= b <= 0x7A
  }

  /** An artifact of `q` question marks and `d` digits: three digits, a dollar sign and a letter, then all the
      question marks there are and the next digits, three at most, at least one of either. */
  predicate Artifact(text: seq<int>, q: nat, d: nat) {
    && 5 + q + d <= |text| && q + d >= 1 && d <= 3
    && (forall k :: 0 <= k < 3 ==> Digit(text[k])) && text[3] == 0x24 && Letter(text[4])
    && (forall k :: 5 <= k < 5 + q ==> text[k] == 0x3F)
    && (forall k :: 5 + q <= k < 5 + q + d ==> Digit(text[k]))
    && (5 + q < |text| ==> text[5 + q] != 0x3F)
    && (d < 3 && 5 + q + d < |text| ==> !Digit(text[5 + q + d]))
  }

  lemma {:induction false} QuestionsAre(text: Bytes, i: nat)
    requires i <= |text|
    ensures i + QuestionsAt(text, i) <= |text|
    ensures forall k :: i <= k < i + QuestionsAt(text, i) ==> text[k] == 0x3F
    ensures i + QuestionsAt(text, i) < |text| ==> text[i + QuestionsAt(text, i)] != 0x3F
    decreases |text| - i
  {
    if i < |text| && text[i] == QUESTION {
      QuestionsAre(text, i + 1);
    }
  }

  lemma {:induction false} DigitsAre(text: Bytes, i: nat, limit: nat)
    requires i <= |text|
    ensures DigitsAt(text, i, limit) <= limit && i + DigitsAt(text, i, limit) <= |text|
    ensures forall k :: i <= k < i + DigitsAt(text, i, limit) ==> Digit(text[k])
    ensures DigitsAt(text, i, limit) < limit && i + DigitsAt(text, i, limit) < |text| ==>
              !Digit(text[i + DigitsAt(text, i, limit)])
    decreases limit
  {
    if limit != 0 && i < |text| && IsDigit(text[i]) {
      DigitsAre(text, i + 1, limit - 1);
    }
  }

  /** A text starts with an artifact exactly if cleaning finds one there, and it is that long. */
  lemma ArtifactFound(text: Bytes) returns (q: nat, d: nat)
    ensures MarcLength(text) > 0 ==> Artifact(text, q, d) && MarcLength(text) == 5 + q + d
  {
    q, d := 0, 0;
    if MarcLength(text) > 0 {
      q := QuestionsAt(text, 5);
      QuestionsAre(text, 5);
      d := DigitsAt(text, 5 + q, 3);
      DigitsAre(text, 5 + q, 3);
      DigitsAre(text, 0, 3);
    }
  }

  lemma ArtifactIsFound(text: Bytes, q: nat, d: nat)
    requires Artifact(text, q, d)
    ensures MarcLength(text) == 5 + q + d
  {
    QuestionsAre(text, 5);
    DigitsAre(text, 0, 3);
    DigitsAre(text, 5 + q, 3);
  }

  // ---------------------------------------------------------------- characters

  /** Characters that vanish: the byte order mark and the zero-width space. */
  predicate Vanishes(codepoint: nat) {
    codepoint == 0xFEFF || codepoint == 0x200B
  }

  /** Characters that cut words: controls, the space, the no-break space and the replacement character. */
  predicate Cuts(codepoint: nat) {
    codepoint <= 0x20 || codepoint == 0x7F || codepoint == 0xA0 || codepoint == 0xFFFD
  }

  /** The words of a text, cut at such characters. `word` is the one being read. */
  function Cut(codepoints: seq<nat>, word: seq<nat>): seq<seq<nat>> {
    if codepoints == [] then Flushed(word)
    else if Vanishes(codepoints[0]) then Cut(codepoints[1..], word)
    else if Cuts(codepoints[0]) then Flushed(word) + Cut(codepoints[1..], [])
    else Cut(codepoints[1..], word + [codepoints[0]])
  }

  function Classified(codepoints: seq<nat>): seq<Piece> {
    seq(|codepoints|, i requires 0 <= i < |codepoints| => Classify(codepoints[i]))
  }

  lemma {:induction false} WordsAreCut(codepoints: seq<nat>, word: seq<nat>)
    ensures Words(Classified(codepoints), word) == Cut(codepoints, word)
    decreases |codepoints|
  {
    if codepoints != [] {
      var c := codepoints[0];
      assert Classified(codepoints)[1..] == Classified(codepoints[1..]);
      if Vanishes(c) {
        WordsAreCut(codepoints[1..], word);
      } else if Cuts(c) {
        WordsAreCut(codepoints[1..], []);
      } else {
        WordsAreCut(codepoints[1..], word + [c]);
      }
    }
  }

  lemma FirstIsClassified(codepoints: seq<nat>)
    requires Scalars(codepoints) && codepoints != [] && !Pattern(codepoints)
    ensures var text := EncodeAll(codepoints);
            && text != []
            && FirstPiece(text) == (Classify(codepoints[0]), |Encode(codepoints[0])|)
            && text[|Encode(codepoints[0])|..] == EncodeAll(codepoints[1..])
  {
    hide Pattern, MarcLength, DecodeAt, Encode, Classify;
    PatternInEncoding(codepoints);
    MarcIsPattern(EncodeAll(codepoints));
    DecodeHead(codepoints[0], EncodeAll(codepoints[1..]));
  }

  lemma {:induction false} PiecesAreClassified(codepoints: seq<nat>)
    requires Scalars(codepoints) && !SomePattern(codepoints)
    ensures Pieces(EncodeAll(codepoints)) == Classified(codepoints)
  {
    hide FirstPiece, Encode, Pattern, Classify;
    if codepoints != [] {
      FirstIsClassified(codepoints);
      PiecesAreClassified(codepoints[1..]);
      assert Classified(codepoints) == [Classify(codepoints[0])] + Classified(codepoints[1..]);
    }
  }

  /** Text without an artifact comes out as its words, cut at blanks and control characters and without the
      characters that vanish, joined by single spaces. */
  lemma CleaningIs(codepoints: seq<nat>)
    requires Scalars(codepoints) && !SomePattern(codepoints)
    ensures Cleaned(EncodeAll(codepoints)) == EncodeAll(NewsText.Joined(Cut(codepoints, [])))
  {
    hide Pieces, Render, Words, Cut, Classified;
    PiecesAreClassified(codepoints);
    RenderIsWords(Classified(codepoints), []);
    WordsAreCut(codepoints, []);
  }

  /** Whatever bytes come in, the text that comes out has none of these characters but single spaces. */
  lemma NothingElseIsLeft(text: Bytes) returns (codepoints: seq<nat>)
    ensures Normalized(text) == EncodeAll(codepoints) && Scalars(codepoints)
    ensures forall i :: 0 <= i < |codepoints| ==>
              !Vanishes(codepoints[i]) && (Cuts(codepoints[i]) ==> codepoints[i] == 0x20)
  {
    hide Normalized;
    NormalizedIsClean(text);
    codepoints :| Shows(Normalized(text), codepoints);
  }
}
