/** When cleaning news text twice is the same as cleaning it once. */
module NewsIdempotence {
  import opened Utf8
  import opened NewsText

  // ---------------------------------------------------------------- artifacts

  /** The least a catalogue artifact consists of. */
  predicate Pattern(s: seq<int>) {
    && |s| > 5 && IsDigit(s[0]) && IsDigit(s[1]) && IsDigit(s[2]) && s[3] == DOLLAR && IsLetter(s[4])
    && (s[5] == QUESTION || IsDigit(s[5]))
  }

  predicate SomePattern(s: seq<int>) {
    s != [] && (Pattern(s) || SomePattern(s[1..]))
  }

  /** Some artifact starts somewhere in a text. */
  predicate HasArtifact(text: Bytes) {
    exists i :: 0 <= i < |text| && MarcLength(text[i..]) > 0
  }

  lemma MarcIsPattern(text: Bytes)
    ensures MarcLength(text) > 0 <==> Pattern(text)
  {
    ThreeDigits(text);
    if 5 < |text| {
      assert QuestionsAt(text, 5) > 0 <==> text[5] == QUESTION;
      assert QuestionsAt(text, 5) == 0 ==> (DigitsAt(text, 5, 3) > 0 <==> IsDigit(text[5]));
    }
  }

  lemma ThreeDigits(text: Bytes)
    ensures DigitsAt(text, 0, 3) == 3 <==> |text| >= 3 && IsDigit(text[0]) && IsDigit(text[1]) && IsDigit(text[2])
  {
    if |text| > 0 && IsDigit(text[0]) {
      assert DigitsAt(text, 0, 3) == 1 + DigitsAt(text, 1, 2);
      if |text| > 1 && IsDigit(text[1]) {
        assert DigitsAt(text, 1, 2) == 1 + DigitsAt(text, 2, 1);
        if |text| > 2 && IsDigit(text[2]) {
          assert DigitsAt(text, 2, 1) == 1 + DigitsAt(text, 3, 0);
        }
      }
    }
  }

  lemma {:induction false} SomePatternIs(s: seq<int>)
    ensures SomePattern(s) <==> exists i :: 0 <= i < |s| && Pattern(s[i..])
  {
    hide Pattern;
    if s != [] {
      SomePatternIs(s[1..]);
      assert s[0..] == s;
      if i :| 0 <= i < |s| && Pattern(s[i..]) {
        if i > 0 {
          assert s[1..][i - 1..] == s[i..];
        }
      }
      if i :| 0 <= i < |s[1..]| && Pattern(s[1..][i..]) {
        assert s[1..][i..] == s[i + 1..];
      }
    }
  }

  lemma ArtifactsArePatterns(text: Bytes)
    ensures HasArtifact(text) <==> SomePattern(text)
  {
    hide Pattern, MarcLength, SomePattern;
    SomePatternIs(text);
    forall i | 0 <= i < |text|
      ensures MarcLength(text[i..]) > 0 <==> Pattern(text[i..])
    {
      MarcIsPattern(text[i..]);
    }
  }

  // ---------------------------------------------------------------- bytes and code points

  predicate AsciiTo(s: seq<int>, n: nat) {
    n <= |s| && forall i :: 0 <= i < n ==> s[i] < 0x80
  }

  lemma {:induction false} AsciiStep(s: seq<int>, n: nat)
    requires s != [] && n > 0
    ensures AsciiTo(s, n) <==> s[0] < 0x80 && AsciiTo(s[1..], n - 1)
  {
    if s[0] < 0x80 && AsciiTo(s[1..], n - 1) {
      assert forall i :: 0 < i < n ==> s[i] == s[1..][i - 1];
    }
  }

  lemma AsciiAlone(codepoint: nat)
    ensures codepoint < 0x80 ==> Encode(codepoint) == [codepoint]
    ensures codepoint >= 0x80 ==> Encode(codepoint)[0] >= 0x80
  {
  }

  /** ASCII stands for itself: the first n bytes are ASCII just when the first n code points are, and are
      then the same. */
  lemma {:induction false} AsciiPrefix(codepoints: seq<nat>, n: nat)
    ensures var text := EncodeAll(codepoints);
            && (AsciiTo(text, n) <==> AsciiTo(codepoints, n))
            && (AsciiTo(codepoints, n) ==> text[..n] == codepoints[..n] && text[n..] == EncodeAll(codepoints[n..]))
    decreases n
  {
    hide Encode, AsciiTo;
    var text := EncodeAll(codepoints);
    if n == 0 {
      assert codepoints[0..] == codepoints && AsciiTo(text, 0) && AsciiTo(codepoints, 0) by { AsciiNone(); }
    } else if codepoints != [] {
      AsciiAlone(codepoints[0]);
      AsciiStep(text, n);
      AsciiStep(codepoints, n);
      if codepoints[0] < 0x80 {
        var rest := codepoints[1..];
        assert text[1..] == EncodeAll(rest);
        AsciiPrefix(rest, n - 1);
        AsciiFits(codepoints, n);
        AsciiFits(text, n);
        if AsciiTo(codepoints, n) {
          assert rest[n - 1..] == codepoints[n..] && text[1..][n - 1..] == text[n..];
          assert codepoints[..n] == [codepoints[0]] + rest[..n - 1];
          assert text[..n] == [text[0]] + text[1..][..n - 1];
        }
      }
    } else {
      AsciiFits(codepoints, n);
      AsciiFits(text, n);
    }
  }

  lemma AsciiNone()
    ensures forall s: seq<int> :: AsciiTo(s, 0)
  {
  }

  lemma AsciiFits(s: seq<int>, n: nat)
    ensures AsciiTo(s, n) ==> n <= |s|
  {
  }

  lemma PatternIsAscii(s: seq<int>)
    requires Pattern(s)
    ensures forall i :: 0 <= i < 6 ==> 0 <= s[i] < 0x80 && s[i] != SPACE
  {
  }

  lemma NoPattern(s: seq<int>)
    requires s != [] && s[0] >= 0x80
    ensures !Pattern(s)
  {
  }

  lemma SamePattern(s: seq<int>, t: seq<int>)
    requires AsciiTo(s, 6) <==> AsciiTo(t, 6)
    requires AsciiTo(s, 6) ==> s[..6] == t[..6]
    ensures Pattern(s) <==> Pattern(t)
  {
    if AsciiTo(s, 6) {
      assert forall i :: 0 <= i < 6 ==> s[i] == s[..6][i] && t[i] == t[..6][i];
    }
  }

  lemma PatternInEncoding(codepoints: seq<nat>)
    ensures Pattern(EncodeAll(codepoints)) <==> Pattern(codepoints)
  {
    AsciiPrefix(codepoints, 6);
    SamePattern(EncodeAll(codepoints), codepoints);
  }

  /** A continuation byte starts no artifact. */
  lemma {:induction false} SomePatternPast(head: Bytes, rest: Bytes)
    requires forall i :: 0 <= i < |head| ==> head[i] >= 0x80
    ensures SomePattern(head + rest) <==> SomePattern(rest)
  {
    hide Pattern;
    if head == [] {
      assert head + rest == rest;
    } else {
      assert (head + rest)[1..] == head[1..] + rest;
      SomePatternPast(head[1..], rest);
      NoPattern(head + rest);
    }
  }

  lemma {:induction false} SomePatternInEncoding(codepoints: seq<nat>)
    ensures SomePattern(EncodeAll(codepoints)) <==> SomePattern(codepoints)
  {
    hide Pattern;
    if codepoints != [] {
      var head, rest := Encode(codepoints[0]), EncodeAll(codepoints[1..]);
      SomePatternInEncoding(codepoints[1..]);
      PatternInEncoding(codepoints);
      if codepoints[0] < 0x80 {
        assert (head + rest)[1..] == rest;
      } else {
        SomePatternPast(head, rest);
        NoPattern(codepoints);
      }
    }
  }

  // ---------------------------------------------------------------- pieces and what they render

  /** The pieces a clean text falls into when it holds no artifact. */
  function PiecesOf(codepoints: seq<nat>): seq<Piece> {
    seq(|codepoints|, i requires 0 <= i < |codepoints| => if codepoints[i] == SPACE then Gap else Kept(codepoints[i]))
  }

  predicate CleanChars(codepoints: seq<nat>) {
    Scalars(codepoints) && forall i :: 0 <= i < |codepoints| ==> codepoints[i] == SPACE || Visible(codepoints[i])
  }

  lemma FirstOfEncoded(codepoints: seq<nat>)
    requires CleanChars(codepoints) && codepoints != [] && !Pattern(codepoints)
    ensures var text := EncodeAll(codepoints);
            && text != []
            && FirstPiece(text) == (PiecesOf(codepoints)[0], |Encode(codepoints[0])|)
            && text[|Encode(codepoints[0])|..] == EncodeAll(codepoints[1..])
  {
    hide Pattern, MarcLength, DecodeAt, Encode;
    PatternInEncoding(codepoints);
    MarcIsPattern(EncodeAll(codepoints));
    DecodeHead(codepoints[0], EncodeAll(codepoints[1..]));
    assert codepoints[0] == SPACE || Visible(codepoints[0]);
  }

  lemma {:induction false} PiecesOfEncoded(codepoints: seq<nat>)
    requires CleanChars(codepoints) && !SomePattern(codepoints)
    ensures Pieces(EncodeAll(codepoints)) == PiecesOf(codepoints)
  {
    hide FirstPiece, Encode, Pattern, Visible;
    if codepoints != [] {
      FirstOfEncoded(codepoints);
      PiecesOfEncoded(codepoints[1..]);
      assert PiecesOf(codepoints) == [PiecesOf(codepoints)[0]] + PiecesOf(codepoints[1..]);
    }
  }

  lemma {:induction false} RenderOfFollowing(codepoints: seq<nat>)
    requires Follows(codepoints)
    ensures Render(PiecesOf(codepoints), true, false) == codepoints
    decreases |codepoints|
  {
    if codepoints != [] {
      var pieces := PiecesOf(codepoints);
      if codepoints[0] != SPACE {
        assert pieces[1..] == PiecesOf(codepoints[1..]);
        RenderOfFollowing(codepoints[1..]);
        assert codepoints == [codepoints[0]] + codepoints[1..];
      } else {
        assert pieces[1..][1..] == PiecesOf(codepoints[2..]);
        RenderOfFollowing(codepoints[2..]);
        assert codepoints == [SPACE] + [codepoints[1]] + codepoints[2..];
      }
    }
  }

  lemma RenderOfTidy(codepoints: seq<nat>)
    requires Tidy(codepoints)
    ensures Render(PiecesOf(codepoints), false, false) == codepoints
  {
    if codepoints != [] {
      assert PiecesOf(codepoints)[1..] == PiecesOf(codepoints[1..]);
      RenderOfFollowing(codepoints[1..]);
      assert codepoints == [codepoints[0]] + codepoints[1..];
    }
  }

  lemma CleanedIsClean(text: Bytes)
    ensures Tidy(CleanedChars(text)) && CleanChars(CleanedChars(text))
  {
    hide Pieces, Render, Visible, Follows;
    CleanedIsTidy(text);
    TidyMeans(CleanedChars(text), false);
  }

  // ---------------------------------------------------------------- what an artifact costs

  /** The characters kept, in order. */
  function KeptChars(pieces: seq<Piece>): seq<nat> {
    if pieces == [] then []
    else (if pieces[0].Kept? then [pieces[0].codepoint] else []) + KeptChars(pieces[1..])
  }

  function WithoutSpaces(codepoints: seq<nat>): seq<nat> {
    if codepoints == [] then []
    else (if codepoints[0] != SPACE then [codepoints[0]] else []) + WithoutSpaces(codepoints[1..])
  }

  function KeptCount(pieces: seq<Piece>): nat {
    |KeptChars(pieces)|
  }

  function VisibleCount(codepoints: seq<nat>): nat {
    |WithoutSpaces(codepoints)|
  }

  /** The rendering is the kept characters, each once and in order, and besides them only spaces. */
  lemma {:induction false} RenderConserves(pieces: seq<Piece>, started: bool, pending: bool)
    requires AllVisible(pieces)
    ensures WithoutSpaces(Render(pieces, started, pending)) == KeptChars(pieces)
  {
    if pieces != [] {
      var rest := pieces[1..];
      match pieces[0]
      case Kept(codepoint) =>
        RenderConserves(rest, true, false);
        var written := [codepoint] + Render(rest, true, false);
        assert written[1..] == Render(rest, true, false);
        assert Visible(codepoint);
        if pending {
          assert [SPACE] + [codepoint] + Render(rest, true, false) == [SPACE] + written;
          assert ([SPACE] + written)[1..] == written;
        } else {
          assert [] + [codepoint] + Render(rest, true, false) == written;
        }
      case Gap => RenderConserves(rest, started, started);
      case Dropped => RenderConserves(rest, started, pending);
    }
  }

  lemma {:induction false} CountPast(codepoints: seq<nat>, n: nat)
    requires n <= |codepoints| && forall i :: 0 <= i < n ==> codepoints[i] != SPACE
    ensures VisibleCount(codepoints) == n + VisibleCount(codepoints[n..])
  {
    if n == 0 {
      assert codepoints[0..] == codepoints;
    } else {
      CountPast(codepoints[1..], n - 1);
      assert codepoints[1..][n - 1..] == codepoints[n..];
    }
  }

  lemma {:induction false} DigitsAreDigits(text: Bytes, i: nat, limit: nat)
    ensures i <= |text| ==> i + DigitsAt(text, i, limit) <= |text|
    ensures forall k :: i <= k < i + DigitsAt(text, i, limit) && k < |text| ==> IsDigit(text[k])
    decreases limit
  {
    if limit != 0 && i < |text| && IsDigit(text[i]) {
      DigitsAreDigits(text, i + 1, limit - 1);
    }
  }

  lemma {:induction false} QuestionsAreQuestions(text: Bytes, i: nat)
    ensures i <= |text| ==> i + QuestionsAt(text, i) <= |text|
    ensures forall k :: i <= k < i + QuestionsAt(text, i) && k < |text| ==> text[k] == QUESTION
    decreases |text| - i
  {
    if i < |text| && text[i] == QUESTION {
      QuestionsAreQuestions(text, i + 1);
    }
  }

  lemma ArtifactIsAscii(text: Bytes)
    ensures MarcLength(text) <= |text|
    ensures forall k :: 0 <= k < MarcLength(text) ==> text[k] < 0x80 && text[k] as nat != SPACE
  {
    MarcFits(text);
    DigitsAreDigits(text, 0, 3);
    QuestionsAreQuestions(text, 5);
    DigitsAreDigits(text, 5 + QuestionsAt(text, 5), 3);
  }

  /** Cleaning a clean text keeps no more characters than it has, and fewer when it holds an artifact. */
  lemma {:induction false} KeptAtMost(codepoints: seq<nat>)
    requires CleanChars(codepoints)
    ensures KeptCount(Pieces(EncodeAll(codepoints))) <= VisibleCount(codepoints)
    ensures SomePattern(codepoints) ==> KeptCount(Pieces(EncodeAll(codepoints))) < VisibleCount(codepoints)
    decreases |codepoints|
  {
    hide Pattern, MarcLength, Encode, Visible, DecodeAt;
    if codepoints != [] {
      var text := EncodeAll(codepoints);
      if Pattern(codepoints) {
        ArtifactTaken(codepoints);
        var length := MarcLength(text);
        KeptAtMost(codepoints[length..]);
        assert Pieces(text) == [Gap] + Pieces(text[length..]);
      } else {
        FirstOfEncoded(codepoints);
        KeptAtMost(codepoints[1..]);
        assert Pieces(text) == [PiecesOf(codepoints)[0]] + Pieces(EncodeAll(codepoints[1..]));
      }
    }
  }

  lemma ArtifactTaken(codepoints: seq<nat>)
    requires CleanChars(codepoints) && Pattern(codepoints)
    ensures var text := EncodeAll(codepoints);
            var length := MarcLength(text);
            && text != [] && 0 < length <= |text| && length <= |codepoints|
            && text[length..] == EncodeAll(codepoints[length..])
            && VisibleCount(codepoints) == length + VisibleCount(codepoints[length..])
            && FirstPiece(text) == (Gap, length)
  {
    hide Pattern, MarcLength, Encode, Visible, VisibleCount;
    var text := EncodeAll(codepoints);
    PatternInEncoding(codepoints);
    MarcIsPattern(text);
    ArtifactIsAscii(text);
    var length := MarcLength(text);
    assert AsciiTo(text, length);
    AsciiPrefix(codepoints, length);
    forall i | 0 <= i < length
      ensures codepoints[i] != SPACE
    {
      assert codepoints[i] == codepoints[..length][i] == text[..length][i] == text[i];
    }
    CountPast(codepoints, length);
  }

  lemma {:induction false} EncodeAllIsInjective(a: seq<nat>, b: seq<nat>)
    requires Scalars(a) && Scalars(b) && EncodeAll(a) == EncodeAll(b)
    ensures a == b
  {
    hide Encode, DecodeAt;
    if a != [] && b != [] {
      DecodeHead(a[0], EncodeAll(a[1..]));
      DecodeHead(b[0], EncodeAll(b[1..]));
      var n := |Encode(a[0])|;
      assert EncodeAll(a)[n..] == EncodeAll(a[1..]);
      assert EncodeAll(b)[n..] == EncodeAll(b[1..]);
      EncodeAllIsInjective(a[1..], b[1..]);
      assert a == [a[0]] + a[1..] && b == [b[0]] + b[1..];
    }
  }

  /** Cleaning again changes nothing exactly when the cleaned text holds no artifact. */
  lemma StableIffNoArtifact(text: Bytes)
    ensures Cleaned(Cleaned(text)) == Cleaned(text) <==> !HasArtifact(Cleaned(text))
  {
    hide Pieces, Render, SomePattern, HasArtifact, Tidy, CleanChars;
    var codepoints := CleanedChars(text);
    var cleaned := Cleaned(text);
    CleanedIsClean(text);
    ArtifactsArePatterns(cleaned);
    SomePatternInEncoding(codepoints);
    if SomePattern(codepoints) {
      KeptAtMost(codepoints);
      PiecesAreVisible(cleaned);
      RenderConserves(Pieces(cleaned), false, false);
      if Cleaned(cleaned) == cleaned {
        CleanedIsTidy(cleaned);
        CleanedIsTidy(text);
        EncodeAllIsInjective(CleanedChars(cleaned), codepoints);
        assert false;
      }
    } else {
      PiecesOfEncoded(codepoints);
      RenderOfTidy(codepoints);
    }
  }

  // ---------------------------------------------------------------- discarded characters that join

  /** The pieces that leave a trace: a dropped one does not even separate its neighbours. */
  function Undropped(pieces: seq<Piece>): seq<Piece> {
    if pieces == [] then []
    else if pieces[0].Dropped? then Undropped(pieces[1..])
    else [pieces[0]] + Undropped(pieces[1..])
  }

  predicate NoneDropped(pieces: seq<Piece>) {
    forall i :: 0 <= i < |pieces| ==> !pieces[i].Dropped?
  }

  /** Kept characters in a row that spell an artifact. */
  predicate Spelled(pieces: seq<Piece>) {
    && |pieces| > 5 && (forall i :: 0 <= i < 6 ==> pieces[i].Kept?)
    && Pattern(seq(6, i requires 0 <= i < 6 => pieces[i].codepoint))
  }

  predicate SomeSpelled(pieces: seq<Piece>) {
    pieces != [] && (Spelled(pieces) || SomeSpelled(pieces[1..]))
  }

  /** Dropping a character joins its neighbours into an artifact. */
  predicate JoinsArtifact(text: Bytes) {
    SomeSpelled(Undropped(Pieces(text)))
  }

  lemma {:induction false} UndroppedRendersTheSame(pieces: seq<Piece>, started: bool, pending: bool)
    requires AllVisible(pieces)
    ensures Render(Undropped(pieces), started, pending) == Render(pieces, started, pending)
    ensures NoneDropped(Undropped(pieces)) && AllVisible(Undropped(pieces))
  {
    hide Visible;
    if pieces != [] {
      var rest := pieces[1..];
      match pieces[0]
      case Kept(_) => UndroppedRendersTheSame(rest, true, false);
      case Gap => UndroppedRendersTheSame(rest, started, started);
      case Dropped => UndroppedRendersTheSame(rest, started, pending);
    }
  }

  predicate VisibleTo(codepoints: seq<nat>, n: nat) {
    n <= |codepoints| && forall i :: 0 <= i < n ==> codepoints[i] != SPACE
  }

  predicate KeptTo(pieces: seq<Piece>, n: nat) {
    n <= |pieces| && forall i :: 0 <= i < n ==> pieces[i].Kept?
  }

  lemma VisibleStep(codepoints: seq<nat>, n: nat)
    requires codepoints != [] && n > 0
    ensures VisibleTo(codepoints, n) <==> codepoints[0] != SPACE && VisibleTo(codepoints[1..], n - 1)
  {
    if codepoints[0] != SPACE && VisibleTo(codepoints[1..], n - 1) {
      assert forall i :: 0 < i < n ==> codepoints[i] == codepoints[1..][i - 1];
    }
  }

  lemma KeptStep(pieces: seq<Piece>, n: nat)
    requires pieces != [] && n > 0
    ensures KeptTo(pieces, n) <==> pieces[0].Kept? && KeptTo(pieces[1..], n - 1)
  {
    if pieces[0].Kept? && KeptTo(pieces[1..], n - 1) {
      assert forall i :: 0 < i < n ==> pieces[i] == pieces[1..][i - 1];
    }
  }

  lemma NoneTo(codepoints: seq<nat>, pieces: seq<Piece>)
    ensures VisibleTo(codepoints, 0) && KeptTo(pieces, 0)
    ensures forall n: nat :: VisibleTo(codepoints, n) ==> n <= |codepoints|
    ensures forall n: nat :: KeptTo(pieces, n) ==> n <= |pieces|
  {
  }

  /** The characters of the first n pieces. */
  function Spelling(pieces: seq<Piece>, n: nat): seq<nat>
    requires KeptTo(pieces, n)
  {
    seq(n, i requires 0 <= i < n => pieces[i].codepoint)
  }

  /** Where rendering goes on right behind a character, its first n characters are no spaces just when the
      first n pieces are kept ones, and are then theirs. */
  lemma {:induction false} RenderedPrefix(pieces: seq<Piece>, n: nat)
    requires NoneDropped(pieces) && AllVisible(pieces)
    ensures var r := Render(pieces, true, false);
            && (VisibleTo(r, n) <==> KeptTo(pieces, n))
            && (KeptTo(pieces, n) ==> n <= |r| && r[..n] == Spelling(pieces, n))
    decreases n
  {
    hide VisibleTo, KeptTo, Visible;
    var r := Render(pieces, true, false);
    NoneTo(r, pieces);
    if n > 0 && pieces != [] {
      var rest := pieces[1..];
      KeptStep(pieces, n);
      if pieces[0].Kept? {
        RenderedPrefix(rest, n - 1);
        assert pieces[0].codepoint != SPACE by { VisibleIsNotSpace(pieces[0].codepoint); }
        VisibleStep(r, n);
        assert r[1..] == Render(rest, true, false);
        if KeptTo(pieces, n) {
          SpellingStep(pieces, n);
          assert r[..n] == [r[0]] + r[1..][..n - 1];
        }
      } else {
        RenderFollows(rest, true);
        if r != [] {
          VisibleStep(r, n);
        }
      }
    }
  }

  lemma VisibleIsNotSpace(codepoint: nat)
    requires Visible(codepoint)
    ensures codepoint != SPACE
  {
  }

  lemma SpellingStep(pieces: seq<Piece>, n: nat)
    requires n > 0 && KeptTo(pieces, n) && KeptTo(pieces[1..], n - 1)
    ensures Spelling(pieces, n) == [pieces[0].codepoint] + Spelling(pieces[1..], n - 1)
  {
  }

  lemma PatternHasNoSpace(codepoints: seq<nat>)
    ensures Pattern(codepoints) ==> VisibleTo(codepoints[1..], 5) && codepoints[0] != SPACE
  {
  }

  lemma SamePrefix(s: seq<int>, t: seq<int>)
    requires |s| > 5 && |t| > 5 && s[..6] == t[..6]
    ensures Pattern(s) <==> Pattern(t)
  {
    assert forall i :: 0 <= i < 6 ==> s[i] == s[..6][i] && t[i] == t[..6][i];
  }

  /** An artifact begins with a kept character just when the pieces from it on spell one. */
  lemma SpelledIsPattern(pieces: seq<Piece>)
    requires NoneDropped(pieces) && AllVisible(pieces) && pieces != [] && pieces[0].Kept?
    ensures Pattern([pieces[0].codepoint] + Render(pieces[1..], true, false)) <==> Spelled(pieces)
  {
    hide Pattern, VisibleTo, Visible, Render;
    var rest := pieces[1..];
    var r := [pieces[0].codepoint] + Render(rest, true, false);
    RenderedPrefix(rest, 5);
    PatternHasNoSpace(r);
    assert r[1..] == Render(rest, true, false);
    if KeptTo(rest, 5) {
      assert KeptTo(pieces, 6) by { KeptStep(pieces, 6); }
      SpellingStep(pieces, 6);
      assert r[..6] == [r[0]] + r[1..][..5] == Spelling(pieces, 6);
      assert Spelling(pieces, 6) == seq(6, i requires 0 <= i < 6 => pieces[i].codepoint);
      SamePrefix(r, Spelling(pieces, 6));
    } else {
      assert !KeptTo(pieces, 6) by { KeptStep(pieces, 6); }
    }
  }

  lemma SomePatternPastSpace(codepoints: seq<nat>)
    ensures SomePattern([SPACE] + codepoints) <==> SomePattern(codepoints)
  {
    assert ([SPACE] + codepoints)[1..] == codepoints;
  }

  lemma {:induction false} RenderedArtifacts(pieces: seq<Piece>, started: bool, pending: bool)
    requires NoneDropped(pieces) && AllVisible(pieces)
    ensures SomePattern(Render(pieces, started, pending)) <==> SomeSpelled(pieces)
  {
    hide Pattern, Spelled, Visible;
    if pieces != [] {
      var rest := pieces[1..];
      match pieces[0]
      case Kept(codepoint) =>
        RenderedArtifacts(rest, true, false);
        SpelledIsPattern(pieces);
        var written := [codepoint] + Render(rest, true, false);
        assert written[1..] == Render(rest, true, false);
        if pending {
          SomePatternPastSpace(written);
          assert [SPACE] + [codepoint] + Render(rest, true, false) == [SPACE] + written;
        } else {
          assert [] + [codepoint] + Render(rest, true, false) == written;
        }
      case Gap =>
        RenderedArtifacts(rest, started, started);
        assert !Spelled(pieces) by { GapSpellsNothing(pieces); }
      case Dropped => assert false;
    }
  }

  lemma GapSpellsNothing(pieces: seq<Piece>)
    requires pieces != [] && !pieces[0].Kept?
    ensures !Spelled(pieces)
  {
  }

  /** The cleaned text holds an artifact just when dropping characters joined one. */
  lemma ArtifactIsJoined(text: Bytes)
    ensures HasArtifact(Cleaned(text)) <==> JoinsArtifact(text)
  {
    hide Pieces, Render, SomePattern, HasArtifact, SomeSpelled, Undropped;
    PiecesAreVisible(text);
    UndroppedRendersTheSame(Pieces(text), false, false);
    RenderedArtifacts(Undropped(Pieces(text)), false, false);
    ArtifactsArePatterns(Cleaned(text));
    SomePatternInEncoding(CleanedChars(text));
  }

  /** Cleaning is idempotent on exactly the texts in which no discarded U+FEFF or U+200B joins an artifact. */
  lemma IdempotentIffNothingJoined(text: Bytes)
    ensures Cleaned(Cleaned(text)) == Cleaned(text) <==> !JoinsArtifact(text)
  {
    hide HasArtifact, JoinsArtifact, Cleaned;
    StableIffNoArtifact(text);
    ArtifactIsJoined(text);
  }

  // ---------------------------------------------------------------- texts without discarded characters

  /** A kept ASCII piece is the byte itself. */
  lemma KeptAsciiIsByte(text: Bytes)
    requires text != [] && FirstPiece(text).0.Kept? && FirstPiece(text).0.codepoint < 0x80
    ensures FirstPiece(text).1 == 1 && text[0] as nat == FirstPiece(text).0.codepoint
  {
    hide MarcLength, DecodeAt;
    DecodeMeetsGrammar(text, 0);
    AsciiAlone(FirstPiece(text).0.codepoint);
  }

  lemma {:induction false} KeptAsciiPrefix(text: Bytes, n: nat)
    requires KeptTo(Pieces(text), n) && AsciiTo(Spelling(Pieces(text), n), n)
    ensures n <= |text| && text[..n] == Spelling(Pieces(text), n)
    decreases n
  {
    hide FirstPiece;
    if n > 0 {
      var (piece, length) := FirstPiece(text);
      PieceAdvances(text);
      assert Pieces(text) == [piece] + Pieces(text[length..]);
      var pieces := Pieces(text);
      assert pieces[0] == piece && pieces[1..] == Pieces(text[length..]);
      KeptStep(pieces, n);
      SpellingStep(pieces, n);
      AsciiStep(Spelling(pieces, n), n);
      assert Spelling(pieces, n)[1..] == Spelling(pieces[1..], n - 1);
      KeptAsciiIsByte(text);
      KeptAsciiPrefix(text[1..], n - 1);
      assert text[..n] == [text[0]] + text[1..][..n - 1];
    }
  }

  /** The scan never lets the pieces in a row spell an artifact: it would have taken it whole. */
  lemma NothingSpelledAt(text: Bytes)
    ensures !Spelled(Pieces(text))
  {
    hide Pattern, Pieces;
    var pieces := Pieces(text);
    if Spelled(pieces) {
      var spelling := Spelling(pieces, 6);
      assert spelling == seq(6, i requires 0 <= i < 6 => pieces[i].codepoint);
      PatternIsAscii(spelling);
      KeptAsciiPrefix(text, 6);
      assert spelling[..6] == spelling;
      SamePrefix(text, spelling);
      MarcIsPattern(text);
      ArtifactIsGap(text);
      assert false;
    }
  }

  lemma ArtifactIsGap(text: Bytes)
    requires MarcLength(text) > 0
    ensures Pieces(text) != [] && Pieces(text)[0] == Gap
  {
    hide MarcLength;
    MarcFits(text);
    PieceAdvances(text);
  }

  lemma {:induction false} NothingSpelled(text: Bytes)
    ensures !SomeSpelled(Pieces(text))
    decreases |text|
  {
    hide Spelled, FirstPiece;
    if text != [] {
      NothingSpelledAt(text);
      var (piece, length) := FirstPiece(text);
      PieceAdvances(text);
      NothingSpelled(text[length..]);
      assert ([piece] + Pieces(text[length..]))[1..] == Pieces(text[length..]);
    }
  }

  /** The code point is not encoded anywhere in the text. */
  predicate Lacks(text: Bytes, codepoint: nat) {
    forall i :: 0 <= i < |text| ==> !(Encode(codepoint) <= text[i..])
  }

  lemma {:induction false} LackingIsUndropped(text: Bytes)
    requires Lacks(text, 0xFEFF) && Lacks(text, 0x200B)
    ensures NoneDropped(Pieces(text)) && Undropped(Pieces(text)) == Pieces(text)
    decreases |text|
  {
    hide MarcLength, DecodeAt, Encode;
    if text != [] {
      var (piece, length) := FirstPiece(text);
      PieceAdvances(text);
      DecodeMeetsGrammar(text, 0);
      assert text[0..] == text;
      assert text[0..DecodeAt(text, 0).next] <= text;
      assert !piece.Dropped?;
      forall i, codepoint | 0 <= i < |text[length..]| && (codepoint == 0xFEFF || codepoint == 0x200B)
        ensures !(Encode(codepoint) <= text[length..][i..])
      {
        assert text[length..][i..] == text[length + i..];
      }
      LackingIsUndropped(text[length..]);
      assert ([piece] + Pieces(text[length..]))[1..] == Pieces(text[length..]);
    }
  }

  /** On a text without U+FEFF and U+200B no artifact survives, and cleaning is idempotent. */
  lemma NoArtifactSurvives(text: Bytes)
    requires Lacks(text, 0xFEFF) && Lacks(text, 0x200B)
    ensures !HasArtifact(Cleaned(text)) && Cleaned(Cleaned(text)) == Cleaned(text)
  {
    hide Lacks, HasArtifact, Cleaned, SomeSpelled, Pieces, Undropped;
    LackingIsUndropped(text);
    NothingSpelled(text);
    ArtifactIsJoined(text);
    StableIffNoArtifact(text);
  }

  // ---------------------------------------------------------------- where it fails

  /** "12", U+FEFF, "3$a1": dropping the byte order mark joins an artifact, which a second cleaning takes. */
  const JOINED: Bytes := ['1' as int, '2' as int, 0xEF, 0xBB, 0xBF, '3' as int, DOLLAR, 'a' as int, '1' as int]

  lemma JoiningExample()
    ensures JoinsArtifact(JOINED) && Cleaned(Cleaned(JOINED)) != Cleaned(JOINED)
  {
    hide FirstPiece, Cleaned, Undropped, Pieces;
    PiecesOfExample();
    var head := [Kept('1' as int), Kept('2' as int)];
    var tail := [Kept('3' as int), Kept(DOLLAR), Kept('a' as int), Kept('1' as int)];
    assert Pieces(JOINED) == head + [Dropped] + tail;
    UndroppedAround(head, tail);
    assert Spelled(head + tail);
    IdempotentIffNothingJoined(JOINED);
  }

  lemma {:induction false} UndroppedAround(head: seq<Piece>, tail: seq<Piece>)
    requires NoneDropped(head) && NoneDropped(tail)
    ensures Undropped(head + [Dropped] + tail) == head + tail
  {
    if head == [] {
      assert ([] + [Dropped] + tail)[1..] == tail;
      UndroppedNone(tail);
    } else {
      assert (head + [Dropped] + tail)[1..] == head[1..] + [Dropped] + tail;
      UndroppedAround(head[1..], tail);
      assert head == [head[0]] + head[1..];
    }
  }

  lemma {:induction false} UndroppedNone(pieces: seq<Piece>)
    requires NoneDropped(pieces)
    ensures Undropped(pieces) == pieces
  {
    if pieces != [] {
      UndroppedNone(pieces[1..]);
    }
  }

  lemma AsciiPieceFirst(text: Bytes)
    requires text != [] && SPACE < text[0] as nat < 0x7F && MarcLength(text) == 0
    ensures Pieces(text) == [Kept(text[0])] + Pieces(text[1..])
  {
    hide MarcLength;
  }

  lemma PiecesOfExample()
    ensures Pieces(JOINED)
            == [Kept('1' as int), Kept('2' as int), Dropped, Kept('3' as int), Kept(DOLLAR), Kept('a' as int),
                Kept('1' as int)]
  {
    hide MarcLength, FirstPiece;
    forall i | 0 <= i <= 8
      ensures MarcLength(JOINED[i..]) == 0
    {
      MarcIsPattern(JOINED[i..]);
    }
    PlainPieces(JOINED[5..]);
    DecodeHead(0xFEFF, JOINED[5..]);
    assert JOINED[2..] == Encode(0xFEFF) + JOINED[5..];
    MarkIsDropped(JOINED[2..], JOINED[5..]);
    AsciiPieceFirst(JOINED[1..]);
    AsciiPieceFirst(JOINED[0..]);
    assert JOINED[0..] == JOINED && JOINED[0..][1..] == JOINED[1..] && JOINED[1..][1..] == JOINED[2..];
  }

  lemma PlainPieces(text: Bytes)
    requires text == JOINED[5..] && forall i :: 0 <= i <= 8 ==> MarcLength(JOINED[i..]) == 0
    ensures Pieces(text) == [Kept('3' as int), Kept(DOLLAR), Kept('a' as int), Kept('1' as int)]
  {
    hide MarcLength, FirstPiece;
    AsciiPieceFirst(JOINED[8..]);
    AsciiPieceFirst(JOINED[7..]);
    AsciiPieceFirst(JOINED[6..]);
    AsciiPieceFirst(JOINED[5..]);
    assert JOINED[8..][1..] == [] && JOINED[7..][1..] == JOINED[8..];
    assert JOINED[6..][1..] == JOINED[7..] && JOINED[5..][1..] == JOINED[6..];
  }

  lemma MarkIsDropped(text: Bytes, rest: Bytes)
    requires text == Encode(0xFEFF) + rest && MarcLength(text) == 0
    ensures Pieces(text) == [Dropped] + Pieces(rest)
  {
    hide MarcLength, DecodeAt;
    DecodeHead(0xFEFF, rest);
    assert text[3..] == rest;
  }
}
