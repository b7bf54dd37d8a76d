/** The repair of text that was misread as Windows-1252 and encoded again. */
module Mojibake {
  import opened Options
  import opened Utf8

  // ---------------------------------------------------------------- marker counting

  const MARKERS: seq<Bytes> := [
    [0xC3, 0x82], [0xC3, 0x83], [0xC3, 0xA2], [0xC2, 0x80], [0xC2, 0x99],
    [0xC3, 0xAF, 0xC2, 0xBF, 0xC2, 0xBD]]

  predicate OccursAt(text: Bytes, marker: Bytes, i: nat) {
    i + |marker| <= |text| && text[i..i + |marker|] == marker
  }

  /** At how many positions, from this one on, the marker occurs. */
  function Occurrences(text: Bytes, marker: Bytes, i: nat): nat
    requires i <= |text|
    decreases |text| - i
  {
    if i == |text| then 0 else (if OccursAt(text, marker, i) then 1 else 0) + Occurrences(text, marker, i + 1)
  }

  /** How many times any marker occurs in a text. */
  function Markers(text: Bytes): nat {
    Total(text, |MARKERS|)
  }

  function Total(text: Bytes, kinds: nat): nat
    requires kinds <= |MARKERS|
  {
    if kinds == 0 then 0 else Total(text, kinds - 1) + Occurrences(text, MARKERS[kinds - 1], 0)
  }

  /** No marker overlaps itself: its first byte never returns in it. */
  predicate Unbordered(marker: Bytes) {
    marker != [] && forall i :: 1 <= i < |marker| ==> marker[i] != marker[0]
  }

  lemma MarkersAreUnbordered(kind: nat)
    requires kind < |MARKERS|
    ensures Unbordered(MARKERS[kind])
  {
  }

  /** `find` from a position on. */
  method Find(text: Bytes, marker: Bytes, position: nat) returns (found: Option<nat>)
    requires position <= |text|
    ensures found.Some? ==> position <= found.value && OccursAt(text, marker, found.value)
    ensures forall i: nat :: position <= i && (found.Some? ==> i < found.value) ==> !OccursAt(text, marker, i)
  {
    var i := position;
    while i + |marker| <= |text|
      invariant position <= i
      invariant forall j: nat :: position <= j < i ==> !OccursAt(text, marker, j)
    {
      if text[i..i + |marker|] == marker {
        return Some(i);
      }
      i := i + 1;
    }
    return None;
  }

  lemma {:induction false} NoOccurrences(text: Bytes, marker: Bytes, i: nat, j: nat)
    requires i <= j <= |text| && forall k: nat :: i <= k < j ==> !OccursAt(text, marker, k)
    ensures Occurrences(text, marker, i) == Occurrences(text, marker, j)
    decreases j - i
  {
    if i < j {
      NoOccurrences(text, marker, i + 1, j);
    }
  }

  /** After a match no occurrence starts inside it. */
  lemma SkippedMatch(text: Bytes, marker: Bytes, i: nat)
    requires OccursAt(text, marker, i) && Unbordered(marker)
    ensures Occurrences(text, marker, i) == 1 + Occurrences(text, marker, i + |marker|)
  {
    forall k: nat | i + 1 <= k < i + |marker|
      ensures !OccursAt(text, marker, k)
    {
      assert text[k] == text[i..i + |marker|][k - i] == marker[k - i];
      assert k + |marker| <= |text| ==> text[k..k + |marker|][0] == text[k];
    }
    NoOccurrences(text, marker, i + 1, i + |marker|);
  }

  /** One marker's search loop, which skips each match, counts all its occurrences. */
  method CountMarker(text: Bytes, marker: Bytes) returns (count: nat)
    requires Unbordered(marker)
    ensures count == Occurrences(text, marker, 0)
  {
    count := 0;
    var position := 0;
    var found := Find(text, marker, position);
    while found.Some?
      invariant position <= |text|
      invariant found.Some? ==> position <= found.value && OccursAt(text, marker, found.value)
      invariant forall i: nat :: position <= i && (found.Some? ==> i < found.value) ==> !OccursAt(text, marker, i)
      invariant count + Occurrences(text, marker, position) == Occurrences(text, marker, 0)
      decreases |text| - position
    {
      NoOccurrences(text, marker, position, found.value);
      SkippedMatch(text, marker, found.value);
      count := count + 1;
      position := found.value + |marker|;
      found := Find(text, marker, position);
    }
    NoOccurrences(text, marker, position, |text|);
  }

  /** MojibakeMarkers counts every occurrence of every marker. */
  method MojibakeMarkers(text: Bytes) returns (count: nat)
    ensures count == Markers(text)
  {
    count := 0;
    var kind := 0;
    while kind < |MARKERS|
      invariant kind <= |MARKERS|
      invariant count == Total(text, kind)
    {
      MarkersAreUnbordered(kind);
      var occurrences := CountMarker(text, MARKERS[kind]);
      count := count + occurrences;
      kind := kind + 1;
    }
  }

  // ---------------------------------------------------------------- Windows-1252

  /** The characters Windows-1252 has outside ISO 8859-1, with their bytes. */
  const MAPPING: seq<(nat, Byte)> := [
    (0x20AC, 0x80), (0x201A, 0x82), (0x0192, 0x83), (0x201E, 0x84),
    (0x2026, 0x85), (0x2020, 0x86), (0x2021, 0x87), (0x02C6, 0x88),
    (0x2030, 0x89), (0x0160, 0x8A), (0x2039, 0x8B), (0x0152, 0x8C),
    (0x017D, 0x8E), (0x2018, 0x91), (0x2019, 0x92), (0x201C, 0x93),
    (0x201D, 0x94), (0x2022, 0x95), (0x2013, 0x96), (0x2014, 0x97),
    (0x02DC, 0x98), (0x2122, 0x99), (0x0161, 0x9A), (0x203A, 0x9B),
    (0x0153, 0x9C), (0x017E, 0x9E), (0x0178, 0x9F)]

  /** The mapping's first entry from an index on whose character this is. */
  function Lookup(codepoint: nat, i: nat): Option<Byte>
    requires i <= |MAPPING|
    decreases |MAPPING| - i
  {
    if i == |MAPPING| then None
    else if MAPPING[i].0 == codepoint then Some(MAPPING[i].1)
    else Lookup(codepoint, i + 1)
  }

  function ByteOf(codepoint: nat): Option<Byte> {
    if codepoint <= 0xFF then Some(codepoint) else Lookup(codepoint, 0)
  }

  method Windows1252Byte(codepoint: nat) returns (value: Option<Byte>)
    ensures value == ByteOf(codepoint)
  {
    if codepoint <= 0xFF {
      return Some(codepoint);
    }
    var i := 0;
    while i < |MAPPING|
      invariant i <= |MAPPING|
      invariant Lookup(codepoint, 0) == Lookup(codepoint, i)
    {
      if MAPPING[i].0 == codepoint {
        return Some(MAPPING[i].1);
      }
      i := i + 1;
    }
    return None;
  }

  /** The characters of bytes 0x80 to 0x9F in Windows-1252, in the order of the bytes; the five unassigned
      bytes stand for their own number. */
  const HIGH_CHARACTERS: seq<nat> := [
    0x20AC, 0x81, 0x201A, 0x0192, 0x201E, 0x2026, 0x2020, 0x2021,
    0x02C6, 0x2030, 0x0160, 0x2039, 0x0152, 0x8D, 0x017D, 0x8F,
    0x90, 0x2018, 0x2019, 0x201C, 0x201D, 0x2022, 0x2013, 0x2014,
    0x02DC, 0x2122, 0x0161, 0x203A, 0x0153, 0x9D, 0x017E, 0x0178]

  /** The character a byte stands for in Windows-1252. */
  function CharOf(b: Byte): nat {
    if 0x80 <= b < 0xA0 then HIGH_CHARACTERS[b - 0x80] else b
  }

  lemma {:induction false} LookupSkips(codepoint: nat, i: nat, j: nat)
    requires i <= j <= |MAPPING| && forall k :: i <= k < j ==> MAPPING[k].0 != codepoint
    ensures Lookup(codepoint, i) == Lookup(codepoint, j)
    decreases j - i
  {
    if i < j {
      LookupSkips(codepoint, i + 1, j);
    }
  }

  lemma {:induction false} LookupFinds(codepoint: nat, i: nat) returns (j: nat)
    requires i <= |MAPPING| && Lookup(codepoint, i).Some?
    ensures i <= j < |MAPPING| && MAPPING[j] == (codepoint, Lookup(codepoint, i).value)
    decreases |MAPPING| - i
  {
    if MAPPING[i].0 == codepoint {
      j := i;
    } else {
      j := LookupFinds(codepoint, i + 1);
    }
  }

  /** No character has two entries. */
  lemma DistinctCharacters(i: nat, j: nat)
    requires i < j < |MAPPING|
    ensures MAPPING[i].0 != MAPPING[j].0
  {
  }

  lemma EntryIsChar(j: nat)
    requires j < |MAPPING|
    ensures CharOf(MAPPING[j].1) == MAPPING[j].0 > 0xFF
  {
  }

  /** Where the entry of an assigned byte is. */
  lemma CharHasEntry(b: Byte) returns (j: nat)
    requires CharOf(b) != b
    ensures j < |MAPPING| && MAPPING[j] == (CharOf(b), b)
  {
    j := b - 0x80 - (if b > 0x81 then 1 else 0) - (if b > 0x8D then 1 else 0) - (if b > 0x90 then 2 else 0)
         - (if b > 0x9D then 1 else 0);
  }

  /** The table gives a byte exactly for the character of that byte, and for the number of the byte itself. */
  lemma ByteOfIs(codepoint: nat, b: Byte)
    ensures ByteOf(codepoint) == Some(b) <==> codepoint == CharOf(b) || codepoint == b
  {
    hide Lookup;
    if codepoint <= 0xFF {
      if codepoint == CharOf(b) != b {
        var j := CharHasEntry(b);
        EntryIsChar(j);
        assert false;
      }
      return;
    }
    if ByteOf(codepoint) == Some(b) {
      var j := LookupFinds(codepoint, 0);
      EntryIsChar(j);
    } else if codepoint == CharOf(b) {
      var j := CharHasEntry(b);
      forall k | 0 <= k < j
        ensures MAPPING[k].0 != codepoint
      {
        DistinctCharacters(k, j);
      }
      LookupSkips(codepoint, 0, j);
      EntryIsFound(j);
      assert false;
    }
  }

  lemma EntryIsFound(j: nat)
    requires j < |MAPPING|
    ensures Lookup(MAPPING[j].0, j) == Some(MAPPING[j].1)
  {
  }

  /** Every byte's Windows-1252 character gives the byte back, and it is a scalar value. */
  lemma CharOfGivesByte(b: Byte)
    ensures ByteOf(CharOf(b)) == Some(b) && Scalar(CharOf(b))
  {
    hide ByteOf;
    ByteOfIs(CharOf(b), b);
  }

  // ---------------------------------------------------------------- the repair

  function Prepend(head: Bytes, rest: Option<Bytes>): Option<Bytes> {
    if rest == None then None else Some(head + rest.value)
  }

  lemma PrependTwice(head: Bytes, b: Byte, rest: Option<Bytes>)
    ensures Prepend(head, Prepend([b], rest)) == Prepend(head + [b], rest)
    ensures Prepend([], rest) == rest && Prepend(head, Some([])) == Some(head)
  {
    if rest.Some? {
      assert head + ([b] + rest.value) == head + [b] + rest.value;
      assert [] + rest.value == rest.value;
    }
    assert head + [] == head;
  }

  /** The bytes a text gives when each of its characters is written in Windows-1252. */
  function Recovered(text: Bytes): Option<Bytes>
    decreases |text|
  {
    if text == [] then
      Some([])
    else
      var d := DecodeAt(text, 0);
      DecodeMeetsGrammar(text, 0);
      var b := ByteOf(d.codepoint);
      if !d.ok || b == None then None else Prepend([b.value], Recovered(text[d.next..]))
  }

  /** What RepairWindows1252Mojibake yields: the recovered bytes when they are UTF-8 with fewer markers. */
  function Repaired(text: Bytes): Bytes {
    var bytes := Recovered(text);
    if bytes.Some? && WellFormed(bytes.value) && Markers(bytes.value) < Markers(text) then bytes.value else text
  }

  /** The code points of `text` are those of `bytes` read one by one as Windows-1252. */
  predicate Misread(text: Bytes, codepoints: seq<nat>, bytes: Bytes) {
    && Scalars(codepoints) && text == EncodeAll(codepoints) && |codepoints| == |bytes|
    && forall i :: 0 <= i < |bytes| ==> ByteOf(codepoints[i]) == Some(bytes[i])
  }

  lemma {:induction false} MisreadIsRecovered(text: Bytes, codepoints: seq<nat>, bytes: Bytes)
    requires Misread(text, codepoints, bytes)
    ensures Recovered(text) == Some(bytes)
    decreases |bytes|
  {
    hide ByteOf, Encode, DecodeAt;
    if bytes != [] {
      var rest := EncodeAll(codepoints[1..]);
      DecodeHead(codepoints[0], rest);
      assert text[|Encode(codepoints[0])|..] == rest;
      MisreadIsRecovered(rest, codepoints[1..], bytes[1..]);
      DecodeMeetsGrammar(text, 0);
      assert bytes == [bytes[0]] + bytes[1..];
    }
  }

  lemma {:induction false} RecoveredIsMisread(text: Bytes) returns (codepoints: seq<nat>)
    requires Recovered(text).Some?
    ensures Misread(text, codepoints, Recovered(text).value)
    decreases |text|
  {
    hide ByteOf, Encode, DecodeAt;
    codepoints := [];
    if text != [] {
      var d := DecodeAt(text, 0);
      DecodeMeetsGrammar(text, 0);
      var rest := RecoveredIsMisread(text[d.next..]);
      codepoints := [d.codepoint] + rest;
      assert codepoints[1..] == rest;
      assert text == text[0..d.next] + text[d.next..];
    }
  }

  /** A text that is a misreading of UTF-8 is turned back into it when that has fewer markers, and is
      left alone otherwise. */
  lemma RepairInvertsMisreading(text: Bytes, codepoints: seq<nat>, bytes: Bytes)
    requires Misread(text, codepoints, bytes) && WellFormed(bytes)
    ensures Repaired(text) == if Markers(bytes) < Markers(text) then bytes else text
  {
    MisreadIsRecovered(text, codepoints, bytes);
  }

  function CharsOf(bytes: Bytes): seq<nat> {
    seq(|bytes|, i requires 0 <= i < |bytes| => CharOf(bytes[i]))
  }

  /** The markers: the first characters of misread two- and three-byte sequences, two control characters, and
      a misread replacement character. */
  lemma MarkersAre()
    ensures MARKERS == [Encode('\U{C2}' as nat), Encode('\U{C3}' as nat), Encode('\U{E2}' as nat),
                        Encode(0x80), Encode(0x99), EncodeAll(CharsOf(Encode(0xFFFD)))]
  {
    var misread := CharsOf(Encode(0xFFFD));
    assert Encode(0xFFFD) == [0xEF, 0xBF, 0xBD] && misread == [0xEF, 0xBF, 0xBD];
    assert misread[1..] == [0xBF, 0xBD] && misread[1..][1..] == [0xBD] && misread[1..][1..][1..] == [];
    assert EncodeAll(misread) == Encode(0xEF) + EncodeAll(misread[1..]);
    assert EncodeAll(misread[1..]) == Encode(0xBF) + EncodeAll(misread[1..][1..]);
    assert EncodeAll(misread[1..][1..]) == Encode(0xBD) + EncodeAll(misread[1..][1..][1..]);
    assert Encode(0xEF) == [0xC3, 0xAF] && Encode(0xBF) == [0xC2, 0xBF] && Encode(0xBD) == [0xC2, 0xBD];
    assert Encode(0xC2) == [0xC3, 0x82] && Encode(0xC3) == [0xC3, 0x83] && Encode(0xE2) == [0xC3, 0xA2];
    assert Encode(0x80) == [0xC2, 0x80] && Encode(0x99) == [0xC2, 0x99];
    assert EncodeAll(misread) == [0xC3, 0xAF, 0xC2, 0xBF, 0xC2, 0xBD];
  }

  /** Mojibake: bytes read as Windows-1252 and written in UTF-8. */
  function Garbled(bytes: Bytes): Bytes {
    EncodeAll(CharsOf(bytes))
  }

  lemma RepairInvertsMojibake(bytes: Bytes)
    requires WellFormed(bytes)
    ensures Repaired(Garbled(bytes)) == if Markers(bytes) < Markers(Garbled(bytes)) then bytes else Garbled(bytes)
  {
    hide CharOf, ByteOf, Markers, WellFormed;
    forall i | 0 <= i < |bytes|
      ensures Scalar(CharsOf(bytes)[i]) && ByteOf(CharsOf(bytes)[i]) == Some(bytes[i])
    {
      CharOfGivesByte(bytes[i]);
    }
    RepairInvertsMisreading(Garbled(bytes), CharsOf(bytes), bytes);
  }

  /** The repair changes a text only into well-formed UTF-8 with strictly fewer markers of which the text
      is a misreading. */
  lemma RepairOnlyUndoesMisreading(text: Bytes)
    ensures || Repaired(text) == text
            || (&& Markers(Repaired(text)) < Markers(text) && WellFormed(Repaired(text))
                && exists codepoints :: Misread(text, codepoints, Repaired(text)))
  {
    hide Markers, WellFormed, Misread, Recovered;
    if Repaired(text) != text {
      var codepoints := RecoveredIsMisread(text);
      assert Misread(text, codepoints, Repaired(text));
    }
  }

  /** Whether every character of a text decodes. */
  lemma {:induction false} WellFormedDecodes(text: Bytes)
    requires text != []
    ensures var d := DecodeAt(text, 0);
            0 < d.next <= |text| && (WellFormed(text) <==> d.ok && WellFormed(text[d.next..]))
  {
    hide DecodeAt, Encode;
    var d := DecodeAt(text, 0);
    DecodeMeetsGrammar(text, 0);
    if WellFormed(text) {
      WellFormedHead(text);
    } else if d.ok {
      AcceptedIsChar(text, 0);
      assert text[0..0 + d.next] == text[..d.next];
    }
  }

  lemma RecoveredAt(input: Bytes, offset: nat)
    requires offset < |input|
    ensures var d := DecodeAt(input, offset);
            var b := ByteOf(d.codepoint);
            && offset < d.next <= |input|
            && Recovered(input[offset..])
               == (if !d.ok || b == None then None else Prepend([b.value], Recovered(input[d.next..])))
  {
    hide DecodeAt, ByteOf, Encode;
    DecodeSuffix(input, offset);
    DecodeMeetsGrammar(input, offset);
    var d := DecodeAt(input, offset);
    assert input[offset..][d.next - offset..] == input[d.next..];
  }

  lemma WellFormedAt(input: Bytes, offset: nat)
    requires offset < |input|
    ensures var d := DecodeAt(input, offset);
            && offset < d.next <= |input|
            && (WellFormed(input[offset..]) <==> d.ok && WellFormed(input[d.next..]))
            && (d.ok ==> input[..offset] + Encode(d.codepoint) == input[..d.next])
  {
    hide DecodeAt, Encode, WellFormed;
    DecodeSuffix(input, offset);
    DecodeMeetsGrammar(input, offset);
    WellFormedDecodes(input[offset..]);
    var d := DecodeAt(input, offset);
    assert input[offset..][d.next - offset..] == input[d.next..];
  }

  method RepairWindows1252Mojibake(input: Bytes) returns (result: Bytes)
    ensures result == Repaired(input)
  {
    hide DecodeAt, ByteOf, Encode, Markers, WellFormed, Recovered;
    assert Recovered([]) == Some([]) && WellFormed([]) by { EmptyText(); }
    var recoveredBytes: Bytes := [];
    var offset := 0;
    assert input[offset..] == input;
    PrependTwice([], 0, Recovered(input));
    while offset < |input|
      invariant offset <= |input|
      invariant Recovered(input) == Prepend(recoveredBytes, Recovered(input[offset..]))
      decreases |input| - offset
    {
      RecoveredAt(input, offset);
      var codepoint, next, valid := DecodeOne(input, offset);
      var recovered := Windows1252Byte(codepoint);
      if !valid || recovered == None {
        return input;
      }
      PrependTwice(recoveredBytes, recovered.value, Recovered(input[next..]));
      recoveredBytes := recoveredBytes + [recovered.value];
      offset := next;
    }
    PrependTwice(recoveredBytes, 0, None);
    assert input[offset..] == [];
    var repaired := [];
    offset := 0;
    var entirelyValid := true;
    assert recoveredBytes[offset..] == recoveredBytes;
    while offset < |recoveredBytes|
      invariant offset <= |recoveredBytes|
      invariant entirelyValid ==> repaired == recoveredBytes[..offset]
      invariant WellFormed(recoveredBytes) <==> entirelyValid && WellFormed(recoveredBytes[offset..])
      decreases |recoveredBytes| - offset
    {
      WellFormedAt(recoveredBytes, offset);
      var codepoint, next, ok := DecodeOne(recoveredBytes, offset);
      if !ok {
        entirelyValid := false;
      }
      repaired := repaired + Encode(codepoint);
      offset := next;
    }
    assert recoveredBytes[offset..] == [] && recoveredBytes[..offset] == recoveredBytes;
    var after := MojibakeMarkers(repaired);
    var before := MojibakeMarkers(input);
    return if entirelyValid && after < before then repaired else input;
  }

  lemma EmptyText()
    ensures Recovered([]) == Some([]) && WellFormed([])
  {
  }
}
