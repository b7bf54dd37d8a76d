/** The UTF-8 encoder and decoder of the news text normaliser, against RFC 3629. */
module Utf8 {

  type Byte = b: int | 0 <= b < 256

  type Bytes = seq<Byte>

  /** A Unicode scalar value: RFC 3629 section 3 excludes the surrogates and stops at U+10FFFF. */
  predicate Scalar(codepoint: nat) {
    codepoint <= 0x10FFFF && !Surrogate(codepoint)
  }

  predicate Surrogate(codepoint: nat) {
    0xD800 <= codepoint <= 0xDFFF
  }

  // ---------------------------------------------------------------- the grammar of RFC 3629, section 4

  predicate Tail(b: Byte) {
    0x80 <= b <= 0xBF
  }

  predicate IsUtf8Two(s: Bytes) {
    |s| == 2 && 0xC2 <= s[0] <= 0xDF && Tail(s[1])
  }

  predicate IsUtf8Three(s: Bytes) {
    && |s| == 3 && Tail(s[2])
    && (|| (s[0] == 0xE0 && 0xA0 <= s[1] <= 0xBF)
        || (0xE1 <= s[0] <= 0xEC && Tail(s[1]))
        || (s[0] == 0xED && 0x80 <= s[1] <= 0x9F)
        || (0xEE <= s[0] <= 0xEF && Tail(s[1])))
  }

  predicate IsUtf8Four(s: Bytes) {
    && |s| == 4 && Tail(s[2]) && Tail(s[3])
    && (|| (s[0] == 0xF0 && 0x90 <= s[1] <= 0xBF)
        || (0xF1 <= s[0] <= 0xF3 && Tail(s[1]))
        || (s[0] == 0xF4 && 0x80 <= s[1] <= 0x8F))
  }

  predicate IsUtf8Char(s: Bytes) {
    (|s| == 1 && s[0] <= 0x7F) || IsUtf8Two(s) || IsUtf8Three(s) || IsUtf8Four(s)
  }

  /** Text in UTF-8: a concatenation of UTF8-char. */
  predicate WellFormed(text: Bytes) {
    text == [] || exists n: nat | 1 <= n <= 4 && n <= |text| :: IsUtf8Char(text[..n]) && WellFormed(text[n..])
  }

  /** A UTF8-char stands at this offset. */
  predicate CharAt(input: Bytes, offset: nat, length: nat) {
    offset + length <= |input| && IsUtf8Char(input[offset..offset + length])
  }

  // ---------------------------------------------------------------- the encoder

  /** What AppendUtf8 appends. A shift by six bits is a division by 64, the mask 0x3F a remainder modulo
      64, and the marker bits are added since they never overlap the payload. */
  function Encode(codepoint: nat): (s: Bytes)
    ensures 1 <= |s| <= 4
  {
    if codepoint <= 0x7F then
      [codepoint]
    else if codepoint <= 0x7FF then
      [0xC0 + codepoint / 64, 0x80 + codepoint % 64]
    else if codepoint <= 0xFFFF && !Surrogate(codepoint) then
      [0xE0 + codepoint / 4096, 0x80 + codepoint / 64 % 64, 0x80 + codepoint % 64]
    else if codepoint <= 0x10FFFF then
      [0xF0 + codepoint / 262144, 0x80 + codepoint / 4096 % 64, 0x80 + codepoint / 64 % 64, 0x80 + codepoint % 64]
    else
      [0xEF, 0xBF, 0xBD]
  }

  function EncodeAll(codepoints: seq<nat>): Bytes {
    if codepoints == [] then [] else Encode(codepoints[0]) + EncodeAll(codepoints[1..])
  }

  predicate Scalars(codepoints: seq<nat>) {
    forall i :: 0 <= i < |codepoints| ==> Scalar(codepoints[i])
  }

  // ---------------------------------------------------------------- the decoder

  datatype Decoded = Decoded(codepoint: nat, next: nat, ok: bool)

  /** How many continuation bytes the first byte announces: `(first & 0xE0) == 0xC0` and so on. */
  datatype Lead = Lead(count: nat, payload: nat, minimum: nat) | NoLead

  function LeadOf(first: Byte): (lead: Lead)
    ensures lead.Lead? ==> 1 <= lead.count <= 3
  {
    if first / 32 == 6 then Lead(1, first % 32, 0x80)
    else if first / 16 == 14 then Lead(2, first % 16, 0x800)
    else if first / 8 == 30 then Lead(3, first % 8, 0x10000)
    else NoLead
  }

  /** The payload of the first byte followed by that of n continuation bytes, six bits each. */
  function Joined(value: nat, tails: Bytes): nat {
    if tails == [] then value else 64 * Joined(value, tails[..|tails| - 1]) + tails[|tails| - 1] % 64
  }

  predicate AllTails(tails: Bytes) {
    forall i :: 0 <= i < |tails| ==> tails[i] / 64 == 2
  }

  function Failed(next: nat): Decoded {
    Decoded(0xFFFD, next, false)
  }

  /** What DecodeOne yields at an offset: the code point, or U+FFFD and failure. */
  function DecodeAt(input: Bytes, offset: nat): Decoded
    requires offset < |input|
  {
    var first := input[offset];
    if first < 0x80 then
      Decoded(first, offset + 1, true)
    else
      var lead := LeadOf(first);
      if lead == NoLead || offset + lead.count >= |input| then
        Failed(offset + 1)
      else
        var tails := input[offset + 1..offset + lead.count + 1];
        var value := Joined(lead.payload, tails);
        if !AllTails(tails) then Failed(offset + 1)
        else if value < lead.minimum || !Scalar(value) then Failed(offset + lead.count + 1)
        else Decoded(value, offset + lead.count + 1, true)
  }

  /** DecodeOne: reads continuation bytes one by one. */
  method DecodeOne(input: Bytes, offset: nat) returns (codepoint: nat, next: nat, ok: bool)
    requires offset < |input|
    ensures Decoded(codepoint, next, ok) == DecodeAt(input, offset)
  {
    var first := input[offset];
    if first < 0x80 {
      return first, offset + 1, true;
    }
    var lead := LeadOf(first);
    if lead == NoLead || offset + lead.count >= |input| {
      return 0xFFFD, offset + 1, false;
    }
    ghost var tails := input[offset + 1..offset + lead.count + 1];
    var value := lead.payload;
    var i := 1;
    while i <= lead.count
      invariant 1 <= i <= lead.count + 1
      invariant value == Joined(lead.payload, tails[..i - 1]) && AllTails(tails[..i - 1])
    {
      var tail := input[offset + i];
      assert tail == tails[i - 1];
      if tail / 64 != 2 {
        return 0xFFFD, offset + 1, false;
      }
      assert tails[..i][..i - 1] == tails[..i - 1];
      value := 64 * value + tail % 64;
      i := i + 1;
    }
    assert tails[..lead.count] == tails;
    if value < lead.minimum || !Scalar(value) {
      return 0xFFFD, offset + lead.count + 1, false;
    }
    return value, offset + lead.count + 1, true;
  }

  // ---------------------------------------------------------------- the encoder meets the standard

  /** Every scalar value is encoded as a UTF8-char. */
  lemma EncodedIsChar(codepoint: nat)
    requires Scalar(codepoint)
    ensures IsUtf8Char(Encode(codepoint))
  {
    if 0x7FF < codepoint <= 0xFFFF {
      ThreeByteParts(codepoint);
    } else if codepoint > 0xFFFF {
      FourByteParts(codepoint);
    }
  }

  lemma ThreeByteParts(codepoint: nat)
    requires 0x7FF < codepoint <= 0xFFFF
    ensures codepoint == 4096 * (codepoint / 4096) + 64 * (codepoint / 64 % 64) + codepoint % 64
  {
  }

  lemma FourByteParts(codepoint: nat)
    requires codepoint <= 0x10FFFF
    ensures codepoint == 262144 * (codepoint / 262144) + 4096 * (codepoint / 4096 % 64)
                         + 64 * (codepoint / 64 % 64) + codepoint % 64
    ensures codepoint / 262144 <= 4
  {
    var sixes := codepoint / 64;
    var twelves := sixes / 64;
    assert codepoint / 4096 == twelves;
    assert codepoint / 262144 == twelves / 64;
  }

  /** The scalar value a UTF8-char encodes. */
  function ValueOf(s: Bytes): (codepoint: nat)
    requires IsUtf8Char(s)
    ensures Scalar(codepoint) && Encode(codepoint) == s
  {
    if |s| == 1 then s[0]
    else if |s| == 2 then 64 * (s[0] as int - 0xC0) + (s[1] as int - 0x80)
    else if |s| == 3 then ThreeByteValue(s)
    else FourByteValue(s)
  }

  function ThreeByteValue(s: Bytes): (codepoint: nat)
    requires IsUtf8Three(s)
    ensures Scalar(codepoint) && Encode(codepoint) == s
  {
    Sixes(0, s[0] as int - 0xE0, s[1] as int - 0x80, s[2] as int - 0x80);
    4096 * (s[0] as int - 0xE0) + 64 * (s[1] as int - 0x80) + (s[2] as int - 0x80)
  }

  function FourByteValue(s: Bytes): (codepoint: nat)
    requires IsUtf8Four(s)
    ensures Scalar(codepoint) && Encode(codepoint) == s
  {
    Sixes(s[0] as int - 0xF0, s[1] as int - 0x80, s[2] as int - 0x80, s[3] as int - 0x80);
    262144 * (s[0] as int - 0xF0) + 4096 * (s[1] as int - 0x80) + 64 * (s[2] as int - 0x80) + (s[3] as int - 0x80)
  }

  /** A number put together from groups of six bits falls apart into them again. */
  lemma Sixes(a: nat, b: nat, c: nat, d: nat)
    requires b < 64 && c < 64 && d < 64
    ensures var n := 262144 * a + 4096 * b + 64 * c + d;
            n / 262144 == a && n / 4096 == 64 * a + b && n / 4096 % 64 == b && n / 64 % 64 == c && n % 64 == d
  {
    var n := 262144 * a + 4096 * b + 64 * c + d;
    var thirds := 4096 * a + 64 * b + c;
    assert n == 64 * thirds + d;
    assert n / 64 == thirds;
    assert thirds == 64 * (64 * a + b) + c;
    assert thirds / 64 == 64 * a + b;
  }

  /** AppendUtf8 appends well-formed text for every number except a surrogate, which its four-byte branch
      turns into an ill-formed sequence; numbers past U+10FFFF become U+FFFD. */
  lemma EncodedIsWellFormed(codepoint: nat)
    ensures WellFormed(Encode(codepoint)) <==> !Surrogate(codepoint)
    ensures codepoint > 0x10FFFF ==> Encode(codepoint) == Encode(0xFFFD)
  {
    var s := Encode(codepoint);
    if Scalar(codepoint) {
      EncodedIsChar(codepoint);
      assert s[..|s|] == s && s[|s|..] == [];
    } else if codepoint > 0x10FFFF {
      assert s[..3] == s && s[3..] == [];
    }
  }

  // ---------------------------------------------------------------- the decoder meets the standard

  lemma OneTail(payload: nat, tails: Bytes)
    requires |tails| == 1
    ensures Joined(payload, tails) == 64 * payload + tails[0] % 64
    ensures AllTails(tails) <==> Tail(tails[0])
  {
  }

  lemma TwoTails(payload: nat, tails: Bytes)
    requires |tails| == 2
    ensures Joined(payload, tails) == 64 * (64 * payload + tails[0] % 64) + tails[1] % 64
    ensures AllTails(tails) <==> Tail(tails[0]) && Tail(tails[1])
  {
    OneTail(payload, tails[..1]);
  }

  lemma ThreeTails(payload: nat, tails: Bytes)
    requires |tails| == 3
    ensures Joined(payload, tails) == 64 * (64 * (64 * payload + tails[0] % 64) + tails[1] % 64) + tails[2] % 64
    ensures AllTails(tails) <==> Tail(tails[0]) && Tail(tails[1]) && Tail(tails[2])
  {
    TwoTails(payload, tails[..2]);
  }

  /** The value DecodeOne joins from a whole UTF8-char is the one it encodes, within its bounds. */
  lemma CharValue(s: Bytes)
    requires IsUtf8Char(s) && |s| > 1
    ensures var lead := LeadOf(s[0]);
            lead.Lead? && lead.count == |s| - 1 && AllTails(s[1..])
                    && Joined(lead.payload, s[1..]) == ValueOf(s) >= lead.minimum
  {
    var lead := LeadOf(s[0]);
    if |s| == 2 {
      OneTail(lead.payload, s[1..]);
    } else if |s| == 3 {
      TwoTails(lead.payload, s[1..]);
    } else {
      ThreeTails(lead.payload, s[1..]);
    }
  }

  /** A UTF8-char at the offset decodes to its scalar value, and just past it. */
  lemma CharDecodes(input: Bytes, offset: nat, length: nat)
    requires CharAt(input, offset, length)
    ensures offset < |input|
    ensures DecodeAt(input, offset) == Decoded(ValueOf(input[offset..offset + length]), offset + length, true)
  {
    hide Joined, AllTails, LeadOf;
    var s := input[offset..offset + length];
    assert input[offset] == s[0];
    if length > 1 {
      CharValue(s);
      assert input[offset + 1..offset + length] == s[1..];
      assert s[0] >= 0x80;
    }
  }

  /** What DecodeOne accepts is a UTF8-char, the encoding of its result. */
  lemma AcceptedIsChar(input: Bytes, offset: nat)
    requires offset < |input| && DecodeAt(input, offset).ok
    ensures var d := DecodeAt(input, offset);
            offset < d.next <= offset + 4 && CharAt(input, offset, d.next - offset)
  {
    var first := input[offset];
    var d := DecodeAt(input, offset);
    var s := input[offset..d.next];
    assert s[0] == first;
    if first >= 0x80 {
      var lead := LeadOf(first);
      var tails := input[offset + 1..offset + lead.count + 1];
      assert forall i :: 0 <= i < |tails| ==> tails[i] == s[i + 1];
      if lead.count == 1 {
        OneTail(lead.payload, tails);
      } else if lead.count == 2 {
        TwoTails(lead.payload, tails);
      } else {
        ThreeTails(lead.payload, tails);
      }
    }
    assert s == input[offset..offset + (d.next - offset)];
  }

  /** DecodeOne succeeds exactly on the sequences of RFC 3629 section 4 and yields the scalar value the
      sequence encodes; it always advances, by no more than four bytes and not past the end; and a
      failure yields U+FFFD. */
  lemma DecodeMeetsGrammar(input: Bytes, offset: nat)
    requires offset < |input|
    ensures var d := DecodeAt(input, offset);
            && offset < d.next <= |input| && d.next <= offset + 4
            && (d.ok <==> exists length :: 1 <= length <= 4 && CharAt(input, offset, length))
            && (d.ok ==> Scalar(d.codepoint) && input[offset..d.next] == Encode(d.codepoint))
            && (!d.ok ==> d.codepoint == 0xFFFD)
  {
    var d := DecodeAt(input, offset);
    if d.ok {
      AcceptedIsChar(input, offset);
      CharDecodes(input, offset, d.next - offset);
      assert offset + (d.next - offset) == d.next;
    } else if length: nat :| 1 <= length <= 4 && CharAt(input, offset, length) {
      CharDecodes(input, offset, length);
      assert false;
    }
  }

  /** Decoding undoes encoding, whatever surrounds the encoded character. */
  lemma DecodeUndoesEncode(before: Bytes, codepoint: nat, after: Bytes)
    requires Scalar(codepoint)
    ensures DecodeAt(before + Encode(codepoint) + after, |before|)
            == Decoded(codepoint, |before| + |Encode(codepoint)|, true)
  {
    var s := Encode(codepoint);
    var input := before + s + after;
    EncodedIsChar(codepoint);
    assert input[|before|..|before| + |s|] == s;
    CharDecodes(input, |before|, |s|);
    EncodeIsInjective(codepoint, ValueOf(s));
  }

  lemma EncodeIsInjective(a: nat, b: nat)
    requires Scalar(a) && Scalar(b) && Encode(a) == Encode(b)
    ensures a == b
  {
    if 0x7FF < a <= 0xFFFF {
      ThreeByteParts(a);
      ThreeByteParts(b);
    } else if a > 0xFFFF {
      FourByteParts(a);
      FourByteParts(b);
    }
  }

  // ---------------------------------------------------------------- whole texts

  lemma {:induction false} EncodedAllIsWellFormed(codepoints: seq<nat>)
    requires Scalars(codepoints)
    ensures WellFormed(EncodeAll(codepoints))
  {
    if codepoints != [] {
      var s, rest := Encode(codepoints[0]), EncodeAll(codepoints[1..]);
      EncodedAllIsWellFormed(codepoints[1..]);
      EncodedIsChar(codepoints[0]);
      assert (s + rest)[..|s|] == s && (s + rest)[|s|..] == rest;
    }
  }

  /** The code points of a well-formed text. */
  function CodePoints(text: Bytes): seq<nat>
    requires WellFormed(text)
  {
    if text == [] then
      []
    else
      var d := DecodeAt(text, 0);
      WellFormedHead(text);
      [d.codepoint] + CodePoints(text[d.next..])
  }

  lemma {:induction false} CodePointsEncodeTo(text: Bytes)
    requires WellFormed(text)
    ensures Scalars(CodePoints(text)) && EncodeAll(CodePoints(text)) == text
  {
    hide DecodeAt, Encode, IsUtf8Char;
    if text != [] {
      var d := DecodeAt(text, 0);
      WellFormedHead(text);
      CodePointsEncodeTo(text[d.next..]);
      assert CodePoints(text) == [d.codepoint] + CodePoints(text[d.next..]);
      assert CodePoints(text)[1..] == CodePoints(text[d.next..]);
      assert text == text[..d.next] + text[d.next..];
    }
  }

  lemma WellFormedHead(text: Bytes)
    requires WellFormed(text) && text != []
    ensures var d := DecodeAt(text, 0);
            d.ok && 0 < d.next <= |text| && Scalar(d.codepoint) && text[..d.next] == Encode(d.codepoint)
            && WellFormed(text[d.next..])
  {
    var n: nat :| 1 <= n <= 4 && n <= |text| && IsUtf8Char(text[..n]) && WellFormed(text[n..]);
    assert text[0..0 + n] == text[..n];
    CharDecodes(text, 0, n);
  }

  /** Decoding at an offset is decoding what starts there. */
  lemma DecodeSuffix(input: Bytes, offset: nat)
    requires offset < |input|
    ensures var d := DecodeAt(input[offset..], 0);
            DecodeAt(input, offset) == Decoded(d.codepoint, offset + d.next, d.ok)
  {
    hide Joined, AllTails;
    var lead := LeadOf(input[offset]);
    if lead.Lead? && offset + lead.count < |input| {
      assert input[offset..][0 + 1..0 + lead.count + 1] == input[offset + 1..offset + lead.count + 1];
    }
  }

  /** An encoded scalar value in front decodes first. */
  lemma DecodeHead(codepoint: nat, after: Bytes)
    requires Scalar(codepoint)
    ensures DecodeAt(Encode(codepoint) + after, 0) == Decoded(codepoint, |Encode(codepoint)|, true)
  {
    DecodeUndoesEncode([], codepoint, after);
    assert [] + Encode(codepoint) + after == Encode(codepoint) + after;
  }
}
