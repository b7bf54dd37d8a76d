/** Decoding of HTML character references in news text. */
module HtmlEntities {
  import opened Options
  import opened Utf8
  import opened Mojibake

  function Ascii(s: string): Bytes
    requires forall i :: 0 <= i < |s| ==> s[i] < 128 as char
  {
    seq(|s|, i requires 0 <= i < |s| => s[i] as int)
  }

  const AMPERSAND: Byte := '&' as int
  const SEMICOLON: Byte := ';' as int
  const HASH: Byte := '#' as int

  // ---------------------------------------------------------------- numeric references

  /** The value of a digit, none if the character is no digit of the base. */
  function Digit(c: Byte, hex: bool): Option<nat> {
    if '0' as int <= c <= '9' as int then Some(c - '0' as int)
    else if hex && 'a' as int <= c <= 'f' as int then Some(10 + c - 'a' as int)
    else if hex && 'A' as int <= c <= 'F' as int then Some(10 + c - 'A' as int)
    else None
  }

  function Base(hex: bool): nat {
    if hex then 16 else 10
  }

  predicate AllDigits(digits: Bytes, hex: bool) {
    forall i :: 0 <= i < |digits| ==> Digit(digits[i], hex).Some?
  }

  /** The number a string of digits denotes in positional notation. */
  function Numeral(digits: Bytes, hex: bool): nat
    requires AllDigits(digits, hex)
  {
    if digits == [] then 0
    else Base(hex) * Numeral(digits[..|digits| - 1], hex) + Digit(digits[|digits| - 1], hex).value
  }

  predicate IsHex(value: Bytes) {
    |value| > 2 && (value[1] == 'x' as int || value[1] == 'X' as int)
  }

  /** The scalar value a numeric reference stands for, `#` and digits or `#x` and hexadecimal digits: a
      scalar value other than zero. */
  function NumericValue(value: Bytes): (codepoint: Option<nat>) {
    if |value| < 2 || value[0] != HASH then None
    else
      var hex := IsHex(value);
      var digits := value[if hex then 2 else 1..];
      if AllDigits(digits, hex) && Numeral(digits, hex) != 0 && Scalar(Numeral(digits, hex))
      then Some(Numeral(digits, hex))
      else None
  }

  lemma {:induction false} NumeralGrows(digits: Bytes, hex: bool, n: nat)
    requires AllDigits(digits, hex) && n <= |digits|
    ensures Numeral(digits[..n], hex) <= Numeral(digits, hex)
    decreases |digits|
  {
    if n < |digits| {
      NumeralGrows(digits[..|digits| - 1], hex, n);
      assert digits[..|digits| - 1][..n] == digits[..n];
    } else {
      assert digits[..n] == digits;
    }
  }

  /** The division asks whether the next number would pass 0x10FFFF. */
  lemma OneDigitMore(digits: Bytes, c: Byte, hex: bool)
    requires AllDigits(digits, hex) && Digit(c, hex).Some?
    ensures AllDigits(digits + [c], hex)
    ensures Numeral(digits + [c], hex) == Base(hex) * Numeral(digits, hex) + Digit(c, hex).value
  {
    hide Base, Digit;
    assert (digits + [c])[..|digits|] == digits;
  }

  lemma RoomForDigit(parsed: nat, digit: nat, hex: bool)
    requires digit <= 0x10FFFF
    ensures parsed > (0x10FFFF - digit) / Base(hex) <==> Base(hex) * parsed + digit > 0x10FFFF
  {
  }

  lemma BaseIsSmall(hex: bool)
    ensures 2 <= Base(hex) <= 16
  {
  }

  lemma DigitIsSmall(c: Byte, hex: bool)
    ensures Digit(c, hex).Some? ==> Digit(c, hex).value < Base(hex)
  {
  }

  /** ParseNumericEntity: the test before each digit keeps the number within 0x10FFFF. */
  method ParseNumericEntity(value: Bytes) returns (codepoint: Option<nat>)
    ensures codepoint == NumericValue(value)
  {
    if |value| < 2 || value[0] != HASH {
      return None;
    }
    var hex := IsHex(value);
    var start := if hex then 2 else 1;
    hide Base, Digit;
    ghost var digits := value[start..];
    var parsed := 0;
    var i := start;
    while i < |value|
      invariant start <= i <= |value|
      invariant AllDigits(digits[..i - start], hex) && parsed == Numeral(digits[..i - start], hex) <= 0x10FFFF
    {
      var digit := Digit(value[i], hex);
      assert value[i] == digits[i - start];
      if digit == None {
        return None;
      }
      OneDigitMore(digits[..i - start], value[i], hex);
      assert digits[..i - start + 1] == digits[..i - start] + [value[i]];
      DigitIsSmall(value[i], hex);
      BaseIsSmall(hex);
      RoomForDigit(parsed, digit.value, hex);
      if parsed > (0x10FFFF - digit.value) / Base(hex) {
        if AllDigits(digits, hex) {
          NumeralGrows(digits, hex, i - start + 1);
        }
        return None;
      }
      parsed := Base(hex) * parsed + digit.value;
      i := i + 1;
    }
    assert digits[..i - start] == digits;
    if parsed == 0 || !Scalar(parsed) {
      return None;
    }
    return Some(parsed);
  }

  // ---------------------------------------------------------------- named references

  const NAMED: seq<(string, nat)> := [
    ("amp", 0x26), ("lt", 0x3C), ("gt", 0x3E), ("quot", 0x22), ("apos", 0x27),
    ("nbsp", 0x20), ("ndash", 0x2013), ("mdash", 0x2014), ("lsquo", 0x2018),
    ("rsquo", 0x2019), ("ldquo", 0x201C), ("rdquo", 0x201D)]

  predicate Names(name: string, entity: Bytes) {
    |name| == |entity| && forall i :: 0 <= i < |name| ==> name[i] as int == entity[i]
  }

  function NamedFrom(entity: Bytes, i: nat): Option<nat>
    requires i <= |NAMED|
    decreases |NAMED| - i
  {
    if i == |NAMED| then None else if Names(NAMED[i].0, entity) then Some(NAMED[i].1) else NamedFrom(entity, i + 1)
  }

  /** What stands between `&` and `;`: a numeric reference or else a name. */
  function EntityValue(entity: Bytes): Option<nat> {
    var numeric := NumericValue(entity);
    if numeric.Some? then numeric else NamedFrom(entity, 0)
  }

  method FindNamed(entity: Bytes) returns (codepoint: Option<nat>)
    ensures codepoint == NamedFrom(entity, 0)
  {
    var i := 0;
    while i < |NAMED|
      invariant i <= |NAMED|
      invariant NamedFrom(entity, 0) == NamedFrom(entity, i)
    {
      if Names(NAMED[i].0, entity) {
        return Some(NAMED[i].1);
      }
      i := i + 1;
    }
    return None;
  }

  // ---------------------------------------------------------------- decoding

  /** The first semicolon at or after a position. */
  function FirstSemicolon(text: Bytes, i: nat): (found: Option<nat>)
    ensures found.Some? ==> i <= found.value < |text| && text[found.value] == SEMICOLON
    ensures forall j: nat :: i <= j < |text| && (found.Some? ==> j < found.value) ==> text[j] != SEMICOLON
    decreases |text| - i
  {
    if i >= |text| then None else if text[i] == SEMICOLON then Some(i) else FirstSemicolon(text, i + 1)
  }

  /** The reference a text starts with: its value, and how many bytes it takes. At most sixteen bytes may
      lie between the ampersand and the semicolon's place. */
  function ReferenceAt(text: Bytes): (reference: Option<(nat, nat)>)
    ensures reference.Some? ==> 0 < reference.value.1 <= |text|
  {
    if text == [] || text[0] != AMPERSAND then None
    else
      var semicolon := FirstSemicolon(text, 1);
      if semicolon == None || semicolon.value > 16 then None
      else
        var codepoint := EntityValue(text[1..semicolon.value]);
        if codepoint == None then None else Some((codepoint.value, semicolon.value + 1))
  }

  /** What DecodeHtmlEntities yields: each reference replaced by its character, the rest copied. */
  function Decoded(text: Bytes): Bytes
    decreases |text|
  {
    if text == [] then []
    else
      var reference := ReferenceAt(text);
      if reference.Some? then Encode(reference.value.0) + Decoded(text[reference.value.1..])
      else [text[0]] + Decoded(text[1..])
  }

  method FindSemicolon(input: Bytes, position: nat) returns (found: Option<nat>)
    requires position <= |input|
    ensures found == FirstSemicolon(input, position)
  {
    var i := position;
    while i < |input|
      invariant position <= i <= |input|
      invariant FirstSemicolon(input, position) == FirstSemicolon(input, i)
    {
      if input[i] == SEMICOLON {
        return Some(i);
      }
      i := i + 1;
    }
    return None;
  }

  lemma {:induction false} SemicolonInSuffix(input: Bytes, i: nat, k: nat)
    requires i <= |input|
    ensures FirstSemicolon(input, i + k)
            == (var found := FirstSemicolon(input[i..], k); if found == None then None else Some(i + found.value))
    decreases |input| - i - k
  {
    if i + k < |input| && input[i + k] != SEMICOLON {
      SemicolonInSuffix(input, i, k + 1);
    }
  }

  /** The reference at an offset, from the first semicolon past its ampersand. */
  lemma ReferenceIs(input: Bytes, i: nat)
    requires i < |input| && input[i] == AMPERSAND
    ensures var semicolon := FirstSemicolon(input, i + 1);
            ReferenceAt(input[i..])
            == if semicolon == None || semicolon.value - i > 16 then None
               else var codepoint := EntityValue(input[i + 1..semicolon.value]);
                    if codepoint == None then None else Some((codepoint.value, semicolon.value + 1 - i))
  {
    hide EntityValue, FirstSemicolon;
    SemicolonInSuffix(input, i, 1);
    var semicolon := FirstSemicolon(input, i + 1);
    if semicolon.Some? {
      assert input[i..][1..semicolon.value - i] == input[i + 1..semicolon.value];
    }
  }

  lemma DecodeStep(input: Bytes, i: nat, output: Bytes)
    requires i < |input|
    ensures var reference := ReferenceAt(input[i..]);
            output + Decoded(input[i..])
            == if reference.Some? then (output + Encode(reference.value.0)) + Decoded(input[i + reference.value.1..])
               else (output + [input[i]]) + Decoded(input[i + 1..])
  {
    hide ReferenceAt, Encode;
    var reference := ReferenceAt(input[i..]);
    if reference.Some? {
      assert input[i..][reference.value.1..] == input[i + reference.value.1..];
    } else {
      assert input[i..][1..] == input[i + 1..];
    }
  }

  method DecodeHtmlEntities(input: Bytes) returns (output: Bytes)
    ensures output == Decoded(input)
  {
    hide EntityValue, FirstSemicolon, Encode, Decoded, ReferenceAt;
    output := [];
    var i := 0;
    assert input[i..] == input && [] + Decoded(input) == Decoded(input);
    while i < |input|
      invariant i <= |input|
      invariant Decoded(input) == output + Decoded(input[i..])
      decreases |input| - i
    {
      DecodeStep(input, i, output);
      if input[i] != AMPERSAND {
        NoReference(input[i..]);
        output := output + [input[i]];
        i := i + 1;
        continue;
      }
      ReferenceIs(input, i);
      var semicolon := FindSemicolon(input, i + 1);
      if semicolon == None || semicolon.value - i > 16 {
        output := output + [input[i]];
        i := i + 1;
        continue;
      }
      var entity := input[i + 1..semicolon.value];
      Either(entity);
      var codepoint := ParseNumericEntity(entity);
      if codepoint == None {
        codepoint := FindNamed(entity);
      }
      if codepoint == None {
        output := output + [input[i]];
        i := i + 1;
        continue;
      }
      output := output + Encode(codepoint.value);
      i := semicolon.value + 1;
    }
    NothingLeft(input[i..]);
  }

  lemma NoReference(text: Bytes)
    requires text != [] && text[0] != AMPERSAND
    ensures ReferenceAt(text) == None
  {
  }

  lemma NothingLeft(text: Bytes)
    requires text == []
    ensures Decoded(text) == []
  {
  }

  lemma Either(entity: Bytes)
    ensures EntityValue(entity) == if NumericValue(entity).Some? then NumericValue(entity) else NamedFrom(entity, 0)
  {
  }

  // ---------------------------------------------------------------- what decoding does

  /** AppendUtf8 is only ever given a scalar value here, never zero. */
  lemma ReferencesAreScalars(entity: Bytes)
    ensures EntityValue(entity).Some? ==> Scalar(EntityValue(entity).value) && EntityValue(entity).value != 0
  {
    NamedIsScalar(entity, 0);
  }

  lemma {:induction false} NamedIsScalar(entity: Bytes, i: nat)
    requires i <= |NAMED|
    ensures NamedFrom(entity, i).Some? ==> Scalar(NamedFrom(entity, i).value) && NamedFrom(entity, i).value != 0
    decreases |NAMED| - i
  {
    if i < |NAMED| {
      NamedIsScalar(entity, i + 1);
    }
  }

  predicate Plain(entity: Bytes) {
    forall i :: 0 <= i < |entity| ==> entity[i] < 0x80 && entity[i] != SEMICOLON
  }

  lemma {:induction false} NamesArePlain(entity: Bytes, i: nat)
    requires i <= |NAMED| && NamedFrom(entity, i).Some?
    ensures Plain(entity)
    decreases |NAMED| - i
  {
    if Names(NAMED[i].0, entity) {
      PlainName(i);
      forall k | 0 <= k < |entity|
        ensures entity[k] < 0x80 && entity[k] != SEMICOLON
      {
        assert NAMED[i].0[k] as int == entity[k];
      }
    } else {
      NamesArePlain(entity, i + 1);
    }
  }

  lemma PlainName(i: nat)
    requires i < |NAMED|
    ensures forall k :: 0 <= k < |NAMED[i].0| ==> 'a' <= NAMED[i].0[k] <= 'z'
  {
  }

  lemma EntitiesArePlain(entity: Bytes)
    requires EntityValue(entity).Some?
    ensures Plain(entity)
  {
    if NumericValue(entity).Some? {
      var start := if IsHex(entity) then 2 else 1;
      var digits := entity[start..];
      forall i | 0 <= i < |entity|
        ensures entity[i] < 0x80 && entity[i] != SEMICOLON
      {
        assert i >= start ==> entity[i] == digits[i - start];
      }
    } else {
      NamesArePlain(entity, 0);
    }
  }

  lemma {:induction false} SemicolonIsFirst(text: Bytes, i: nat, k: nat)
    requires i <= k < |text| && text[k] == SEMICOLON && forall j :: i <= j < k ==> text[j] != SEMICOLON
    ensures FirstSemicolon(text, i) == Some(k)
    decreases k - i
  {
    if i < k {
      SemicolonIsFirst(text, i + 1, k);
    }
  }

  /** A reference of at most fifteen characters, wherever it stands, is replaced by its character; a longer
      one loses nothing: its ampersand is copied and decoding goes on behind it. */
  lemma ReferenceIsReplaced(entity: Bytes, rest: Bytes)
    requires EntityValue(entity).Some?
    ensures Decoded([AMPERSAND] + entity + [SEMICOLON] + rest)
            == if |entity| <= 15 then Encode(EntityValue(entity).value) + Decoded(rest)
               else [AMPERSAND] + Decoded(entity + [SEMICOLON] + rest)
  {
    hide EntityValue, Encode;
    var text := [AMPERSAND] + entity + [SEMICOLON] + rest;
    EntitiesArePlain(entity);
    SemicolonIsFirst(text, 1, |entity| + 1);
    assert text[1..|entity| + 1] == entity;
    assert text[|entity| + 2..] == rest;
    assert text[1..] == entity + [SEMICOLON] + rest;
  }

  /** The five markup characters, by their references. */
  function EscapedByte(b: Byte): Bytes {
    if b == '&' as int then Ascii("&amp;")
    else if b == '<' as int then Ascii("&lt;")
    else if b == '>' as int then Ascii("&gt;")
    else if b == '"' as int then Ascii("&quot;")
    else if b == '\'' as int then Ascii("&apos;")
    else [b]
  }

  function Escaped(text: Bytes): Bytes {
    if text == [] then [] else EscapedByte(text[0]) + Escaped(text[1..])
  }

  lemma EscapedByteDecodes(b: Byte, rest: Bytes)
    ensures Decoded(EscapedByte(b) + rest) == [b] + Decoded(rest)
  {
    if b == '&' as int {
      NameDecodes(0, "amp", b, rest);
    } else if b == '<' as int {
      NameDecodes(1, "lt", b, rest);
    } else if b == '>' as int {
      NameDecodes(2, "gt", b, rest);
    } else if b == '"' as int {
      NameDecodes(3, "quot", b, rest);
    } else if b == '\'' as int {
      NameDecodes(4, "apos", b, rest);
    } else {
      assert ([b] + rest)[1..] == rest;
    }
  }

  /** The twelve names and their characters; a no-break space becomes a plain one. */
  function NamedCharacter(name: string): Option<char> {
    match name
    case "amp" => Some('&')
    case "lt" => Some('<')
    case "gt" => Some('>')
    case "quot" => Some('"')
    case "apos" => Some('\'')
    case "nbsp" => Some(' ')
    case "ndash" => Some('\U{2013}')
    case "mdash" => Some('\U{2014}')
    case "lsquo" => Some('\U{2018}')
    case "rsquo" => Some('\U{2019}')
    case "ldquo" => Some('\U{201C}')
    case "rdquo" => Some('\U{201D}')
    case _ => None
  }

  lemma {:induction false} NamedIs(name: string, i: nat)
    requires i <= |NAMED| && forall k :: 0 <= k < |name| ==> name[k] < 128 as char
    requires forall k :: 0 <= k < i ==> NAMED[k].0 != name
    ensures NamedFrom(Ascii(name), i)
            == if NamedCharacter(name).Some? then Some(NamedCharacter(name).value as nat) else None
    decreases |NAMED| - i
  {
    if i < |NAMED| {
      if NAMED[i].0 != name {
        OnlyItsName(NAMED[i].0, name);
        NamedIs(name, i + 1);
      } else {
        EntryIsNamed(i);
      }
    } else {
      NoEntryLeft(name);
    }
  }

  lemma OnlyItsName(name: string, other: string)
    requires name != other && forall k :: 0 <= k < |other| ==> other[k] < 128 as char
    ensures !Names(name, Ascii(other))
  {
    if |name| == |other| {
      var k :| 0 <= k < |name| && name[k] != other[k];
    }
  }

  lemma EntryIsNamed(i: nat)
    requires i < |NAMED|
    ensures NamedCharacter(NAMED[i].0) == Some(NAMED[i].1 as char)
  {
  }

  lemma NoEntryLeft(name: string)
    requires forall k :: 0 <= k < |NAMED| ==> NAMED[k].0 != name
    ensures NamedCharacter(name) == None
  {
    assert NAMED[0].0 == "amp" && NAMED[1].0 == "lt" && NAMED[2].0 == "gt" && NAMED[3].0 == "quot";
    assert NAMED[4].0 == "apos" && NAMED[5].0 == "nbsp" && NAMED[6].0 == "ndash" && NAMED[7].0 == "mdash";
    assert NAMED[8].0 == "lsquo" && NAMED[9].0 == "rsquo" && NAMED[10].0 == "ldquo" && NAMED[11].0 == "rdquo";
  }

  lemma NamesAreLetters(name: string)
    requires NamedCharacter(name).Some?
    ensures 2 <= |name| <= 5 && forall k :: 0 <= k < |name| ==> 'a' <= name[k] <= 'z'
  {
  }

  /** Each of the twelve references is replaced by its character wherever it stands. */
  lemma NamedReference(name: string, rest: Bytes)
    requires NamedCharacter(name).Some?
    ensures 2 <= |name| <= 5 && forall k :: 0 <= k < |name| ==> 'a' <= name[k] <= 'z'
    ensures Decoded([AMPERSAND] + Ascii(name) + [SEMICOLON] + rest)
            == Encode(NamedCharacter(name).value as nat) + Decoded(rest)
  {
    hide NamedCharacter, Decoded, Encode, NamedFrom;
    NamesAreLetters(name);
    NamedIs(name, 0);
    assert Ascii(name)[0] != HASH;
    ReferenceIsReplaced(Ascii(name), rest);
  }

  /** The digits of decimal and hexadecimal numbers, with small or capital letters past nine. */
  const SMALL: string := "0123456789abcdef"
  const CAPITAL: string := "0123456789ABCDEF"

  predicate Glyphs(glyphs: Bytes) {
    glyphs == Ascii(SMALL) || glyphs == Ascii(CAPITAL)
  }

  /** A number as it is written. */
  function Written(n: nat, base: nat, glyphs: Bytes): Bytes
    requires 10 <= base <= |glyphs|
  {
    (if n < base then [] else Written(n / base, base, glyphs)) + [glyphs[n % base]]
  }

  lemma GlyphIsDigit(d: nat, hex: bool, glyphs: Bytes)
    requires Glyphs(glyphs) && d < if hex then 16 else 10
    ensures Digit(glyphs[d], hex) == Some(d)
  {
    assert SMALL[d] as int == if d < 10 then '0' as int + d else 'a' as int + d - 10;
    assert CAPITAL[d] as int == if d < 10 then '0' as int + d else 'A' as int + d - 10;
  }

  lemma LastDigit(n: nat, hex: bool)
    ensures var base := if hex then 16 else 10;
            Base(hex) * (n / base) + n % base == n && n / base <= n / 10 && (n >= base ==> n / base < n)
  {
  }

  lemma {:induction false} WrittenDenotes(n: nat, hex: bool, glyphs: Bytes)
    requires Glyphs(glyphs)
    ensures var base := if hex then 16 else 10; var digits := Written(n, base, glyphs);
            digits != [] && AllDigits(digits, hex) && Numeral(digits, hex) == n
    decreases n
  {
    var base := if hex then 16 else 10;
    LastDigit(n, hex);
    GlyphIsDigit(n % base, hex, glyphs);
    hide Digit, Base, Glyphs;
    var last := glyphs[n % base];
    if n >= base {
      WrittenDenotes(n / base, hex, glyphs);
      OneDigitMore(Written(n / base, base, glyphs), last, hex);
    } else {
      OneDigitMore([], last, hex);
      assert [] + [last] == [last];
    }
  }

  function PowerOfTen(k: nat): nat {
    if k == 0 then 1 else 10 * PowerOfTen(k - 1)
  }

  lemma {:induction false} WrittenIsShort(n: nat, hex: bool, glyphs: Bytes, k: nat)
    requires Glyphs(glyphs) && k > 0 && n < PowerOfTen(k)
    ensures |Written(n, if hex then 16 else 10, glyphs)| <= k
    decreases k
  {
    var base := if hex then 16 else 10;
    LastDigit(n, hex);
    hide Glyphs;
    if n >= base {
      assert n / 10 < PowerOfTen(k - 1);
      WrittenIsShort(n / base, hex, glyphs, k - 1);
    }
  }

  lemma SevenDigits()
    ensures PowerOfTen(7) == 10_000_000
  {
    assert PowerOfTen(3) == 1000;
    assert PowerOfTen(5) == 100_000;
  }

  /** Every scalar value other than zero may be referred to by its decimal number, and by its hexadecimal one in
      small or capital letters, wherever the reference stands. */
  lemma NumericReference(codepoint: nat, glyphs: Bytes, x: char, rest: Bytes)
    requires Scalar(codepoint) && codepoint != 0 && Glyphs(glyphs) && (x == 'x' || x == 'X')
    ensures Decoded(Ascii("&#") + Written(codepoint, 10, glyphs) + Ascii(";") + rest)
            == Encode(codepoint) + Decoded(rest)
    ensures Decoded(Ascii("&#") + [x as int] + Written(codepoint, 16, glyphs) + Ascii(";") + rest)
            == Encode(codepoint) + Decoded(rest)
  {
    hide Decoded, Encode, Written, Numeral, NamedFrom;
    SevenDigits();
    var decimal, hexadecimal := Written(codepoint, 10, glyphs), Written(codepoint, 16, glyphs);
    WrittenDenotes(codepoint, false, glyphs);
    WrittenIsShort(codepoint, false, glyphs, 7);
    assert !IsHex([HASH] + decimal);
    assert ([HASH] + decimal)[1..] == decimal;
    ReferenceIsReplaced([HASH] + decimal, rest);
    assert Ascii("&#") + decimal + Ascii(";") + rest == [AMPERSAND] + ([HASH] + decimal) + [SEMICOLON] + rest;
    WrittenDenotes(codepoint, true, glyphs);
    WrittenIsShort(codepoint, true, glyphs, 7);
    assert ([HASH, x as int] + hexadecimal)[2..] == hexadecimal;
    ReferenceIsReplaced([HASH, x as int] + hexadecimal, rest);
    assert Ascii("&#") + [x as int] + hexadecimal + Ascii(";") + rest
           == [AMPERSAND] + ([HASH, x as int] + hexadecimal) + [SEMICOLON] + rest;
  }

  lemma NameDecodes(i: nat, name: string, b: Byte, rest: Bytes)
    requires i < 5 && NAMED[i] == (name, b as nat) && b < 0x80
    requires forall k :: 0 <= k < |name| ==> name[k] < 128 as char
    ensures EscapedByte(b) == [AMPERSAND] + Ascii(name) + [SEMICOLON]
    ensures Decoded(EscapedByte(b) + rest) == [b] + Decoded(rest)
  {
    hide Decoded;
    var entity := Ascii(name);
    assert Names(name, entity);
    assert EscapedByte(b) == [AMPERSAND] + entity + [SEMICOLON];
    assert EntityValue(entity) == Some(b as nat);
    ReferenceIsReplaced(entity, rest);
  }

  /** Decoding undoes escaping, in one pass: nothing is decoded twice. */
  lemma {:induction false} DecodingUndoesEscaping(text: Bytes)
    ensures Decoded(Escaped(text)) == text
  {
    if text != [] {
      EscapedByteDecodes(text[0], Escaped(text[1..]));
      DecodingUndoesEscaping(text[1..]);
      assert text == [text[0]] + text[1..];
    }
  }

  lemma {:induction false} DropAscii(text: Bytes, n: nat)
    requires WellFormed(text) && n <= |text| && forall i :: 0 <= i < n ==> text[i] < 0x80
    ensures WellFormed(text[n..])
  {
    hide WellFormed;
    if n == 0 {
      assert text[0..] == text;
    } else {
      WellFormedHead(text);
      DropAscii(text[1..], n - 1);
      assert text[1..][n - 1..] == text[n..];
    }
  }

  lemma {:induction false} CopiesBytes(text: Bytes, n: nat)
    requires n <= |text| && forall i :: 0 <= i < n ==> ReferenceAt(text[i..]) == None
    ensures Decoded(text) == text[..n] + Decoded(text[n..])
  {
    hide ReferenceAt, Encode;
    if n == 0 {
      assert text[0..] == text;
    } else {
      forall i | 0 <= i < n - 1
        ensures ReferenceAt(text[1..][i..]) == None
      {
        assert text[1..][i..] == text[i + 1..];
      }
      assert ReferenceAt(text[0..]) == None && text[0..] == text;
      CopiesBytes(text[1..], n - 1);
      assert text[1..][n - 1..] == text[n..];
      assert text[..n] == [text[0]] + text[1..][..n - 1];
    }
  }

  lemma CharThenWellFormed(head: Bytes, rest: Bytes)
    requires IsUtf8Char(head) && WellFormed(rest)
    ensures WellFormed(head + rest)
  {
    assert (head + rest)[..|head|] == head && (head + rest)[|head|..] == rest;
  }

  /** Decoding keeps text well-formed. */
  lemma {:induction false} DecodingKeepsWellFormed(text: Bytes)
    requires WellFormed(text)
    ensures WellFormed(Decoded(text))
    decreases |text|
  {
    hide WellFormed, DecodeAt, ReferenceAt, Encode, EntityValue;
    if text == [] {
      NothingLeft(text);
    } else if ReferenceAt(text).Some? {
      var (codepoint, length) := ReferenceAt(text).value;
      ReferenceIsPlain(text);
      DropAscii(text, length);
      DecodingKeepsWellFormed(text[length..]);
      EncodedIsChar(codepoint);
      CharThenWellFormed(Encode(codepoint), Decoded(text[length..]));
    } else {
      var n := DecodeAt(text, 0).next;
      WellFormedHead(text);
      AcceptedIsChar(text, 0);
      assert text[0..0 + (n - 0)] == text[..n];
      CharHasNoReference(text, n);
      CopiesBytes(text, n);
      DecodingKeepsWellFormed(text[n..]);
      CharThenWellFormed(text[..n], Decoded(text[n..]));
    }
  }

  lemma ReferenceIsPlain(text: Bytes)
    requires ReferenceAt(text).Some?
    ensures var (codepoint, length) := ReferenceAt(text).value;
            Scalar(codepoint) && 0 < length <= |text| && forall i :: 0 <= i < length ==> text[i] < 0x80
  {
    hide EntityValue;
    var semicolon := FirstSemicolon(text, 1).value;
    var entity := text[1..semicolon];
    EntitiesArePlain(entity);
    ReferencesAreScalars(entity);
    forall i | 0 <= i < semicolon + 1
      ensures text[i] < 0x80
    {
      assert 1 <= i < semicolon ==> text[i] == entity[i - 1];
    }
  }

  lemma CharHasNoReference(text: Bytes, n: nat)
    requires 0 < n <= |text| && IsUtf8Char(text[..n]) && ReferenceAt(text) == None
    ensures forall i :: 0 <= i < n ==> ReferenceAt(text[i..]) == None
  {
    hide EntityValue;
    forall i | 0 <= i < n
      ensures ReferenceAt(text[i..]) == None
    {
      if i == 0 {
        assert text[0..] == text;
      } else {
        assert text[i] == text[..n][i] && Tail(text[i]);
      }
    }
  }
}
