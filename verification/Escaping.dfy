/**
 String escaping of the parser: escaping, unescaping, and the two validity checks, over bytes.

 The specification speaks of ranges, quotients and remainders; the loops and the functions they call
 mask and shift as the source does, and are proved to agree with it.
 */
module Escaping {
  import opened Bits

  type byte = x: nat | x < 256

  type Bytes = seq<byte>

  const BACKSLASH: byte := 0x5C
  const CR: byte := 0x0D
  const LF: byte := 0x0A

  predicate IsHex(c: byte) {
    0x30 <= c <= 0x39 || 0x61 <= c <= 0x66 || 0x41 <= c <= 0x46
  }

  function FromHex(c: byte): (d: nat)
    ensures d < 16
  {
    if 0x30 <= c <= 0x39 then c - 0x30
    else if 0x61 <= c <= 0x66 then c - 0x61 + 10
    else if 0x41 <= c <= 0x46 then c - 0x41 + 10
    else 0
  }

  function ToHex(d: nat): (c: byte)
    requires d < 16
    ensures IsHex(c) && FromHex(c) == d
  {
    if d < 10 then d + 0x30 else d + 0x41 - 10
  }

  /** The first `n` bytes are hexadecimal digits. */
  predicate HexDigits(s: Bytes, n: nat) {
    n <= |s| && forall i :: 0 <= i < n ==> IsHex(s[i])
  }

  function HexValue(s: Bytes): nat {
    if s == [] then 0 else 16 * HexValue(s[..|s| - 1]) + FromHex(s[|s| - 1])
  }

  /** How many digits follow the letter of a numeric escape, or 0 if they are not well formed. */
  function DigitCount(letter: byte, s: Bytes): (n: nat)
    ensures n <= |s|
  {
    if letter == 0x78 && HexDigits(s, 2) then 2
    else if letter == 0x75 && HexDigits(s, 4) then 4
    else if letter == 0x55 && HexDigits(s, 6) && (s[0] == 0x30 || (s[0] == 0x31 && s[1] == 0x30)) then 6
    else 0
  }

  predicate Numeric(letter: byte) {
    letter == 0x78 || letter == 0x75 || letter == 0x55
  }

  /** The letter that stands for `c` after a backslash, or 0 if `c` has none. */
  function LetterFor(c: byte): byte {
    match c
    case 0x27 => 0x27
    case 0x22 => 0x22
    case 0x5C => 0x5C
    case 0x07 => 0x61
    case 0x08 => 0x62
    case 0x1B => 0x65
    case 0x0C => 0x66
    case 0x0A => 0x6E
    case 0x0D => 0x72
    case 0x09 => 0x74
    case 0x0B => 0x76
    case 0x00 => 0x30
    case _ => 0
  }

  /** What a letter stands for after a backslash; other bytes stand for themselves. */
  function LetterValue(c: byte): byte {
    match c
    case 0x61 => 0x07
    case 0x62 => 0x08
    case 0x65 => 0x1B
    case 0x66 => 0x0C
    case 0x6E => 0x0A
    case 0x72 => 0x0D
    case 0x74 => 0x09
    case 0x76 => 0x0B
    case 0x30 => 0x00
    case _ => c
  }

  // ----- UTF-8 -----

  predicate IsContinuation(c: byte) {
    0x80 <= c < 0xC0
  }

  /** The length of the sequence at the head of `s`, or 0 if there is none (`is_utf8`). */
  function SequenceLength(s: Bytes): (n: nat)
    ensures n <= |s| && n <= 4
  {
    if s == [] then 0
    else if s[0] < 0x80 then 1
    else if 0xC0 <= s[0] < 0xE0 then
      if |s| > 1 && IsContinuation(s[1]) then 2 else 0
    else if 0xE0 <= s[0] < 0xF0 then
      if |s| > 2 && IsContinuation(s[1]) && IsContinuation(s[2]) then 3 else 0
    else if 0xF0 <= s[0] < 0xF8 then
      if |s| > 3 && IsContinuation(s[1]) && IsContinuation(s[2]) && IsContinuation(s[3]) then 4 else 0
    else 0
  }

  /** What `operator<<` writes for a code point; nothing past the Unicode range. */
  function Encode(h: nat): Bytes {
    if h < 0x80 then [h]
    else if h < 0x800 then [0xC0 + h / 0x40, 0x80 + h % 0x40]
    else if h < 0x10000 then [0xE0 + h / 0x1000, 0x80 + h / 0x40 % 0x40, 0x80 + h % 0x40]
    else if h < 0x110000 then
      [0xF0 + h / 0x40000, 0x80 + h / 0x1000 % 0x40, 0x80 + h / 0x40 % 0x40, 0x80 + h % 0x40]
    else []
  }

  /** The payload bits of a byte of a sequence. */
  function Low(c: byte, tag: nat): nat
    requires tag <= c
  {
    c - tag
  }

  /** The character number of one sequence, by section 3 of RFC 3629. */
  function Decode(s: Bytes): nat
    requires |s| > 0 && SequenceLength(s) == |s|
  {
    if |s| == 1 then s[0]
    else if |s| == 2 then 0x40 * Low(s[0], 0xC0) + Low(s[1], 0x80)
    else if |s| == 3 then 0x1000 * Low(s[0], 0xE0) + 0x40 * Low(s[1], 0x80) + Low(s[2], 0x80)
    else 0x40000 * Low(s[0], 0xF0) + 0x1000 * Low(s[1], 0x80) + 0x40 * Low(s[2], 0x80) + Low(s[3], 0x80)
  }

  /** Every code point becomes one whole sequence, the shortest that decodes back to it. */
  lemma EncodeDecodes(h: nat)
    requires h < 0x110000
    ensures Encode(h) != [] && SequenceLength(Encode(h)) == |Encode(h)|
    ensures Decode(Encode(h)) == h
    ensures forall t: Bytes :: |t| > 0 && SequenceLength(t) == |t| && Decode(t) == h ==> |Encode(h)| <= |t|
  {
    EncodedWhole(h);
    forall t: Bytes | |t| > 0 && SequenceLength(t) == |t| && Decode(t) == h ensures |Encode(h)| <= |t| {
      EncodedShortest(t);
    }
    hide Decode, Encode, SequenceLength;
  }

  lemma EncodedWhole(h: nat)
    requires h < 0x110000
    ensures Encode(h) != [] && SequenceLength(Encode(h)) == |Encode(h)| && Decode(Encode(h)) == h
  {
    if 0x10000 <= h {
      assert h / 0x40 == h / 0x1000 * 0x40 + h / 0x40 % 0x40;
      assert h / 0x1000 == h / 0x40000 * 0x40 + h / 0x1000 % 0x40;
    } else if 0x800 <= h {
      assert h / 0x40 == h / 0x1000 * 0x40 + h / 0x40 % 0x40;
    }
  }

  lemma EncodedShortest(t: Bytes)
    requires |t| > 0 && SequenceLength(t) == |t| && Decode(t) < 0x110000
    ensures |Encode(Decode(t))| <= |t|
  {
    var h := Decode(t);
    assert |t| == 1 ==> h < 0x80;
    assert |t| == 2 ==> h < 0x800;
    assert |t| == 3 ==> h < 0x10000;
  }

  // ----- masks and shifts -----

  /** A mask of the highest bits of a byte. */
  lemma TopMask(c: byte, k: nat)
    requires k <= 8
    ensures And(c, Shl(Ones(8 - k), k)) == c - c % Shl(1, k)
  {
    hide And, Shl, Ones;
    assert Shl(1, 8) == 256 by { Powers(); }
    HighMask(c, k, 8 - k);
    Divided(c, k);
  }

  lemma Powers()
    ensures Shl(1, 3) == 8 && Shl(1, 4) == 0x10 && Shl(1, 5) == 0x20 && Shl(1, 6) == 0x40 && Shl(1, 7) == 0x80
    ensures Shl(1, 8) == 0x100 && Shl(1, 12) == 0x1000 && Shl(1, 18) == 0x40000
  {
    assert Shl(1, 6) == 0x40;
    assert Shl(1, 12) == 0x1000;
  }

  lemma Masks()
    ensures Shl(Ones(1), 7) == 0x80 && Shl(Ones(2), 6) == 0xC0 && Shl(Ones(3), 5) == 0xE0
    ensures Shl(Ones(4), 4) == 0xF0 && Shl(Ones(5), 3) == 0xF8
    ensures Ones(3) == 0x07 && Ones(4) == 0x0F && Ones(5) == 0x1F && Ones(6) == 0x3F
  {
  }

  /** The masked comparisons of the source are ranges. */
  lemma MasksAreRanges(c: byte)
    ensures And(c, 0x80) == 0 <==> c < 0x80
    ensures And(c, 0xC0) == 0x80 <==> IsContinuation(c)
    ensures And(c, 0xE0) == 0xC0 <==> 0xC0 <= c < 0xE0
    ensures And(c, 0xF0) == 0xE0 <==> 0xE0 <= c < 0xF0
    ensures And(c, 0xF8) == 0xF0 <==> 0xF0 <= c < 0xF8
  {
    hide And, Shl, Ones;
    Powers();
    Masks();
    TopMask(c, 7);
    TopMask(c, 6);
    TopMask(c, 5);
    TopMask(c, 4);
    TopMask(c, 3);
  }

  lemma Nibbles(c: byte)
    ensures Shr(c, 4) == c / 16 && And(c, 0x0F) == c % 16
  {
    hide And, Shl, Shr, Ones;
    Powers();
    Masks();
    Divided(c, 4);
  }

  /** `is_utf8cont`. */
  function Continues(c: byte): (r: bool)
    ensures r == IsContinuation(c)
  {
    MasksAreRanges(c);
    And(c, 0xC0) == 0x80
  }

  /** `is_utf8`: the length of the sequence at the head of `s`, or 0. */
  function ScanSequence(s: Bytes): (n: nat)
    ensures n == SequenceLength(s)
  {
    if s == [] then 0
    else
      MasksAreRanges(s[0]);
      if And(s[0], 0x80) == 0 then 1
      else if And(s[0], 0xE0) == 0xC0 then if |s| > 1 && Continues(s[1]) then 2 else 0
      else if And(s[0], 0xF0) == 0xE0 then if |s| > 2 && Continues(s[1]) && Continues(s[2]) then 3 else 0
      else if And(s[0], 0xF8) == 0xF0 then
        if |s| > 3 && Continues(s[1]) && Continues(s[2]) && Continues(s[3]) then 4 else 0
      else 0
  }

  /** What a shift divides by. */
  function Divisor(shift: nat): nat
    requires shift == 0 || shift == 6 || shift == 12 || shift == 18
    ensures Divisor(shift) > 0
  {
    if shift == 0 then 1 else if shift == 6 then 0x40 else if shift == 12 then 0x1000 else 0x40000
  }

  /** `uint8_t(0x80 | ((h >> shift) & 0x3F))`. */
  function TailByte(h: nat, shift: nat): (c: byte)
    requires shift == 0 || shift == 6 || shift == 12
    ensures c == 0x80 + h / Divisor(shift) % 0x40
  {
    TailIs(Shr(h, shift));
    Shifted(h, shift);
    Or(0x80, And(Shr(h, shift), 0x3F))
  }

  /** `uint8_t(tag | (h >> shift))`. */
  function LeadByte(tag: nat, h: nat, shift: nat): (c: byte)
    requires || (tag == 0xC0 && shift == 6 && h < 0x800) || (tag == 0xE0 && shift == 12 && h < 0x10000)
             || (tag == 0xF0 && shift == 18 && h < 0x200000)
    ensures c == tag + h / Divisor(shift)
  {
    Shifted(h, shift);
    Tagged(tag, h / Divisor(shift));
    Or(tag, Shr(h, shift))
  }

  lemma TailIs(h: nat)
    ensures Or(0x80, And(h, 0x3F)) == 0x80 + h % 0x40
  {
    hide And, Ones, Or;
    Masks();
    Powers();
    Divided(h, 6);
    assert Shl(2, 6) == 0x80;
    OrAdds(2, h % 0x40, 6);
  }

  lemma Shifted(h: nat, shift: nat)
    requires shift == 0 || shift == 6 || shift == 12 || shift == 18
    ensures Shr(h, shift) == h / Divisor(shift)
  {
    if shift > 0 {
      hide Shr, Shl;
      Powers();
      Divided(h, shift);
    }
  }

  lemma Tagged(tag: nat, x: nat)
    requires (tag == 0xC0 && x < 0x20) || (tag == 0xE0 && x < 0x10) || (tag == 0xF0 && x < 0x08)
    ensures Or(tag, x) == tag + x
  {
    hide Or;
    Powers();
    assert Shl(6, 5) == 0xC0 && Shl(14, 4) == 0xE0 && Shl(30, 3) == 0xF0;
    if tag == 0xC0 {
      OrAdds(6, x, 5);
    } else if tag == 0xE0 {
      OrAdds(14, x, 4);
    } else {
      OrAdds(30, x, 3);
    }
  }

  /** `operator<<` of a code point. */
  function WriteSequence(h: nat): (s: Bytes)
    ensures s == Encode(h)
  {
    if h < 0x80 then [h]
    else if h < 0x800 then [LeadByte(0xC0, h, 6), TailByte(h, 0)]
    else if h < 0x10000 then [LeadByte(0xE0, h, 12), TailByte(h, 6), TailByte(h, 0)]
    else if h < 0x110000 then [LeadByte(0xF0, h, 18), TailByte(h, 12), TailByte(h, 6), TailByte(h, 0)]
    else []
  }

  /** The payload of each byte is what its mask leaves. */
  lemma Payload(c: byte)
    ensures IsContinuation(c) ==> And(c, 0x3F) == Low(c, 0x80)
    ensures 0xC0 <= c < 0xE0 ==> And(c, 0x1F) == Low(c, 0xC0)
    ensures 0xE0 <= c < 0xF0 ==> And(c, 0x0F) == Low(c, 0xE0)
    ensures 0xF0 <= c < 0xF8 ==> And(c, 0x07) == Low(c, 0xF0)
  {
    hide And, Shl, Ones;
    Powers();
    Masks();
    Divided(c, 6);
    Divided(c, 5);
    Divided(c, 4);
    Divided(c, 3);
  }

  /** Six more bits, of a continuation byte, below the bits so far. */
  function Continued(a: nat, c: byte): nat {
    Or(Shl(a, 6), And(c, 0x3F))
  }

  lemma ContinuedIs(a: nat, c: byte)
    requires IsContinuation(c)
    ensures Continued(a, c) == 0x40 * a + Low(c, 0x80)
  {
    hide Or, And;
    Payload(c);
    Powers();
    OrAdds(a, Low(c, 0x80), 6);
    ShlTimes(a, 6);
  }

  /** Decoding puts together the bits that the tags of section 3 of RFC 3629 leave free. */
  lemma DecodeBits(s: Bytes)
    requires |s| > 0 && SequenceLength(s) == |s|
    ensures Decode(s) ==
      if |s| == 1 then s[0]
      else if |s| == 2 then Continued(And(s[0], 0x1F), s[1])
      else if |s| == 3 then Continued(Continued(And(s[0], 0x0F), s[1]), s[2])
      else Continued(Continued(Continued(And(s[0], 0x07), s[1]), s[2]), s[3])
  {
    hide And, Continued;
    Payload(s[0]);
    if |s| == 2 {
      ContinuedIs(And(s[0], 0x1F), s[1]);
    } else if |s| == 3 {
      ContinuedIs(And(s[0], 0x0F), s[1]);
      ContinuedIs(Continued(And(s[0], 0x0F), s[1]), s[2]);
    } else if |s| == 4 {
      ContinuedIs(And(s[0], 0x07), s[1]);
      ContinuedIs(Continued(And(s[0], 0x07), s[1]), s[2]);
      ContinuedIs(Continued(Continued(And(s[0], 0x07), s[1]), s[2]), s[3]);
    }
  }

  /** A digit shifted in below the digits so far. */
  lemma DigitIn(h: nat, d: nat, shift: nat)
    requires d < 16
    ensures Or(Shl(h, shift + 4), Shl(d, shift)) == Shl(16 * h + d, shift)
  {
    hide Or;
    ShlMore(h, 4, shift);
    assert Shl(h, shift + 4) == Shl(Shl(h, 4), shift) by {
      assert shift + 4 == 4 + shift;
    }
    OrShl(Shl(h, 4), d, shift);
    Powers();
    OrAdds(h, d, 4);
    ShlTimes(h, 4);
  }

  lemma HexValueBound(s: Bytes)
    ensures |s| == 2 ==> HexValue(s) < 0x100
    ensures |s| == 4 ==> HexValue(s) < 0x10000
    ensures |s| == 6 ==> HexValue(s) < 0x1000000
  {
    if |s| == 2 {
      HexTwo(s);
    } else if |s| == 4 {
      HexSplit(s);
      HexTwo(s[..2]);
    } else if |s| == 6 {
      HexSplit(s);
      HexSplit(s[..4]);
      HexTwo(s[..4][..2]);
    }
  }

  lemma HexTwo(s: Bytes)
    requires |s| == 2
    ensures HexValue(s) == 16 * FromHex(s[0]) + FromHex(s[1])
  {
    assert HexValue(s[..1]) == 16 * HexValue([]) + FromHex(s[0]) by {
      assert s[..1][..0] == [];
    }
  }

  lemma HexSplit(s: Bytes)
    requires |s| >= 2
    ensures HexValue(s) == 0x100 * HexValue(s[..|s| - 2]) + 16 * FromHex(s[|s| - 2]) + FromHex(s[|s| - 1])
  {
    assert s[..|s| - 1][..|s| - 2] == s[..|s| - 2];
  }

  /** A well-formed numeric escape names a code point of Unicode. */
  lemma EscapeInRange(letter: byte, s: Bytes)
    requires DigitCount(letter, s) > 0
    ensures HexValue(s[..DigitCount(letter, s)]) < 0x110000
  {
    var t := s[..DigitCount(letter, s)];
    HexValueBound(t);
    if |t| == 6 {
      HexSplit(t);
      HexSplit(t[..4]);
      HexTwo(t[..4][..2]);
    }
  }

  // ----- the checks -----

  function IsUnescaped(s: Bytes): bool
    decreases |s|
  {
    s == [] || (SequenceLength(s) > 0 && IsUnescaped(s[SequenceLength(s)..]))
  }

  /** The length of the escape at the head of `s`, or 0 if there is none (`is_escape`). */
  function EscapeLength(s: Bytes): (n: nat)
    ensures n <= |s|
  {
    if |s| < 2 || s[0] != BACKSLASH then 0
    else if Numeric(s[1]) then
      if DigitCount(s[1], s[2..]) == 0 then 0 else 2 + DigitCount(s[1], s[2..])
    else if LetterValue(s[1]) != s[1] || s[1] == 0x27 || s[1] == 0x22 || s[1] == BACKSLASH then 2
    else 0
  }

  /** The step `is_escaped` takes: an escape if there is one, else a sequence. */
  function EscapedStep(s: Bytes): (n: nat)
    ensures n <= |s|
  {
    if EscapeLength(s) > 0 then EscapeLength(s) else SequenceLength(s)
  }

  function IsEscaped(s: Bytes): bool
    decreases |s|
  {
    s == [] || (EscapedStep(s) > 0 && IsEscaped(s[EscapedStep(s)..]))
  }

  // ----- escaping and unescaping -----

  /** What `escape` writes for the bytes at the head of `s`. */
  function EscapeHead(s: Bytes): Bytes
    requires s != []
  {
    var c := s[0];
    if LetterFor(c) != 0 then [BACKSLASH, LetterFor(c)]
    else if 0x20 <= c <= 0x7E then [c]
    else if c < 0x80 then [BACKSLASH, 0x78, ToHex(c / 16), ToHex(c % 16)]
    else if 0xC0 <= c < 0xF8 then s[..HeadLength(s)]
    else []
  }

  /** How many bytes it moves on by, within the string. */
  function HeadLength(s: Bytes): (n: nat)
    requires s != []
    ensures 1 <= n <= |s|
  {
    var n := if 0xC0 <= s[0] < 0xE0 then 2 else if 0xE0 <= s[0] < 0xF0 then 3 else if 0xF0 <= s[0] < 0xF8 then 4 else 1;
    if n <= |s| then n else |s|
  }

  function Escape(s: Bytes): Bytes
    decreases |s|
  {
    if s == [] then [] else EscapeHead(s) + Escape(s[HeadLength(s)..])
  }

  function Unescape(s: Bytes): Bytes
    decreases |s|
  {
    if s == [] then []
    else if s[0] != BACKSLASH then [s[0]] + Unescape(s[1..])
    else if |s| == 1 then []
    else if Numeric(s[1]) then
      var n := DigitCount(s[1], s[2..]);
      Encode(HexValue(s[2..2 + n])) + Unescape(s[2 + n..])
    else [LetterValue(s[1])] + Unescape(s[2..])
  }

  /** Carriage return and line feed together become a line feed. */
  function LineFeeds(s: Bytes): Bytes
    decreases |s|
  {
    if s == [] then []
    else if |s| > 1 && s[0] == CR && s[1] == LF then [LF] + LineFeeds(s[2..])
    else [s[0]] + LineFeeds(s[1..])
  }

  predicate IsBlank(c: byte) {
    c == 0x20 || c == 0x0C || c == CR || c == 0x09 || c == 0x0B
  }

  /** The first byte that is not blank, or the length. */
  function FirstSolid(s: Bytes): (pos: nat)
    ensures pos <= |s|
    decreases |s|
  {
    if s == [] || !IsBlank(s[0]) then 0 else 1 + FirstSolid(s[1..])
  }

  /** One past the last byte that is not blank, or 0. */
  function LastSolid(s: Bytes): (pos: nat)
    ensures pos <= |s|
    decreases |s|
  {
    if s == [] then 0 else if !IsBlank(s[|s| - 1]) then |s| else LastSolid(s[..|s| - 1])
  }

  function TrimLeading(s: Bytes): Bytes {
    var pos := FirstSolid(s);
    if pos < |s| && s[pos] == LF then s[pos + 1..] else s
  }

  function TrimTrailing(s: Bytes): Bytes {
    var end := LastSolid(s);
    if end > 0 && s[end - 1] == LF then s[..end - 1] else s
  }

  function EscapedString(s: Bytes): Bytes {
    Unescape(TrimTrailing(TrimLeading(LineFeeds(s))))
  }

  // ----- the tables, line ends and blank lines, apart from the round trip -----

  function Code(c: char): byte
    requires c < 128 as char
  {
    c as int
  }

  /** `\` and this letter stand for this byte, in both directions, and are accepted as an escape. */
  ghost predicate StandsFor(letter: char, c: byte)
    requires letter < 128 as char
  {
    var escape := [BACKSLASH, Code(letter)];
    Escape([c]) == escape && Unescape(escape) == [c] && EscapeLength(escape) == 2
  }

  lemma LetterStands(letter: byte, c: byte)
    requires LetterFor(c) == letter != 0 && LetterValue(letter) == c && !Numeric(letter) && c < 0x80
    requires LetterValue(letter) != letter || letter == 0x27 || letter == 0x22 || letter == BACKSLASH
    ensures var escape := [BACKSLASH, letter];
      Escape([c]) == escape && Unescape(escape) == [c] && EscapeLength(escape) == 2
  {
    var escape := [BACKSLASH, letter];
    assert [c][1..] == [] && escape[2..] == [];
    assert Escape([]) == [] && Unescape([]) == [];
  }

  /** The letters: alert, backspace, escape, form feed, line feed, carriage return, tabs, null, and the marks. */
  lemma LetterTable()
    ensures StandsFor('a', 0x07) && StandsFor('b', 0x08) && StandsFor('e', 0x1B) && StandsFor('f', 0x0C)
    ensures StandsFor('n', LF) && StandsFor('r', CR) && StandsFor('t', 0x09) && StandsFor('v', 0x0B)
    ensures StandsFor('0', 0x00)
    ensures StandsFor('\'', Code('\'')) && StandsFor('\"', Code('\"')) && StandsFor('\\', Code('\\'))
  {
    LetterStands(Code('a'), 0x07);
    LetterStands(Code('b'), 0x08);
    LetterStands(Code('e'), 0x1B);
    LetterStands(Code('f'), 0x0C);
    LetterStands(Code('n'), LF);
    LetterStands(Code('r'), CR);
    LetterStands(Code('t'), 0x09);
    LetterStands(Code('v'), 0x0B);
    LetterStands(Code('0'), 0x00);
    LetterStands(Code('\''), Code('\''));
    LetterStands(Code('\"'), Code('\"'));
    LetterStands(Code('\\'), Code('\\'));
    hide Escape, Unescape, EscapeLength;
  }

  /** The letters of the table. */
  predicate InTable(letter: char) {
    || letter == 'a' || letter == 'b' || letter == 'e' || letter == 'f' || letter == 'n' || letter == 'r'
    || letter == 't' || letter == 'v' || letter == '0' || letter == '\'' || letter == '\"' || letter == '\\'
  }

  /** No other letter is an escape; after a backslash it stands for itself. */
  lemma OtherLetters(letter: byte, rest: Bytes)
    requires !InTable(letter as char) && !Numeric(letter)
    ensures EscapeLength([BACKSLASH, letter] + rest) == 0
    ensures Unescape([BACKSLASH, letter] + rest) == [letter] + Unescape(rest)
  {
    assert LetterValue(letter) == letter && letter != 0x27 && letter != 0x22 && letter != BACKSLASH;
    hide LetterValue, InTable;
    var s := [BACKSLASH, letter] + rest;
    assert s[2..] == rest;
  }

  /** `\x`, `\u` and `\U` take two, four and six digits, the last up to the end of Unicode. */
  predicate IsNumericEscape(letter: char, digits: Bytes) {
    && (forall i :: 0 <= i < |digits| ==> IsHex(digits[i]))
    && match letter
       case 'x' => |digits| == 2
       case 'u' => |digits| == 4
       case 'U' => |digits| == 6 && HexValue(digits) < 0x110000
       case _ => false
  }

  lemma SixDigits(s: Bytes)
    requires |s| == 6 && forall i :: 0 <= i < |s| ==> IsHex(s[i])
    ensures HexValue(s) < 0x110000 <==> s[0] == 0x30 || (s[0] == 0x31 && s[1] == 0x30)
  {
    HexSplit(s);
    HexSplit(s[..4]);
    HexTwo(s[..4][..2]);
    assert s[..4][..2] == s[..2];
    var h := HexValue(s[..2]);
    assert h == 16 * FromHex(s[0]) + FromHex(s[1]);
    LeadingDigits(s[0], s[1]);
    var low := 0x1000 * FromHex(s[2]) + 0x100 * FromHex(s[3]) + 16 * FromHex(s[4]) + FromHex(s[5]);
    assert HexValue(s) == 0x10000 * h + low && low < 0x10000;
  }

  lemma LeadingDigits(a: byte, b: byte)
    requires IsHex(a) && IsHex(b)
    ensures 16 * FromHex(a) + FromHex(b) < 0x11 <==> a == 0x30 || (a == 0x31 && b == 0x30)
  {
  }

  /** No other escape has more than a letter. */
  lemma NumericOnly(s: Bytes)
    requires EscapeLength(s) > 2
    ensures IsNumericEscape(s[1] as char, s[2..EscapeLength(s)])
  {
    var digits := s[2..EscapeLength(s)];
    assert digits == s[2..][..|digits|];
    if |digits| == 6 {
      SixDigits(digits);
    }
  }

  /** A numeric escape is accepted whole, and is read as the character that its digits number. */
  lemma NumericStands(letter: char, digits: Bytes, rest: Bytes)
    requires IsNumericEscape(letter, digits)
    ensures var escape := [BACKSLASH, Code(letter)] + digits;
      && EscapeLength(escape + rest) == |escape|
      && Unescape(escape + rest) == Encode(HexValue(digits)) + Unescape(rest)
  {
    var escape := [BACKSLASH, Code(letter)] + digits;
    var s, n := escape + rest, |digits|;
    if letter == 'U' {
      SixDigits(digits);
    }
    assert s[2..] == digits + rest;
    assert DigitCount(s[1], s[2..]) == n;
    assert s[2..2 + n] == digits && s[2 + n..] == rest;
    hide Encode, HexValue;
  }

  /** A byte that begins no sequence is not written at all. */
  lemma StrayBytesDropped(c: byte, rest: Bytes)
    requires IsContinuation(c) || c >= 0xF8
    ensures Escape([c] + rest) == Escape(rest)
  {
    var s := [c] + rest;
    assert s[1..] == rest;
    assert HeadLength(s) == 1 && EscapeHead(s) == [];
  }

  /** The first line is blank, and ends at `pos`. */
  predicate BlankFirst(s: Bytes, pos: nat) {
    pos < |s| && s[pos] == LF && forall i :: 0 <= i < pos ==> IsBlank(s[i])
  }

  /** The last line is blank, and begins after the line end at `pos`. */
  predicate BlankLast(s: Bytes, pos: nat) {
    pos < |s| && s[pos] == LF && forall i :: pos < i < |s| ==> IsBlank(s[i])
  }

  lemma {:induction false} FirstSolidIs(s: Bytes, pos: nat)
    requires pos <= |s| && (forall i :: 0 <= i < pos ==> IsBlank(s[i])) && (pos < |s| ==> !IsBlank(s[pos]))
    ensures FirstSolid(s) == pos
    decreases |s|
  {
    if pos > 0 {
      FirstSolidIs(s[1..], pos - 1);
    }
  }

  lemma {:induction false} FirstSolidFinds(s: Bytes)
    ensures var pos := FirstSolid(s);
      (forall i :: 0 <= i < pos ==> IsBlank(s[i])) && (pos < |s| ==> !IsBlank(s[pos]))
    decreases |s|
  {
    if s != [] && IsBlank(s[0]) {
      FirstSolidFinds(s[1..]);
      forall i | 0 <= i < FirstSolid(s) ensures IsBlank(s[i]) {
        assert i > 0 ==> s[i] == s[1..][i - 1];
      }
    }
  }

  /** A blank first line goes with its line end, and nothing else does. */
  lemma TrimsFirst(s: Bytes)
    ensures forall pos: nat :: BlankFirst(s, pos) ==> TrimLeading(s) == s[pos + 1..]
    ensures (forall pos: nat :: !BlankFirst(s, pos)) ==> TrimLeading(s) == s
  {
    FirstSolidFinds(s);
    forall pos: nat | BlankFirst(s, pos) ensures TrimLeading(s) == s[pos + 1..] {
      FirstSolidIs(s, pos);
    }
    if FirstSolid(s) < |s| && s[FirstSolid(s)] == LF {
      assert BlankFirst(s, FirstSolid(s));
    }
  }

  lemma {:induction false} LastSolidFinds(s: Bytes)
    ensures var end := LastSolid(s);
      (forall i :: end <= i < |s| ==> IsBlank(s[i])) && (end > 0 ==> !IsBlank(s[end - 1]))
    decreases |s|
  {
    if s != [] && IsBlank(s[|s| - 1]) {
      LastSolidFinds(s[..|s| - 1]);
    }
  }

  /** A blank last line goes with the line end before it, and nothing else does. */
  lemma TrimsLast(s: Bytes)
    ensures forall pos: nat :: BlankLast(s, pos) ==> TrimTrailing(s) == s[..pos]
    ensures (forall pos: nat :: !BlankLast(s, pos)) ==> TrimTrailing(s) == s
  {
    LastSolidFinds(s);
    var end := LastSolid(s);
    forall pos: nat | BlankLast(s, pos) ensures TrimTrailing(s) == s[..pos] {
      assert !IsBlank(s[pos]);
      assert end == pos + 1;
    }
    if end > 0 && s[end - 1] == LF {
      assert BlankLast(s, end - 1);
    }
  }

  /** The lines with this between them. */
  function Joined(lines: seq<Bytes>, between: Bytes): Bytes {
    if lines == [] then [] else if |lines| == 1 then lines[0] else lines[0] + between + Joined(lines[1..], between)
  }

  predicate NoCrLf(s: Bytes) {
    forall i :: 0 <= i < |s| - 1 ==> !(s[i] == CR && s[i + 1] == LF)
  }

  lemma {:induction false} LineFeedsAfter(line: Bytes, rest: Bytes)
    requires NoCrLf(line) && (rest == [] || (|rest| > 1 && rest[0] == CR && rest[1] == LF))
    ensures LineFeeds(line + rest) == line + LineFeeds(rest)
    decreases |line|
  {
    if line == [] {
      assert line + rest == rest;
    } else {
      var s := line + rest;
      assert s[1..] == line[1..] + rest;
      assert forall i :: 0 <= i < |line[1..]| ==> line[1..][i] == line[i + 1];
      LineFeedsAfter(line[1..], rest);
      assert !(|s| > 1 && s[0] == CR && s[1] == LF);
    }
  }

  /** Lines ended by carriage return and line feed become lines ended by line feed, whatever is in them. */
  lemma {:induction false} LineFeedsJoined(lines: seq<Bytes>)
    requires forall i :: 0 <= i < |lines| ==> NoCrLf(lines[i])
    ensures LineFeeds(Joined(lines, [CR, LF])) == Joined(lines, [LF])
    decreases |lines|
  {
    if |lines| == 1 {
      LineFeedsAfter(lines[0], []);
      assert lines[0] + [] == lines[0];
    } else if |lines| > 1 {
      var rest := Joined(lines[1..], [CR, LF]);
      LineFeedsJoined(lines[1..]);
      LineFeedsAfter(lines[0], [CR, LF] + rest);
      assert ([CR, LF] + rest)[2..] == rest;
      Associate(lines[0], [CR, LF], rest);
      Associate(lines[0], [LF], LineFeeds(rest));
    }
  }

  // ----- the round trip -----

  lemma {:induction false} UnescapePlain(p: Bytes, rest: Bytes)
    requires BACKSLASH !in p
    ensures Unescape(p + rest) == p + Unescape(rest)
  {
    if p == [] {
      assert p + rest == rest;
    } else {
      assert (p + rest)[1..] == p[1..] + rest;
      UnescapePlain(p[1..], rest);
      assert p == [p[0]] + p[1..];
    }
  }

  /** Unescaping what was written for one sequence gives that sequence back. */
  lemma UnescapeHead(s: Bytes, rest: Bytes)
    requires SequenceLength(s) > 0
    ensures HeadLength(s) == SequenceLength(s)
    ensures Unescape(EscapeHead(s) + rest) == s[..HeadLength(s)] + Unescape(rest)
  {
    var c := s[0];
    var head := EscapeHead(s);
    if LetterFor(c) != 0 {
      assert (head + rest)[2..] == rest;
    } else if 0x20 <= c <= 0x7E || c >= 0x80 {
      assert head == s[..HeadLength(s)];
      UnescapePlain(head, rest);
    } else {
      UnescapeControl(c, rest);
    }
  }

  lemma UnescapeControl(c: byte, rest: Bytes)
    requires c < 0x80
    ensures Unescape([BACKSLASH, 0x78, ToHex(c / 16), ToHex(c % 16)] + rest) == [c] + Unescape(rest)
  {
    var t := [BACKSLASH, 0x78, ToHex(c / 16), ToHex(c % 16)] + rest;
    assert t[2..] == [ToHex(c / 16), ToHex(c % 16)] + rest;
    assert DigitCount(t[1], t[2..]) == 2;
    assert t[2..4] == [ToHex(c / 16), ToHex(c % 16)];
    HexTwo(t[2..4]);
    assert t[4..] == rest;
  }

  lemma UnescapeStep(s: Bytes)
    requires SequenceLength(s) > 0
    ensures HeadLength(s) == SequenceLength(s)
    ensures Unescape(Escape(s)) == s[..HeadLength(s)] + Unescape(Escape(s[HeadLength(s)..]))
  {
    UnescapeHead(s, Escape(s[HeadLength(s)..]));
    hide Unescape, EscapeHead, SequenceLength, HeadLength;
  }

  lemma UnescapeNothing()
    ensures Unescape(Escape([])) == []
  {
  }

  lemma UnescapedTail(s: Bytes)
    requires IsUnescaped(s) && s != []
    ensures SequenceLength(s) > 0 && IsUnescaped(s[SequenceLength(s)..])
  {
  }

  lemma {:induction false} UnescapeEscape(s: Bytes)
    requires IsUnescaped(s)
    ensures Unescape(Escape(s)) == s
    decreases |s|
  {
    hide IsUnescaped, SequenceLength, Unescape, Escape, EscapeHead, HeadLength;
    if s == [] {
      UnescapeNothing();
    } else {
      UnescapedTail(s);
      UnescapeStep(s);
      var n := HeadLength(s);
      UnescapeEscape(s[n..]);
      assert s[..n] + s[n..] == s;
    }
  }

  /** Printable ASCII or part of a longer sequence. */
  predicate Clean(s: Bytes) {
    forall i :: 0 <= i < |s| ==> 0x20 <= s[i] && s[i] != 0x7F
  }

  lemma {:induction false} EscapeClean(s: Bytes)
    requires IsUnescaped(s)
    ensures Clean(Escape(s))
    decreases |s|
  {
    if s != [] {
      UnescapeHead(s, []);
      EscapeClean(s[HeadLength(s)..]);
      assert Clean(EscapeHead(s));
    }
  }

  lemma {:induction false} CleanLines(s: Bytes)
    requires Clean(s)
    ensures LineFeeds(s) == s && TrimTrailing(TrimLeading(s)) == s
    decreases |s|
  {
    if s != [] {
      CleanLines(s[1..]);
    }
  }

  /** Escaping and then reading the literal back gives the string, for every string of whole sequences. */
  lemma EscapeRoundTrip(s: Bytes)
    requires IsUnescaped(s)
    ensures EscapedString(Escape(s)) == s
  {
    EscapeClean(s);
    CleanLines(Escape(s));
    UnescapeEscape(s);
  }

  lemma HeadIsStep(s: Bytes, rest: Bytes)
    requires SequenceLength(s) > 0
    ensures EscapedStep(EscapeHead(s) + rest) == |EscapeHead(s)| > 0
  {
    var head := EscapeHead(s);
    var t := head + rest;
    if LetterFor(s[0]) == 0 && s[0] < 0x80 && !(0x20 <= s[0] <= 0x7E) {
      assert t[2..] == [ToHex(s[0] / 16), ToHex(s[0] % 16)] + rest;
      assert DigitCount(t[1], t[2..]) == 2;
    }
  }

  /** What `escape` writes is accepted as an escaped string. */
  lemma {:induction false} EscapeIsEscaped(s: Bytes)
    requires IsUnescaped(s)
    ensures IsEscaped(Escape(s))
    decreases |s|
  {
    if s != [] {
      var n := HeadLength(s);
      UnescapeHead(s, []);
      EscapeIsEscaped(s[n..]);
      HeadIsStep(s, Escape(s[n..]));
      assert Escape(s)[|EscapeHead(s)|..] == Escape(s[n..]);
    }
  }

  /** Read left to right, every quote comes right after a backslash that is not itself escaped. */
  predicate QuotesGuarded(s: Bytes)
    decreases |s|
  {
    || s == []
    || (s[0] == BACKSLASH && |s| > 1 && QuotesGuarded(s[2..]))
    || (s[0] != BACKSLASH && s[0] != 0x22 && s[0] != 0x27 && QuotesGuarded(s[1..]))
  }

  lemma {:induction false} GuardedPlain(p: Bytes, rest: Bytes)
    requires QuotesGuarded(rest) && BACKSLASH !in p && 0x22 !in p && 0x27 !in p
    ensures QuotesGuarded(p + rest)
  {
    if p == [] {
      assert p + rest == rest;
    } else {
      assert (p + rest)[1..] == p[1..] + rest;
      GuardedPlain(p[1..], rest);
    }
  }

  lemma GuardedHead(s: Bytes, rest: Bytes)
    requires SequenceLength(s) > 0 && QuotesGuarded(rest)
    ensures QuotesGuarded(EscapeHead(s) + rest)
  {
    var c, head := s[0], EscapeHead(s);
    if LetterFor(c) != 0 {
      assert (head + rest)[2..] == rest;
    } else if 0x20 <= c <= 0x7E || c >= 0x80 {
      GuardedPlain(head, rest);
    } else {
      GuardedPlain(head[2..], rest);
      assert (head + rest)[2..] == head[2..] + rest;
    }
  }

  lemma {:induction false} EscapeGuardsQuotes(s: Bytes)
    requires IsUnescaped(s)
    ensures QuotesGuarded(Escape(s))
    decreases |s|
  {
    if s != [] {
      UnescapeHead(s, []);
      EscapeGuardsQuotes(s[HeadLength(s)..]);
      GuardedHead(s, Escape(s[HeadLength(s)..]));
    }
  }

  // ----- unescaping keeps sequences whole -----

  /** A numeric escape is written as one whole sequence that decodes to its value. */
  lemma NumericEscapeEncodes(letter: byte, s: Bytes)
    requires DigitCount(letter, s) > 0
    ensures var h := HexValue(s[..DigitCount(letter, s)]);
      && Encode(h) != [] && SequenceLength(Encode(h)) == |Encode(h)| && Decode(Encode(h)) == h
  {
    EscapeInRange(letter, s);
    EncodeDecodes(HexValue(s[..DigitCount(letter, s)]));
  }

  lemma WholePrefix(p: Bytes, rest: Bytes)
    requires p != [] && SequenceLength(p) == |p|
    ensures IsUnescaped(p + rest) == IsUnescaped(rest)
  {
    assert SequenceLength(p + rest) == |p|;
    assert (p + rest)[|p|..] == rest;
  }

  lemma {:induction false} DropAscii(s: Bytes, n: nat)
    requires IsUnescaped(s) && n <= |s| && forall i :: 0 <= i < n ==> s[i] < 0x80
    ensures IsUnescaped(s[n..])
    decreases n
  {
    if n > 0 {
      DropAscii(s[1..], n - 1);
      assert s[1..][n - 1..] == s[n..];
    } else {
      assert s[0..] == s;
    }
  }

  lemma PlainKeeps(s: Bytes)
    requires s != [] && s[0] != BACKSLASH && SequenceLength(s) > 0 && IsUnescaped(Unescape(s[SequenceLength(s)..]))
    ensures IsUnescaped(Unescape(s))
  {
    hide Unescape, IsUnescaped, SequenceLength;
    WholeHead(s);
    var n := SequenceLength(s);
    UnescapePlain(s[..n], s[n..]);
    assert s[..n] + s[n..] == s;
    WholePrefix(s[..n], Unescape(s[n..]));
  }

  /** The sequence at the head is one by itself, and has no backslash in it unless it is one. */
  lemma WholeHead(s: Bytes)
    requires SequenceLength(s) > 0
    ensures var p := s[..SequenceLength(s)]; SequenceLength(p) == |p| && (s[0] != BACKSLASH ==> BACKSLASH !in p)
  {
  }

  lemma NumericKeeps(s: Bytes)
    requires |s| > 1 && s[0] == BACKSLASH && Numeric(s[1])
    requires IsUnescaped(Unescape(s[2 + DigitCount(s[1], s[2..])..]))
    ensures IsUnescaped(Unescape(s))
  {
    var n := DigitCount(s[1], s[2..]);
    assert s[2..][..n] == s[2..2 + n];
    if n > 0 {
      NumericEscapeEncodes(s[1], s[2..]);
    }
    var p := Encode(HexValue(s[2..2 + n]));
    assert Unescape(s) == p + Unescape(s[2 + n..]);
    assert p != [] && SequenceLength(p) == |p|;
    hide Unescape, Encode, HexValue, SequenceLength, IsUnescaped;
    WholePrefix(p, Unescape(s[2 + n..]));
  }

  lemma LetterKeeps(s: Bytes)
    requires |s| > 1 && s[0] == BACKSLASH && !Numeric(s[1])
    requires if s[1] < 0x80 then IsUnescaped(Unescape(s[2..])) else IsUnescaped(Unescape(s[1..]))
    ensures IsUnescaped(Unescape(s))
  {
    hide Unescape, IsUnescaped;
    UnescapeLetter(s);
    if s[1] < 0x80 {
      LetterPrefix(s[1], Unescape(s[2..]));
    } else {
      assert s[1..][1..] == s[2..];
      UnescapeByte(s[1..]);
    }
  }

  lemma UnescapeLetter(s: Bytes)
    requires |s| > 1 && s[0] == BACKSLASH && !Numeric(s[1])
    ensures Unescape(s) == [LetterValue(s[1])] + Unescape(s[2..])
  {
  }

  lemma UnescapeByte(s: Bytes)
    requires s != [] && s[0] != BACKSLASH
    ensures Unescape(s) == [s[0]] + Unescape(s[1..])
  {
  }

  lemma LetterPrefix(c: byte, rest: Bytes)
    requires c < 0x80
    ensures IsUnescaped([LetterValue(c)] + rest) == IsUnescaped(rest)
  {
    hide IsUnescaped;
    WholePrefix([LetterValue(c)], rest);
  }

  /** Unescaping takes strings of whole sequences to strings of whole sequences. */
  lemma {:induction false} UnescapeKeepsSequences(s: Bytes)
    requires IsUnescaped(s)
    ensures IsUnescaped(Unescape(s))
    decreases |s|
  {
    if s == [] || (s[0] == BACKSLASH && |s| == 1) {
    } else if s[0] != BACKSLASH {
      UnescapeKeepsSequences(s[SequenceLength(s)..]);
      PlainKeeps(s);
    } else if Numeric(s[1]) {
      var n := DigitCount(s[1], s[2..]);
      DropAscii(s, 2 + n);
      UnescapeKeepsSequences(s[2 + n..]);
      NumericKeeps(s);
    } else {
      var n := if s[1] < 0x80 then 2 else 1;
      DropAscii(s, n);
      UnescapeKeepsSequences(s[n..]);
      LetterKeeps(s);
    }
  }

  // ----- the loops -----

  method CheckUnescaped(s: Bytes) returns (ok: bool)
    ensures ok == IsUnescaped(s)
  {
    var i := 0;
    assert s[0..] == s;
    while i < |s|
      invariant 0 <= i <= |s| && IsUnescaped(s[i..]) == IsUnescaped(s)
    {
      var n := ScanSequence(s[i..]);
      if n == 0 {
        return false;
      }
      assert s[i..][n..] == s[i + n..];
      i := i + n;
    }
    ok := true;
  }

  method CheckEscaped(s: Bytes) returns (ok: bool)
    ensures ok == IsEscaped(s)
  {
    hide EscapeLength, SequenceLength;
    var i := 0;
    assert s[0..] == s;
    while i < |s|
      invariant 0 <= i <= |s| && IsEscaped(s[i..]) == IsEscaped(s)
    {
      var n := EscapeLength(s[i..]);
      if n == 0 {
        n := ScanSequence(s[i..]);
      }
      if n == 0 {
        return false;
      }
      assert s[i..][n..] == s[i + n..];
      i := i + n;
    }
    ok := true;
  }

  lemma EscapeStep(out: Bytes, s: Bytes, i: nat)
    requires i < |s|
    ensures out + EscapeHead(s[i..]) + Escape(s[i + HeadLength(s[i..])..]) == out + Escape(s[i..])
  {
    var rest := s[i..];
    assert rest[HeadLength(rest)..] == s[i + HeadLength(rest)..];
    Associate(out, EscapeHead(rest), Escape(s[i + HeadLength(rest)..]));
  }

  lemma Associate(a: Bytes, b: Bytes, c: Bytes)
    ensures a + b + c == a + (b + c)
  {
  }

  /** The body of the loop: what it writes, and how far it goes on. */
  method WriteHead(s: Bytes) returns (head: Bytes, n: nat)
    requires s != []
    ensures head == EscapeHead(s) && n == HeadLength(s)
  {
    var c := s[0];
    MasksAreRanges(c);
    hide And, Shr;
    head, n := [], 1;
    if LetterFor(c) != 0 {
      head := [BACKSLASH, LetterFor(c)];
    } else if 0x20 <= c <= 0x7E {
      head := [c];
    } else if c <= 0x7F {
      Nibbles(c);
      head := [BACKSLASH, 0x78, ToHex(Shr(c, 4)), ToHex(And(c, 0x0F))];
    } else if And(c, 0xE0) == 0xC0 {
      n := if |s| < 2 then |s| else 2;
      head := s[..n];
    } else if And(c, 0xF0) == 0xE0 {
      n := if |s| < 3 then |s| else 3;
      head := s[..n];
    } else if And(c, 0xF8) == 0xF0 {
      n := if |s| < 4 then |s| else 4;
      head := s[..n];
    }
  }

  method WriteEscaped(s: Bytes) returns (out: Bytes)
    ensures out == Escape(s)
  {
    out := [];
    var i := 0;
    assert s[0..] == s;
    while i < |s|
      invariant 0 <= i <= |s| && out + Escape(s[i..]) == Escape(s)
    {
      EscapeStep(out, s, i);
      var head, n := WriteHead(s[i..]);
      out := out + head;
      i := i + n;
    }
  }

  /** The value of the `n` digits at `i`, each shifted to its place. */
  method ReadDigits(s: Bytes, i: nat, n: nat) returns (h: nat)
    requires i + n <= |s|
    ensures h == HexValue(s[i..i + n])
  {
    h := 0;
    var k, shift := 0, 4 * n;
    ShlZero(shift);
    while k < n
      invariant 0 <= k <= n && shift == 4 * (n - k)
      invariant h == Shl(HexValue(s[i..i + k]), shift)
    {
      hide Shl, Or;
      assert s[i..i + k + 1][..k] == s[i..i + k];
      shift := shift - 4;
      DigitIn(HexValue(s[i..i + k]), FromHex(s[i + k]), shift);
      h := Or(h, Shl(FromHex(s[i + k]), shift));
      k := k + 1;
    }
  }

  lemma {:induction false} ShlZero(k: nat)
    ensures Shl(0, k) == 0
  {
    if k > 0 {
      ShlZero(k - 1);
    }
  }

  /** `out` is what unescaping has written before position `i`, where a backslash may be pending. */
  ghost predicate Written(out: Bytes, s: Bytes, i: nat, backslash: bool)
    requires i <= |s|
  {
    out + Unescape(if backslash then [BACKSLASH] + s[i..] else s[i..]) == Unescape(s)
  }

  /** After a backslash, the letter at `i` takes `n` digits and is written as `written`. */
  predicate Reads(s: Bytes, i: nat, n: nat, written: Bytes)
    requires i < |s|
  {
    && n == (if Numeric(s[i]) then DigitCount(s[i], s[i + 1..]) else 0)
    && written == if Numeric(s[i]) then Encode(HexValue(s[i + 1..i + 1 + n])) else [LetterValue(s[i])]
  }

  method ReadLetter(s: Bytes, i: nat) returns (n: nat, written: Bytes)
    requires i < |s|
    ensures i + 1 + n <= |s| && Reads(s, i, n, written)
  {
    if Numeric(s[i]) {
      n := DigitCount(s[i], s[i + 1..]);
      var h := ReadDigits(s, i + 1, n);
      written := WriteSequence(h);
    } else {
      n, written := 0, [LetterValue(s[i])];
    }
  }

  lemma AfterLetter(out: Bytes, s: Bytes, i: nat, n: nat, written: Bytes)
    requires i < |s| && Reads(s, i, n, written) && Written(out, s, i, true)
    ensures Written(out + written, s, i + 1 + n, false)
  {
    var todo := [BACKSLASH] + s[i..];
    assert todo[1] == s[i] && todo[2..] == s[i + 1..];
    assert todo[2..2 + n] == s[i + 1..i + 1 + n] && todo[2 + n..] == s[i + 1 + n..];
    Associate(out, written, Unescape(s[i + 1 + n..]));
  }

  lemma AfterByte(out: Bytes, s: Bytes, i: nat)
    requires i < |s| && Written(out, s, i, false)
    ensures if s[i] == BACKSLASH then Written(out, s, i + 1, true) else Written(out + [s[i]], s, i + 1, false)
  {
    assert s[i..][1..] == s[i + 1..];
    assert [s[i]] + s[i + 1..] == s[i..];
    Associate(out, [s[i]], Unescape(s[i + 1..]));
  }

  lemma AfterAll(out: Bytes, s: Bytes, backslash: bool)
    requires Written(out, s, |s|, backslash)
    ensures out == Unescape(s)
  {
    assert [BACKSLASH] + s[|s|..] == [BACKSLASH];
  }

  method WriteUnescaped(s: Bytes) returns (out: Bytes)
    ensures out == Unescape(s)
  {
    out := [];
    var backslash := false;
    var i := 0;
    assert s[0..] == s;
    while i < |s|
      invariant 0 <= i <= |s| && Written(out, s, i, backslash)
    {
      if !backslash {
        AfterByte(out, s, i);
        if s[i] == BACKSLASH {
          backslash := true;
        } else {
          out := out + [s[i]];
        }
        i := i + 1;
      } else {
        backslash := false;
        var n, written := ReadLetter(s, i);
        AfterLetter(out, s, i, n, written);
        out := out + written;
        i := i + 1 + n;
      }
    }
    AfterAll(out, s, backslash);
  }

  /** `find("\r\n")` from position `from`. */
  method FindLineEnd(s: Bytes, from: nat) returns (pos: nat)
    requires from <= |s|
    ensures from <= pos <= |s|
    ensures pos < |s| ==> pos + 1 < |s| && s[pos] == CR && s[pos + 1] == LF
    ensures forall k :: from <= k < pos && k + 1 < |s| ==> !(s[k] == CR && s[k + 1] == LF)
  {
    pos := from;
    while pos < |s|
      invariant from <= pos <= |s|
      invariant forall k :: from <= k < pos && k + 1 < |s| ==> !(s[k] == CR && s[k + 1] == LF)
    {
      if pos + 1 < |s| && s[pos] == CR && s[pos + 1] == LF {
        return;
      }
      pos := pos + 1;
    }
  }

  lemma {:induction false} NoLineEnd(s: Bytes, from: nat, pos: nat)
    requires from <= pos <= |s|
    requires forall k :: from <= k < pos && k + 1 < |s| ==> !(s[k] == CR && s[k + 1] == LF)
    ensures LineFeeds(s[from..]) == s[from..pos] + LineFeeds(s[pos..])
    decreases pos - from
  {
    if from < pos {
      NoLineEnd(s, from + 1, pos);
      assert s[from..][1..] == s[from + 1..];
      assert s[from..pos] == [s[from]] + s[from + 1..pos];
    }
  }

  lemma LineEnd(s: Bytes)
    requires |s| > 1 && s[0] == CR && s[1] == LF
    ensures LineFeeds(s) == [LF] + LineFeeds(s[2..])
  {
  }

  lemma NoLineFeeds()
    ensures LineFeeds([]) == []
  {
  }

  method WriteLineFeeds(s: Bytes) returns (out: Bytes)
    ensures out == LineFeeds(s)
  {
    hide LineFeeds;
    out := [];
    var i := 0;
    assert s[0..] == s;
    NoLineFeeds();
    while true
      invariant 0 <= i <= |s| && out + LineFeeds(s[i..]) == LineFeeds(s)
      decreases |s| - i
    {
      var pos := FindLineEnd(s, i);
      NoLineEnd(s, i, pos);
      out := out + s[i..pos];
      if pos == |s| {
        assert s[pos..] == [];
        break;
      }
      assert s[pos..][2..] == s[pos + 2..];
      LineEnd(s[pos..]);
      out := out + [LF];
      i := pos + 2;
    }
  }
}
