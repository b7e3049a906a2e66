// Percent-encoding (section 2.1 of RFC 3986): the encoder, the decoder, and the
// lazily allocated output both share.

module Url {
  import opened Common
  import opened Bits

  type text = seq<byte>

  const SPACE: byte := 0x20
  const PERCENT: byte := 0x25
  const PLUS: byte := 0x2B

  /** The table of characters left as they are: letters, digits, `-`, `.`, `_`,
      `~`, and also `=`. */
  predicate Plain(c: byte) {
    || 0x30 <= c <= 0x39 || 0x41 <= c <= 0x5A || 0x61 <= c <= 0x7A
    || c == 0x2D || c == 0x2E || c == 0x5F || c == 0x7E || c == 0x3D
  }

  function HexDigit(d: nat): byte
    requires d < 16
  {
    if d < 10 then 0x30 + d else 0x41 + (d - 10)
  }

  predicate IsHex(c: byte) {
    0x30 <= c <= 0x39 || 0x41 <= c <= 0x46 || 0x61 <= c <= 0x66
  }

  /** The table of digit values; 0 for what is not a digit. */
  function HexValue(c: byte): nat {
    if 0x30 <= c <= 0x39 then c - 0x30
    else if 0x41 <= c <= 0x46 then c - 0x41 + 10
    else if 0x61 <= c <= 0x66 then c - 0x61 + 10
    else 0
  }

  // ------------------------------------------------------ the plain translations

  function EncodeChar(c: byte, plus: bool): text {
    if Plain(c) then [c]
    else if c == SPACE && plus then [PLUS]
    else [PERCENT, HexDigit(c / 16), HexDigit(c % 16)]
  }

  function Encode(s: text, plus: bool): text {
    if s == [] then [] else EncodeChar(s[0], plus) + Encode(s[1..], plus)
  }

  predicate IsEscape(s: text) {
    |s| > 2 && s[0] == PERCENT && IsHex(s[1]) && IsHex(s[2])
  }

  function Decode(s: text, plus: bool): text {
    if s == [] then []
    else if s[0] == PLUS && plus then [SPACE] + Decode(s[1..], plus)
    else if IsEscape(s) then [EscapeValue(s[1], s[2])] + Decode(s[3..], plus)
    else [s[0]] + Decode(s[1..], plus)
  }

  /** `(char)(hi << 4 | lo)` */
  function EscapeValue(hi: byte, lo: byte): byte {
    BitOr(HexValue(lo), HexValue(hi) * 16) % 256
  }

  lemma EscapeDigits(c: byte)
    ensures IsHex(HexDigit(c / 16)) && IsHex(HexDigit(c % 16))
    ensures EscapeValue(HexDigit(c / 16), HexDigit(c % 16)) == c
  {
    hide Pow2, BitOr, HexDigit, HexValue, IsHex;
    Pow2Bytes();
    OrDisjoint(c % 16, c / 16, 4);
    HexDigitValue(c / 16);
    HexDigitValue(c % 16);
  }

  lemma HexDigitValue(d: nat)
    requires d < 16
    ensures IsHex(HexDigit(d)) && HexValue(HexDigit(d)) == d
  {
  }

  // ------------------------------------------------------------------ methods

  method UrlEncode(str: text, plus: bool) returns (r: text)
    ensures r == Encode(str, plus)
  {
    assert Encode([], plus) == [];
    hide Encode, HexDigit, BitAnd;
    var ss: Option<text> := None;
    for i := 0 to |str|
      invariant Encode(str[..i], plus) == if ss.Some? then ss.value else str[..i]
    {
      var c := str[i];
      ghost var done := Encode(str[..i], plus);
      EncodeSnoc(str[..i], c, plus);
      assert str[..i + 1] == str[..i] + [c];
      if !Plain(c) {
        if ss.None? {
          ss := Some(str[..i]);
        }
        if c == SPACE && plus {
          ss := Some(ss.value + [PLUS]);
        } else {
          var escaped := AppendEscape(ss.value, c);
          ss := Some(escaped);
        }
      } else if ss.Some? {
        ss := Some(ss.value + [c]);
      }
    }
    assert str[..|str|] == str;
    r := if ss.None? then str else ss.value;
  }

  method AppendEscape(out: text, c: byte) returns (r: text)
    ensures r == out + [PERCENT, HexDigit(c / 16), HexDigit(c % 16)]
  {
    hide HexDigit, BitAnd;
    LowNibble(c);
    r := out + [PERCENT];
    r := r + [HexDigit(c / 16)];
    r := r + [HexDigit(BitAnd(c, 0xf))];
  }

  lemma LowNibble(c: byte)
    ensures BitAnd(c, 0xf) == c % 16
  {
    Pow2Bytes();
    AndMask(c, 4);
  }

  lemma {:induction false} EncodeAppend(a: text, b: text, plus: bool)
    ensures Encode(a + b, plus) == Encode(a, plus) + Encode(b, plus)
  {
    if a == [] {
      assert a + b == b;
    } else {
      hide Encode, EncodeChar;
      EncodeAppend(a[1..], b, plus);
      EncodeCons(a, plus);
      EncodeCons(a + b, plus);
      assert (a + b)[1..] == a[1..] + b;
      ConcatAssociates(EncodeChar(a[0], plus), Encode(a[1..], plus), Encode(b, plus));
    }
  }

  lemma EncodeCons(s: text, plus: bool)
    requires s != []
    ensures Encode(s, plus) == EncodeChar(s[0], plus) + Encode(s[1..], plus)
  {
  }

  lemma EncodeSnoc(s: text, c: byte, plus: bool)
    ensures Encode(s + [c], plus) == Encode(s, plus) + EncodeChar(c, plus)
  {
    EncodeAppend(s, [c], plus);
    assert [c][1..] == [];
  }

  method UrlDecode(str: text, plus: bool) returns (r: text)
    ensures r == Decode(str, plus)
  {
    assert Decode([], plus) == [];
    hide Decode, EscapeValue;
    var ss: Option<text> := None;
    var i := 0;
    while i < |str|
      invariant 0 <= i <= |str|
      invariant Decode(str, plus) == (if ss.Some? then ss.value else str[..i]) + Decode(str[i..], plus)
    {
      var c := str[i];
      ghost var done := if ss.Some? then ss.value else str[..i];
      Regroup(done, str, i, plus);
      if c == PLUS && plus {
        if ss.None? {
          ss := Some(str[..i]);
        }
        ss := Some(ss.value + [SPACE]);
      } else if c == PERCENT && i + 2 < |str| && IsHex(str[i + 1]) && IsHex(str[i + 2]) {
        if ss.None? {
          ss := Some(str[..i]);
        }
        ss := Some(ss.value + [EscapeValue(str[i + 1], str[i + 2])]);
        i := i + 2;
      } else if ss.Some? {
        ss := Some(ss.value + [c]);
      }
      i := i + 1;
    }
    assert str[..|str|] == str && str[|str|..] == [];
    r := if ss.None? then str else ss.value;
  }

  /** One turn of the decoder at index `i`. */
  lemma DecodeStep(str: text, i: nat, plus: bool)
    requires i < |str|
    ensures var s := str[i..];
            Decode(s, plus) ==
              if s[0] == PLUS && plus then [SPACE] + Decode(str[i + 1..], plus)
              else if IsEscape(s) then [EscapeValue(s[1], s[2])] + Decode(str[i + 3..], plus)
              else [s[0]] + Decode(str[i + 1..], plus)
  {
    assert str[i..][1..] == str[i + 1..];
    if IsEscape(str[i..]) {
      assert str[i..][3..] == str[i + 3..];
    }
  }

  lemma Regroup(done: text, str: text, i: nat, plus: bool)
    requires i < |str|
    ensures var s := str[i..];
            done + Decode(s, plus) ==
              if s[0] == PLUS && plus then (done + [SPACE]) + Decode(str[i + 1..], plus)
              else if IsEscape(s) then (done + [EscapeValue(s[1], s[2])]) + Decode(str[i + 3..], plus)
              else (done + [s[0]]) + Decode(str[i + 1..], plus)
    ensures str[..i] + [str[i]] == str[..i + 1]
  {
    DecodeStep(str, i, plus);
    hide Decode;
  }

  // ------------------------------------------------------------- round trips

  /** Decoding what was encoded, with any pair of flags, gives the text back
      exactly when no space was written as a plus that the decoder keeps. */
  lemma {:induction false} EncodeDecode(s: text, plus: bool, decoderPlus: bool)
    ensures Decode(Encode(s, plus), decoderPlus) == s <==> (plus ==> decoderPlus) || SPACE !in s
    ensures |Decode(Encode(s, plus), decoderPlus)| == |s|
  {
    if s != [] {
      var c, rest := s[0], s[1..];
      EncodeDecode(rest, plus, decoderPlus);
      DecodeEncodedChar(c, Encode(rest, plus), plus, decoderPlus);
      assert s == [c] + rest;
    }
  }

  lemma DecodeEncodedChar(c: byte, rest: text, plus: bool, decoderPlus: bool)
    ensures Decode(EncodeChar(c, plus) + rest, decoderPlus) ==
      [if c == SPACE && plus && !decoderPlus then PLUS else c] + Decode(rest, decoderPlus)
  {
    var e := EncodeChar(c, plus);
    var s := e + rest;
    if |e| == 1 {
      assert s[1..] == rest;
    } else {
      EscapeDigits(c);
      assert s[3..] == rest;
    }
  }

  /** Both settings of the flag round-trip every text. */
  lemma RoundTrip(s: text, plus: bool)
    ensures Decode(Encode(s, plus), plus) == s
  {
    EncodeDecode(s, plus, plus);
  }

  predicate Safe(c: byte) {
    Plain(c) || c == PERCENT || c == PLUS
  }

  predicate AllSafe(s: text) {
    forall c :: c in s ==> Safe(c)
  }

  /** Encoded text uses the safe characters only. */
  lemma {:induction false} EncodedIsSafe(s: text, plus: bool)
    ensures AllSafe(Encode(s, plus))
  {
    if s != [] {
      EncodedIsSafe(s[1..], plus);
      var e := EncodeChar(s[0], plus);
      assert AllSafe(e);
    }
  }

  // -------------------------------------------------------- character by character

  /** The digits of base 16 in the two cases of their letters. */
  function Digit(d: nat, upper: bool): byte
    requires d < 16
  {
    (if upper then "0123456789ABCDEF" else "0123456789abcdef")[d] as int
  }

  predicate IsDigit(c: byte) {
    exists d: nat, upper: bool :: d < 16 && Digit(d, upper) == c
  }

  /** Letters, digits, `-._~` and `=` are left alone, a space becomes a plus if that
      is asked for, and anything else its two digits behind a percent sign. */
  lemma EncodedAs(c: byte, plus: bool)
    ensures Encode([c], plus) ==
              if 'a' as int <= c <= 'z' as int || 'A' as int <= c <= 'Z' as int || '0' as int <= c <= '9' as int ||
                 c == '-' as int || c == '.' as int || c == '_' as int || c == '~' as int || c == '=' as int then [c]
              else if c == ' ' as int && plus then ['+' as int]
              else ['%' as int, Digit(c / 16, true), Digit(c % 16, true)]
  {
    assert [c][1..] == [];
    HexDigitIs(c / 16);
    HexDigitIs(c % 16);
  }

  lemma HexDigitIs(d: nat)
    requires d < 16
    ensures HexDigit(d) == Digit(d, true)
  {
  }

  lemma DigitIs(d: nat, upper: bool)
    requires d < 16
    ensures IsHex(Digit(d, upper)) && HexValue(Digit(d, upper)) == d
  {
  }

  lemma HexIsDigit(c: byte)
    ensures IsHex(c) <==> IsDigit(c)
  {
    if IsHex(c) {
      assert Digit(HexValue(c), c < 0x60) == c;
    }
    if IsDigit(c) {
      var d: nat, upper: bool :| d < 16 && Digit(d, upper) == c;
      DigitIs(d, upper);
    }
  }

  /** An escape in digits of either case is the byte it spells. */
  lemma EscapeDecodes(hi: nat, lo: nat, upperHi: bool, upperLo: bool, rest: text, plus: bool)
    requires hi < 16 && lo < 16
    ensures Decode(['%' as int, Digit(hi, upperHi), Digit(lo, upperLo)] + rest, plus) == [16 * hi + lo] + Decode(rest, plus)
  {
    hide BitOr, Digit, HexValue, IsHex;
    DigitIs(hi, upperHi);
    DigitIs(lo, upperLo);
    var s := ['%' as int, Digit(hi, upperHi), Digit(lo, upperLo)] + rest;
    assert s[3..] == rest;
    EscapeIs(Digit(hi, upperHi), Digit(lo, upperLo), hi, lo);
  }

  lemma EscapeIs(a: byte, b: byte, hi: nat, lo: nat)
    requires hi < 16 && lo < 16 && HexValue(a) == hi && HexValue(b) == lo
    ensures EscapeValue(a, b) == 16 * hi + lo
  {
    hide BitOr, HexValue;
    Pow2Bytes();
    OrDisjoint(lo, hi, 4);
  }

  /** Anything else is kept: a percent sign without two digits behind it, and a plus
      unless it stands for a space. */
  lemma OthersKept(c: byte, rest: text, plus: bool)
    ensures c == '+' as int && plus ==> Decode([c] + rest, plus) == [' ' as int] + Decode(rest, plus)
    ensures (c == '+' as int ==> !plus) &&
            (c == '%' as int ==> |rest| < 2 || !IsDigit(rest[0]) || !IsDigit(rest[1])) ==>
              Decode([c] + rest, plus) == [c] + Decode(rest, plus)
  {
    hide IsDigit, IsHex;
    assert ([c] + rest)[1..] == rest;
    if |rest| >= 2 {
      HexIsDigit(rest[0]);
      HexIsDigit(rest[1]);
    }
  }
}
