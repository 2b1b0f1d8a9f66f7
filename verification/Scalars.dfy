/** Hexadecimal scalars: the text form in which offsets and keys travel between the programs. */
module Scalars {
  import opened Common
  import opened Digits
  import opened Base58

  function HexDigit(d: nat): (c: char)
    requires d < 16
    ensures HexValue(c) == Some(d)
  {
    if d < 10 then '0' + d as char else 'a' + (d - 10) as char
  }

  /** Either case, as `isxdigit` and Python's `int(text, 16)` accept. */
  function HexValue(c: char): (d: Option<nat>)
    ensures d.Some? ==> d.value < 16
  {
    if '0' <= c <= '9' then Some((c - '0') as nat)
    else if 'a' <= c <= 'f' then Some(10 + (c - 'a') as nat)
    else if 'A' <= c <= 'F' then Some(10 + (c - 'A') as nat)
    else None
  }

  function DecimalValue(c: char): (d: Option<nat>)
    ensures d.Some? ==> d.value < 10
  {
    if '0' <= c <= '9' then Some((c - '0') as nat) else None
  }

  /** Digits are written in lower case and read in either. */
  lemma HexDigitsAre(d: nat)
    requires d < 16
    ensures "0123456789abcdef"[d] == HexDigit(d)
    ensures HexValue("0123456789abcdef"[d]) == HexValue("0123456789ABCDEF"[d]) == Some(d)
    ensures d < 10 ==> DecimalValue("0123456789"[d]) == Some(d)
  {
  }

  function HexText(ds: seq<nat>): (s: string)
    requires AreDigits(16, ds)
    ensures |s| == |ds| && forall i | 0 <= i < |ds| :: s[i] == HexDigit(ds[i])
  {
    seq(|ds|, i requires 0 <= i < |ds| => HexDigit(ds[i]))
  }

  predicate Below256Bits(v: nat) { v < Pow(16, 64) }

  /** 64 lower-case digits, zero-padded. */
  function Hex64(v: nat): (s: string)
    requires Below256Bits(v)
    ensures |s| == 64
  {
    HexText(Padded(16, v, 64))
  }

  // ---- Bytes -----------------------------------------------------------------------------------

  lemma ByteNibbles(b: Byte)
    ensures b / 16 < 16 && b % 16 < 16 && (b / 16) * 16 + b % 16 == b
  {
  }

  function Nibbles(bytes: seq<Byte>): (ds: seq<nat>)
    ensures |ds| == 2 * |bytes| && AreDigits(16, ds)
  {
    if bytes == [] then []
    else Nibbles(bytes[..|bytes| - 1]) + [bytes[|bytes| - 1] / 16, bytes[|bytes| - 1] % 16]
  }

  lemma {:induction false} ValueOfNibbles(bytes: seq<Byte>)
    ensures Value(16, Nibbles(bytes)) == Value(256, bytes)
  {
    if bytes != [] {
      var rest, b := bytes[..|bytes| - 1], bytes[|bytes| - 1];
      ValueOfNibbles(rest);
      var x := Nibbles(rest) + [b / 16];
      ValueAppend(16, Nibbles(rest), b / 16);
      ValueAppend(16, x, b % 16);
      assert Nibbles(bytes) == x + [b % 16];
      ByteNibbles(b);
    }
  }

  /** `bytes_to_hex`. */
  method BytesToHex(bytes: seq<Byte>) returns (s: string)
    ensures s == HexText(Nibbles(bytes))
  {
    hide HexDigit;
    s := "";
    for index := 0 to |bytes|
      invariant s == HexText(Nibbles(bytes[..index]))
    {
      ghost var next := bytes[..index + 1];
      assert next[..|next| - 1] == bytes[..index];
      s := s + [HexDigit(bytes[index] / 16), HexDigit(bytes[index] % 16)];
    }
    assert bytes[..|bytes|] == bytes;
  }

  /** `BN_bn2binpad` to 32 bytes and then `bytes_to_hex`; it fails on values that need more bytes. */
  method ScalarToHex(v: nat) returns (s: Option<string>)
    ensures s == if Below256Bits(v) then Some(Hex64(v)) else None
  {
    hide Padded, Value, HexText, Nibbles, Pow;
    SameLimit();
    if v >= Pow(256, 32) {
      return None;
    }
    var bytes: seq<Byte> := Padded(256, v, 32);
    var text := BytesToHex(bytes);
    ValueOfNibbles(bytes);
    FixedLengthInjective(16, Nibbles(bytes), Padded(16, v, 64));
    return Some(text);
  }

  lemma SameLimit()
    ensures Pow(256, 32) == Pow(16, 64)
  {
    SmallPowers();
    assert Pow(16, 4) == 65536;
    hide Pow;
    PowAdd(16, 4, 4); PowAdd(16, 8, 8); PowAdd(16, 16, 16); PowAdd(16, 32, 32);
    PowAdd(256, 8, 8); PowAdd(256, 16, 16);
  }

  lemma Limits()
    ensures Pow(16, 32) == 0x1_0000_0000_0000_0000_0000_0000_0000_0000
    ensures Pow(16, 64) == Pow(16, 32) * Pow(16, 32)
    ensures SECP256K1_ORDER < Pow(16, 64)
  {
    assert Pow(16, 4) == 65536;
    hide Pow;
    PowAdd(16, 4, 4); PowAdd(16, 8, 8); PowAdd(16, 16, 16); PowAdd(16, 32, 32);
  }

  // ---- Parsing ---------------------------------------------------------------------------------

  /** How many leading characters of `s` are digits of the base. */
  function DigitRun(s: string, digit: char -> Option<nat>): (n: nat)
    ensures n <= |s| && (forall i | 0 <= i < n :: digit(s[i]).Some?) && (n < |s| ==> digit(s[n]) == None)
  {
    if s == "" || digit(s[0]) == None then 0 else 1 + DigitRun(s[1..], digit)
  }

  function DigitValues(s: string, digit: char -> Option<nat>): (ds: seq<nat>)
    requires forall i | 0 <= i < |s| :: digit(s[i]).Some?
    ensures |ds| == |s| && forall i | 0 <= i < |s| :: digit(s[i]) == Some(ds[i])
  {
    seq(|s|, i requires 0 <= i < |s| => digit(s[i]).value)
  }

  /** The big-number readers: an optional minus, then the longest run of digits; no digit is an error. */
  function ReadNumber(s: string, base: nat, digit: char -> Option<nat>): Option<int> {
    var negative := s != "" && s[0] == '-';
    var body := if negative then s[1..] else s;
    var n := DigitRun(body, digit);
    if n == 0 then None
    else
      var v: int := Value(base, DigitValues(body[..n], digit));
      Some(if negative then -v else v)
  }

  predicate HexLetter(c: char) { 'a' <= c <= 'f' || 'A' <= c <= 'F' }

  predicate ReadsAsHex(s: string) { |s| == 64 || exists i | 0 <= i < |s| :: HexLetter(s[i]) }

  predicate HexMarked(s: string) { |s| >= 2 && s[0] == '0' && s[1] in "xX" }

  /** The meaning of `parse_range_start`. */
  function ParsedScalar(s: string): Option<int> {
    if s == "" then None
    else if HexMarked(s) then ReadNumber(s[2..], 16, HexValue)
    else if ReadsAsHex(s) then ReadNumber(s, 16, HexValue)
    else ReadNumber(s, 10, DecimalValue)
  }

  /** `parse_range_start`. */
  method ParseRangeStart(s: string) returns (scalar: Option<int>)
    ensures scalar == ParsedScalar(s)
  {
    hide ReadNumber, HexLetter;
    if s == "" {
      return None;
    }
    var parseAsHex := false;
    var digits := s;
    if HexMarked(s) {
      parseAsHex := true;
      digits := s[2..];
    } else {
      parseAsHex := |s| == 64;
      for index := 0 to |s|
        invariant parseAsHex == (|s| == 64 || exists i | 0 <= i < index :: HexLetter(s[i]))
      {
        if HexLetter(s[index]) {
          parseAsHex := true;
        }
      }
    }
    if parseAsHex {
      scalar := ReadNumber(digits, 16, HexValue);
    } else {
      scalar := ReadNumber(digits, 10, DecimalValue);
    }
  }

  /** A text of digits only is read whole. */
  lemma ReadDigits(s: string, base: nat, digit: char -> Option<nat>, ds: seq<nat>)
    requires s != "" && |ds| == |s| && digit('-') == None && forall i | 0 <= i < |s| :: digit(s[i]) == Some(ds[i])
    ensures ReadNumber(s, base, digit) == Some(Value(base, ds))
  {
    hide Value;
    assert DigitRun(s, digit) == |s|;
    assert s[..|s|] == s;
    assert DigitValues(s, digit) == ds;
  }

  /** Hexadecimal digits are read as such when they are marked, 64 of them, or not all decimal. */
  lemma HexIsRead(s: string, ds: seq<nat>)
    requires s != "" && |ds| == |s| && forall i | 0 <= i < |s| :: HexValue(s[i]) == Some(ds[i])
    ensures ParsedScalar("0x" + s) == Some(Value(16, ds)) && ParsedScalar("0X" + s) == Some(Value(16, ds))
    ensures |s| == 64 || (exists i | 0 <= i < |s| :: DecimalValue(s[i]).None?) ==>
      ParsedScalar(s) == Some(Value(16, ds))
  {
    hide ReadNumber, Value, HexValue, DecimalValue, HexLetter, HexMarked;
    Minus();
    MarkedOnes(s);
    ReadDigits(s, 16, HexValue, ds);
    HexCharacters(s, ds);
    assert ("0x" + s)[2..] == s && ("0X" + s)[2..] == s;
  }

  lemma MarkedOnes(s: string)
    ensures HexMarked("0x" + s) && HexMarked("0X" + s)
  {
  }

  lemma HexCharacters(s: string, ds: seq<nat>)
    requires |ds| == |s| && forall i | 0 <= i < |s| :: HexValue(s[i]) == Some(ds[i])
    ensures !HexMarked(s)
    ensures forall i | 0 <= i < |s| :: HexLetter(s[i]) <==> DecimalValue(s[i]).None?
  {
  }

  /** Other decimal digits are read as such, negated after a minus. */
  lemma DecimalIsRead(s: string, ds: seq<nat>)
    requires s != "" && |ds| == |s| && forall i | 0 <= i < |s| :: DecimalValue(s[i]) == Some(ds[i])
    ensures |s| != 64 ==> ParsedScalar(s) == Some(Value(10, ds))
    ensures |s| != 63 ==> ParsedScalar("-" + s) == Some(-(Value(10, ds) as int))
  {
    hide ReadNumber, Value, DecimalValue, HexLetter, HexMarked;
    Minus();
    ReadDigits(s, 10, DecimalValue, ds);
    NegatedIsRead(s, ds);
    DecimalIsNoHex(s, ds);
    DecimalIsNoHex("-" + s, [0] + ds);
  }

  lemma DecimalIsNoHex(s: string, ds: seq<nat>)
    requires |ds| == |s| && forall i | 0 <= i < |s| :: s[i] == '-' || DecimalValue(s[i]) == Some(ds[i])
    ensures !HexMarked(s) && forall i | 0 <= i < |s| :: !HexLetter(s[i])
  {
  }

  lemma NegatedIsRead(s: string, ds: seq<nat>)
    requires s != "" && |ds| == |s| && forall i | 0 <= i < |s| :: DecimalValue(s[i]) == Some(ds[i])
    ensures ReadNumber("-" + s, 10, DecimalValue) == Some(-(Value(10, ds) as int))
  {
    hide Value;
    assert ("-" + s)[1..] == s;
    assert DigitRun(s, DecimalValue) == |s|;
    assert s[..|s|] == s;
    assert DigitValues(s, DecimalValue) == ds;
  }

  lemma HexIsNotMarked(v: nat)
    requires Below256Bits(v)
    ensures !HexMarked(Hex64(v))
  {
    var ds := Padded(16, v, 64);
    hide Padded;
    assert Hex64(v)[1] == HexDigit(ds[1]);
  }

  /** The parser inverts the printer for every 256-bit value. */
  lemma ParseInvertsHex(v: nat)
    requires Below256Bits(v)
    ensures ParsedScalar(Hex64(v)) == Some(v)
  {
    HexIsNotMarked(v);
    hide Padded, Value, ReadNumber, HexDigit;
    ReadDigits(Hex64(v), 16, HexValue, Padded(16, v, 64));
  }

  function DecimalText(v: nat): (s: string)
    requires v > 0
    ensures s != ""
  {
    ValueOfDigits(10, v);
    NoDigitsMeansZero(10, v);
    var ds := DigitsOf(10, v);
    seq(|ds|, i requires 0 <= i < |ds| => '0' + ds[i] as char)
  }

  lemma DecimalCharacters(v: nat, i: nat)
    requires v > 0 && i < |DecimalText(v)|
    ensures AreDigits(10, DigitsOf(10, v)) && |DigitsOf(10, v)| == |DecimalText(v)|
    ensures var c := DecimalText(v)[i];
      DecimalValue(c) == Some(DigitsOf(10, v)[i]) && HexValue(c) == Some(DigitsOf(10, v)[i])
      && !HexLetter(c) && c != 'x' && c != 'X'
  {
    ValueOfDigits(10, v);
    hide DigitsOf;
  }

  lemma {:induction false} HigherBaseIsLarger(ds: seq<nat>)
    requires AreDigits(10, ds)
    ensures Value(16, ds) >= Value(10, ds)
    ensures |ds| >= 2 && Canonical(ds) ==> Value(16, ds) > Value(10, ds)
  {
    if ds != [] {
      var rest := ds[..|ds| - 1];
      HigherBaseIsLarger(rest);
      if |ds| >= 2 && ds[0] != 0 { ValueIsPositive(10, rest); }
    }
  }

  /** A decimal number is understood unless it has exactly 64 digits: then it is taken for hexadecimal. */
  lemma DecimalReadIff(v: nat)
    requires v > 0
    ensures ParsedScalar(DecimalText(v)) == Some(v) <==> |DecimalText(v)| != 64
  {
    var s, ds := DecimalText(v), DigitsOf(10, v);
    forall i | 0 <= i < |s|
      ensures |ds| == |s| && AreDigits(10, ds) && DecimalValue(s[i]) == Some(ds[i]) && HexValue(s[i]) == Some(ds[i])
      ensures !HexLetter(s[i]) && s[i] != 'x' && s[i] != 'X'
    {
      DecimalCharacters(v, i);
    }
    ValueOfDigits(10, v);
    hide DigitsOf, Value, ReadNumber, DecimalValue, HexValue, DecimalText;
    DecimalCharacters(v, 0);
    Minus();
    if |s| == 64 {
      ReadDigits(s, 16, HexValue, ds);
      HigherBaseIsLarger(ds);
    } else {
      ReadDigits(s, 10, DecimalValue, ds);
    }
  }

  /** Ten to the 63rd is a scalar whose decimal text is misread. */
  lemma MisreadDecimal()
    ensures IsScalar(Pow(10, 63)) && |DecimalText(Pow(10, 63))| == 64
    ensures ParsedScalar(DecimalText(Pow(10, 63))) != Some(Pow(10, 63))
  {
    TenToThe63();
    NextPower(10, 63);
    LengthFromBounds(10, Pow(10, 63), 64);
    DecimalReadIff(Pow(10, 63));
    DecimalLength(Pow(10, 63));
    hide Pow, ParsedScalar, DecimalText, DigitsOf;
  }

  lemma TenToThe63()
    ensures Pow(10, 63) == 0x2_6e4d_30ec_cc32_15dd_8f31_57d2_7e23_acbd_cfe6_8000_0000_0000_0000
  {
    assert Pow(10, 4) == 10_000;
    assert Pow(10, 7) == 10_000_000;
    hide Pow;
    PowAdd(10, 7, 7); PowAdd(10, 14, 14); PowAdd(10, 28, 28); PowAdd(10, 56, 7);
  }

  lemma DecimalLength(v: nat)
    requires v > 0
    ensures |DecimalText(v)| == |DigitsOf(10, v)|
  {
    hide DigitsOf;
  }

  lemma NextPower(b: nat, e: nat)
    requires b >= 2
    ensures Pow(b, e) < Pow(b, e + 1)
  {
    PowPositive(b, e);
  }

  lemma Minus()
    ensures HexValue('-') == None && DecimalValue('-') == None
  {
  }

  // ---- Order -----------------------------------------------------------------------------------

  /** `operator<` of `std::string`. */
  predicate TextLess(s: string, t: string) {
    if s == "" || t == "" then s == "" && t != ""
    else if s[0] != t[0] then s[0] < t[0]
    else TextLess(s[1..], t[1..])
  }

  lemma HexDigitOrder(d: nat, e: nat)
    requires d < 16 && e < 16
    ensures HexDigit(d) < HexDigit(e) <==> d < e
    ensures HexDigit(d) == HexDigit(e) <==> d == e
  {
  }

  lemma TextLessStep(x: seq<nat>, y: seq<nat>)
    requires |x| == |y| > 0 && AreDigits(16, x) && AreDigits(16, y)
    ensures AreDigits(16, x[1..]) && AreDigits(16, y[1..])
    ensures TextLess(HexText(x), HexText(y)) <==>
      x[0] < y[0] || (x[0] == y[0] && TextLess(HexText(x[1..]), HexText(y[1..])))
  {
    assert HexText(x)[1..] == HexText(x[1..]) && HexText(y)[1..] == HexText(y[1..]);
    HexDigitOrder(x[0], y[0]);
    hide HexDigit;
  }

  lemma ValueStep(x: seq<nat>)
    requires x != [] && AreDigits(16, x)
    ensures Value(16, x) == x[0] * Pow(16, |x| - 1) + Value(16, x[1..]) && Value(16, x[1..]) < Pow(16, |x| - 1)
  {
    hide Value, Pow;
    assert x == [x[0]] + x[1..];
    ValuePrepend(16, x[0], x[1..]);
    ValueBelow(16, x[1..]);
  }

  lemma {:induction false} TextOrderIsNumeric(x: seq<nat>, y: seq<nat>)
    requires |x| == |y| && AreDigits(16, x) && AreDigits(16, y)
    ensures TextLess(HexText(x), HexText(y)) <==> Value(16, x) < Value(16, y)
  {
    if x == [] {
      assert y == [];
    } else {
      hide Pow, Value, HexText, TextLess;
      TextLessStep(x, y);
      TextOrderIsNumeric(x[1..], y[1..]);
      ValueStep(x);
      ValueStep(y);
      LeadingDigitDecides(x[0], y[0], Pow(16, |x| - 1), Value(16, x[1..]), Value(16, y[1..]));
    }
  }

  lemma LeadingDigitDecides(d: nat, e: nat, p: nat, v: nat, w: nat)
    requires v < p && w < p
    ensures d < e ==> d * p + v < e * p + w
    ensures d > e ==> d * p + v > e * p + w
  {
    if d < e { MulRight(d + 1, e, p); }
    if d > e { MulRight(e + 1, d, p); }
  }

  /** Comparing 64-digit texts compares the numbers, so the smallest text is the smallest offset. */
  lemma HexOrder(v: nat, w: nat)
    requires Below256Bits(v) && Below256Bits(w)
    ensures TextLess(Hex64(v), Hex64(w)) <==> v < w
  {
    hide Padded, Value, HexText;
    TextOrderIsNumeric(Padded(16, v, 64), Padded(16, w, 64));
  }

  // ---- Scalars in range ------------------------------------------------------------------------

  predicate IsScalar(v: int) { 1 <= v < SECP256K1_ORDER }

  /** `add_to_offset`. */
  method AddToOffset(offset: string, increment: nat) returns (sum: Option<string>)
    ensures sum == match ParsedScalar(offset)
      case None => None
      case Some(v) => (Limits(); if IsScalar(v + increment) then Some(Hex64(v + increment)) else None)
  {
    hide ParsedScalar, Hex64;
    Limits();
    var scalar := ParseRangeStart(offset);
    if scalar == None {
      return None;
    }
    var v := scalar.value + increment;
    if v == 0 || v < 0 || v >= SECP256K1_ORDER {
      return None;
    }
    sum := ScalarToHex(v);
  }

  const BAND: nat := 0x1_0000_0000_0000_0000_0000_0000_0000_0000

  /** A device index, zero-padded to 32 digits, then the number one in 32 digits. */
  function DeviceBandStart(device: nat): (s: string)
    requires device < BAND
    ensures |s| == 64
  {
    Limits();
    HexText(Padded(16, device, 32)) + HexText(Padded(16, 1, 32))
  }

  lemma HighHalf(v: nat)
    requires v < BAND * BAND
    ensures Below256Bits(v) && v / BAND < BAND && v / BAND < Pow(16, 32)
    ensures Hex64(v)[..32] == HexText(Padded(16, v / BAND, 32))
    ensures v % BAND < Pow(16, 32) && Hex64(v) == HexText(Padded(16, v / BAND, 32)) + HexText(Padded(16, v % BAND, 32))
  {
    Limits();
    hide Pow, Padded, Value, HexDigit;
    var q, r := v / BAND, v % BAND;
    assert v == q * BAND + r;
    QuotientBelow(v, BAND, BAND);
    var x, y := Padded(16, q, 32), Padded(16, r, 32);
    ValueConcat(16, x, y);
    FixedLengthInjective(16, x + y, Padded(16, v, 64));
    assert Hex64(v) == HexText(x) + HexText(y);
  }

  /** `device_band_start` prints device * 2^128 + 1. */
  lemma BandStartValue(device: nat)
    requires device < BAND
    ensures device * BAND + 1 < BAND * BAND && Below256Bits(device * BAND + 1)
    ensures DeviceBandStart(device) == Hex64(device * BAND + 1)
  {
    hide Pow, Padded, HexText;
    var v := device * BAND + 1;
    MulRight(device, BAND - 1, BAND);
    QuotientAndRest(BAND, device, 1);
    HighHalf(v);
    Limits();
  }

  lemma HexTextInjective(x: seq<nat>, y: seq<nat>)
    requires AreDigits(16, x) && AreDigits(16, y) && HexText(x) == HexText(y)
    ensures x == y
  {
    forall i | 0 <= i < |x| ensures |x| == |y| && x[i] == y[i] {
      assert HexText(x)[i] == HexText(y)[i];
      HexDigitOrder(x[i], y[i]);
    }
    assert |HexText(x)| == |HexText(y)|;
  }

  /** Two scalars share their first 32 digits exactly when they lie in the same 2^128 band. */
  lemma SameBandIff(v: nat, w: nat)
    requires v < BAND * BAND && w < BAND * BAND
    ensures Below256Bits(v) && Below256Bits(w)
    ensures Hex64(v)[..32] == Hex64(w)[..32] <==> v / BAND == w / BAND
  {
    HighHalf(v);
    HighHalf(w);
    hide Hex64, Padded, HexText, Value, Pow;
    if Hex64(v)[..32] == Hex64(w)[..32] {
      HexTextInjective(Padded(16, v / BAND, 32), Padded(16, w / BAND, 32));
    }
  }
}
