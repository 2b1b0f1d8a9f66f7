/** Numeric bounds of TRON addresses: 21-byte payloads whose first byte is 0x41. */
module TronAddress {
  import opened Common
  import opened Digits
  import opened Base58
  import opened Base58Check

  const FIRST_CUSTOM: string := "9ABCDEFGHJKLMNPQRSTUVWXYZ"

  predicate IsTronPayload(payload: seq<Byte>) { |payload| == 21 && payload[0] == 0x41 }

  /** `validate_tron_address`. */
  predicate ValidTronAddress(hash: Hash, s: string) {
    && |s| == 34 && s[0] == 'T'
    && var decoded := CheckDecode(hash, s);
       decoded.Payload? && IsTronPayload(decoded.bytes)
  }

  const P32: nat := 268965015114358137726910587140455987105619365599731777536

  lemma LargePowers()
    ensures Pow(58, 32) == P32 && Pow(256, 20) == 0x1_0000000000_0000000000_0000000000_0000000000
    ensures Pow(256, 24) == 0x1_000000000000_000000000000_000000000000_000000000000
    ensures Pow(256, 4) == 0x1_0000_0000
  {
    SmallPowers();
    SmallPowers58();
    hide Pow;
    PowAdd(58, 10, 11);
    PowAdd(58, 21, 11);
    PowAdd(256, 8, 8);
    PowAdd(256, 16, 4);
    PowAdd(256, 16, 8);
  }

  /** A number split at the n-th digit: the digits of the high part, then exactly n digits. */
  lemma DigitsSplit(b: nat, q: nat, n: nat, r: nat)
    requires b >= 2 && q > 0 && r < Pow(b, n)
    ensures DigitsOf(b, q * Pow(b, n) + r) == DigitsOf(b, q) + Padded(b, r, n)
  {
    NoDigitsMeansZero(b, q);
    ValueOfDigits(b, q);
    hide DigitsOf, Padded;
    ValueConcat(b, DigitsOf(b, q), Padded(b, r, n));
    DigitsOfValue(b, DigitsOf(b, q) + Padded(b, r, n));
  }

  lemma TwoDigits(b: nat, x: nat, y: nat)
    requires b >= 2 && 0 < x < b && y < b
    ensures DigitsOf(b, x * b + y) == [x, y]
  {
    hide DigitsOf;
    SingleDigit(b, x);
    assert [x, y][..1] == [x];
    assert Value(b, [x, y]) == x * b + y;
    DigitsOfValue(b, [x, y]);
  }

  /** The 25-byte number behind an address. */
  function AddressNumber(hash: Hash, payload: seq<Byte>): nat { Value(256, payload + Checksum(hash, payload)) }

  /** The second character of an address, read off its number. */
  function SecondDigit(number: nat): int { number / P32 - 26 * 58 }

  lemma NumberBounds(hash: Hash, payload: seq<Byte>)
    requires IsTronPayload(payload)
    ensures 0x41 * Pow(256, 24) <= AddressNumber(hash, payload) < 0x42 * Pow(256, 24)
    ensures 0 <= AddressNumber(hash, payload) - Value(256, payload) * Pow(256, 4) < Pow(256, 4)
  {
    hide Pow, Value;
    var sum := Checksum(hash, payload);
    var bytes := payload + sum;
    ValueConcat(256, payload, sum);
    ValueBelow(256, sum);
    var rest := bytes[1..];
    assert bytes == [0x41] + rest;
    ValueConcat(256, [0x41], rest);
    SingleDigit(256, 0x41);
    ValueBelow(256, rest);
  }

  /** 34 characters, the first is 'T', the second is the letter of a digit between 8 and 32. */
  lemma AddressShape(hash: Hash, payload: seq<Byte>)
    requires IsTronPayload(payload)
    ensures var d, s := SecondDigit(AddressNumber(hash, payload)), CheckEncode(hash, payload);
      8 <= d <= 32 && |s| == 34 && s[0] == 'T' && s[1] == Letter(d)
  {
    var bytes, number := payload + Checksum(hash, payload), AddressNumber(hash, payload);
    NumberBounds(hash, payload);
    LargePowers();
    hide Pow, Value, DigitsOf, Padded;
    var d := SecondDigit(number);
    assert 8 <= d <= 32;
    var q, r := 26 * 58 + d, number % P32;
    assert number == q * P32 + r;
    DigitsSplit(58, q, 32, r);
    TwoDigits(58, 26, d);
    assert LeadingZeros(bytes) == 0;
    var ds := [26, d] + Padded(58, r, 32);
    assert CheckEncode(hash, payload) == Letters(ds);
    assert Letter(26) == 'T';
  }

  /** Every derived address is valid, and a valid address is the address of its own payload. */
  lemma ValidIffDerived(hash: Hash, s: string)
    ensures ValidTronAddress(hash, s) <==> exists payload :: IsTronPayload(payload) && s == CheckEncode(hash, payload)
  {
    hide CheckEncode, CheckDecode;
    if ValidTronAddress(hash, s) {
      EncodeInvertsDecode(hash, s);
    }
    if payload :| IsTronPayload(payload) && s == CheckEncode(hash, payload) {
      AddressShape(hash, payload);
      DecodeInvertsEncode(hash, payload);
    }
  }

  /** For every digit from 8 to 32 there is a 21-byte number that puts it second, whatever the checksum. */
  function PayloadNumber(d: nat): (p: nat)
    requires 8 <= d <= 32
    ensures 0x41 * 0x1_0000000000_0000000000_0000000000_0000000000 <= p
    ensures p < 0x42 * 0x1_0000000000_0000000000_0000000000_0000000000
    ensures (26 * 58 + d) * P32 <= p * 0x1_0000_0000
    ensures p * 0x1_0000_0000 + 0xFFFF_FFFF < (26 * 58 + d + 1) * P32
  {
    Max(0x41 * 0x1_0000000000_0000000000_0000000000_0000000000, (26 * 58 + d) * P32 / 0x1_0000_0000 + 1)
  }

  lemma PayloadFor(d: nat) returns (payload: seq<Byte>)
    requires 8 <= d <= 32
    ensures IsTronPayload(payload) && Value(256, payload) == PayloadNumber(d)
  {
    LargePowers();
    hide Value, Padded;
    var p := PayloadNumber(d);
    var low := p - 0x41 * Pow(256, 20);
    payload := [0x41] + Padded(256, low, 20);
    ValueConcat(256, [0x41], Padded(256, low, 20));
    SingleDigit(256, 0x41);
  }

  lemma SecondDigitAttained(hash: Hash, d: nat) returns (payload: seq<Byte>)
    requires 8 <= d <= 32
    ensures SecondCharacterOf(hash, payload, Letter(d))
  {
    payload := PayloadFor(d);
    NumberBounds(hash, payload);
    LargePowers();
    AddressShape(hash, payload);
    hide Pow, Value, CheckEncode, Letter;
    var number := AddressNumber(hash, payload);
    assert (26 * 58 + d) * P32 <= number < (26 * 58 + d + 1) * P32;
    assert SecondDigit(number) == d;
  }

  lemma FirstCustomLetters(c: char)
    ensures c in FIRST_CUSTOM <==> exists d: nat :: 8 <= d <= 32 && c == Letter(d)
  {
    assert forall i | 0 <= i < 25 :: FIRST_CUSTOM[i] == Letter(i + 8);
    if c in FIRST_CUSTOM {
      var i :| 0 <= i < |FIRST_CUSTOM| && FIRST_CUSTOM[i] == c;
      assert c == Letter(i + 8);
    }
    if d: nat :| 8 <= d <= 32 && c == Letter(d) {
      assert FIRST_CUSTOM[d - 8] == c;
    }
  }

  ghost predicate SecondCharacterOf(hash: Hash, payload: seq<Byte>, c: char) {
    IsTronPayload(payload) && |CheckEncode(hash, payload)| > 1 && CheckEncode(hash, payload)[1] == c
  }

  /** The validators refuse exactly the second characters no address can have, whatever the checksum. */
  lemma AllowedIffAttained(hash: Hash, c: char)
    ensures c in FIRST_CUSTOM <==> exists payload :: SecondCharacterOf(hash, payload, c)
  {
    hide CheckEncode, Letter;
    FirstCustomLetters(c);
    if c in FIRST_CUSTOM {
      var d: nat :| 8 <= d <= 32 && c == Letter(d);
      var payload := SecondDigitAttained(hash, d);
    }
    if payload :| SecondCharacterOf(hash, payload, c) {
      AddressShape(hash, payload);
      assert c == Letter(SecondDigit(AddressNumber(hash, payload)));
    }
  }
}
