/**
 Base58Check of backend/app/services/patterns.py. The double SHA-256 prefix is an arbitrary function to
 four bytes, so every result holds whatever the hash is.
 */
module Base58Check {
  import opened Common
  import opened Digits
  import opened Base58

  type Hash = seq<Byte> -> (Byte, Byte, Byte, Byte)

  function Checksum(hash: Hash, payload: seq<Byte>): (sum: seq<Byte>)
    ensures |sum| == 4
  {
    var h := hash(payload);
    [h.0, h.1, h.2, h.3]
  }

  function CheckEncode(hash: Hash, payload: seq<Byte>): string { Encode(payload + Checksum(hash, payload)) }

  datatype Decoded = Payload(bytes: seq<Byte>) | InvalidCharacter | TooShort | BadChecksum

  function DigitsIn(s: string): (ds: seq<nat>)
    requires IsBase58(s)
    ensures |ds| == |s| && AreDigits(58, ds) && (forall i | 0 <= i < |s| :: DigitOf(s[i]) == Some(ds[i]))
  {
    seq(|s|, i requires 0 <= i < |s| => DigitOf(s[i]).value)
  }

  /** One zero byte per leading '1', then the bytes of the Base58 number. */
  function Decode58(s: string): seq<Byte>
    requires IsBase58(s)
  {
    var ds := DigitsIn(s);
    ValueOfDigits(256, Value(58, ds));
    Zeros(LeadingZeros(ds)) + DigitsOf(256, Value(58, ds))
  }

  function CheckDecode(hash: Hash, s: string): Decoded {
    if !IsBase58(s) then InvalidCharacter
    else if |Decode58(s)| < 5 then TooShort
    else
      var bytes := Decode58(s);
      var n := |bytes| - 4;
      if bytes[n..] == Checksum(hash, bytes[..n]) then Payload(bytes[..n]) else BadChecksum
  }

  // ---- The plain codec is a bijection between byte strings and Base58 strings ------------------

  lemma LettersRoundTrip(ds: seq<nat>)
    requires AreDigits(58, ds)
    ensures DigitsIn(Letters(ds)) == ds
  {
  }

  lemma DigitsRoundTrip(s: string)
    requires IsBase58(s)
    ensures Letters(DigitsIn(s)) == s
  {
    var ds := DigitsIn(s);
    forall i | 0 <= i < |s| ensures Letters(ds)[i] == s[i] { LetterOfDigit(s[i]); }
  }

  lemma OnesAreZeros(n: nat, ds: seq<nat>)
    requires AreDigits(58, ds)
    ensures AreDigits(58, Zeros(n) + ds) && Ones(n) + Letters(ds) == Letters(Zeros(n) + ds)
  {
    assert Letter(0) == '1';
    hide Letter;
  }

  /** The letters of an encoding are the digits: zeros for leading zero bytes, then canonical ones. */
  lemma EncodedDigits(bytes: seq<Byte>)
    ensures IsBase58(Encode(bytes))
    ensures DigitsIn(Encode(bytes)) == Zeros(LeadingZeros(bytes)) + DigitsOf(58, Value(256, bytes))
  {
    hide DigitsOf, Value, Letters;
    var n, ds := LeadingZeros(bytes), DigitsOf(58, Value(256, bytes));
    ValueOfDigits(58, Value(256, bytes));
    OnesAreZeros(n, ds);
    LettersRoundTrip(Zeros(n) + ds);
  }

  lemma DecodeOfEncode(bytes: seq<Byte>)
    ensures IsBase58(Encode(bytes)) && Decode58(Encode(bytes)) == bytes
  {
    hide DigitsOf, Value, Encode;
    var v, n := Value(256, bytes), LeadingZeros(bytes);
    ValueOfDigits(58, v);
    EncodedDigits(bytes);
    LeadingZerosOf(n, DigitsOf(58, v));
    ValueIgnoresLeadingZeros(58, n, DigitsOf(58, v));
    SplitLeadingZeros(256, bytes);
  }

  lemma EncodeOfDecode(s: string)
    requires IsBase58(s)
    ensures Encode(Decode58(s)) == s
  {
    hide DigitsOf, Value;
    var ds := DigitsIn(s);
    var v, n, bytes := Value(58, ds), LeadingZeros(ds), Decode58(s);
    ValueOfDigits(256, v);
    LeadingZerosOf(n, DigitsOf(256, v));
    ValueIgnoresLeadingZeros(256, n, DigitsOf(256, v));
    EncodedDigits(bytes);
    SplitLeadingZeros(58, ds);
    DigitsRoundTrip(s);
    DigitsRoundTrip(Encode(bytes));
  }

  // ---- Base58Check -----------------------------------------------------------------------------

  /** Decoding inverts encoding exactly for non-empty payloads; the empty one is refused as too short. */
  lemma DecodeInvertsEncode(hash: Hash, payload: seq<Byte>)
    ensures CheckDecode(hash, CheckEncode(hash, payload)) == Payload(payload) <==> payload != []
    ensures payload == [] ==> CheckDecode(hash, CheckEncode(hash, payload)) == TooShort
  {
    var bytes := payload + Checksum(hash, payload);
    DecodeOfEncode(bytes);
    hide Encode, Decode58;
    assert bytes[..|bytes| - 4] == payload && bytes[|bytes| - 4..] == Checksum(hash, payload);
  }

  /** Each refusal has its own reason. */
  lemma RefusalDecided(hash: Hash, s: string)
    ensures CheckDecode(hash, s).InvalidCharacter? <==> !IsBase58(s)
    ensures CheckDecode(hash, s).TooShort? <==> IsBase58(s) && |Decode58(s)| <= 4
    ensures CheckDecode(hash, s).Payload? ==>
      IsBase58(s) && Decode58(s) == CheckDecode(hash, s).bytes + Checksum(hash, CheckDecode(hash, s).bytes)
  {
    hide IsBase58, Decode58, Checksum;
    if IsBase58(s) && |Decode58(s)| > 4 {
      var bytes := Decode58(s);
      assert bytes == bytes[..|bytes| - 4] + bytes[|bytes| - 4..];
    }
  }

  lemma EncodeInvertsDecode(hash: Hash, s: string)
    requires CheckDecode(hash, s).Payload?
    ensures CheckEncode(hash, CheckDecode(hash, s).bytes) == s
  {
    EncodeOfDecode(s);
    hide Encode, Decode58;
    var bytes := Decode58(s);
    assert bytes[..|bytes| - 4] + bytes[|bytes| - 4..] == bytes;
  }

  /** The strings decode accepts are exactly the encodings of non-empty payloads. */
  lemma AcceptedIffEncoded(hash: Hash, s: string, payload: seq<Byte>)
    ensures CheckDecode(hash, s) == Payload(payload) <==> payload != [] && s == CheckEncode(hash, payload)
  {
    DecodeInvertsEncode(hash, payload);
    hide CheckEncode;
    if CheckDecode(hash, s) == Payload(payload) {
      EncodeInvertsDecode(hash, s);
      AcceptedIsNotEmpty(hash, s);
    }
  }

  lemma AcceptedIsNotEmpty(hash: Hash, s: string)
    requires CheckDecode(hash, s).Payload?
    ensures CheckDecode(hash, s).bytes != []
  {
  }

  // ---- The Python loops ------------------------------------------------------------------------

  /** `base58check_encode`. */
  method PythonCheckEncode(hash: Hash, payload: seq<Byte>) returns (encoded: string)
    ensures encoded == CheckEncode(hash, payload)
  {
    encoded := PythonEncode(payload + Checksum(hash, payload));
  }

  /** `(value.bit_length() + 7) // 8` is the length of the shortest byte string for the value. */
  lemma ShortestBytes(v: nat)
    ensures |DigitsOf(256, v)| == (|DigitsOf(2, v)| + 7) / 8
  {
    NoDigitsMeansZero(2, v);
    NoDigitsMeansZero(256, v);
    hide DigitsOf;
    if v > 0 {
      var bits := |DigitsOf(2, v)|;
      BytesForBits(v, bits, (bits + 7) / 8);
    }
  }

  lemma BytesForBits(v: nat, bits: nat, n: nat)
    requires v > 0 && bits == |DigitsOf(2, v)| && 1 <= n && 8 * (n - 1) < bits <= 8 * n
    ensures |DigitsOf(256, v)| == n
  {
    NoDigitsMeansZero(2, v);
    hide DigitsOf, Value, Pow;
    ValueOfDigits(2, v);
    ValueBelow(2, DigitsOf(2, v));
    ValueIsPositive(2, DigitsOf(2, v));
    BytesAround(bits, n);
    LengthFromBounds(256, v, n);
  }

  lemma BytesAround(bits: nat, n: nat)
    requires 1 <= n && 8 * (n - 1) < bits <= 8 * n
    ensures Pow(256, n - 1) <= Pow(2, bits - 1) && Pow(2, bits) <= Pow(256, n)
  {
    hide Pow;
    PowersOfTwo(n);
    PowersOfTwo(n - 1);
    PowMono(2, bits, 8 * n);
    PowMono(2, 8 * (n - 1), bits - 1);
  }

  lemma {:induction false} PowersOfTwo(n: nat)
    ensures Pow(2, 8 * n) == Pow(256, n)
  {
    if n > 0 {
      PowersOfTwo(n - 1);
      PowAdd(2, 8, 8 * (n - 1));
      Eight();
    }
  }

  lemma Eight()
    ensures Pow(2, 8) == 256
  {
    assert Pow(2, 4) == 16;
    PowAdd(2, 4, 4);
  }

  /** `int.to_bytes(length, "big")`; it raises when the value needs more bytes. */
  function ToBytes(v: nat, length: nat): (bytes: Option<seq<Byte>>) {
    if v < Pow(256, length) then Some(Padded(256, v, length)) else None
  }

  lemma ShortestToBytes(v: nat)
    ensures ToBytes(v, (|DigitsOf(2, v)| + 7) / 8) == Some(DigitsOf(256, v))
  {
    hide DigitsOf, Value, Pow, Padded;
    var ds := DigitsOf(256, v);
    ShortestBytes(v);
    ValueOfDigits(256, v);
    ValueBelow(256, ds);
    FixedLengthInjective(256, ds, Padded(256, v, |ds|));
  }

  /** `base58check_decode`, with its three refusals. */
  method PythonCheckDecode(hash: Hash, value: string) returns (result: Decoded)
    ensures result == CheckDecode(hash, value)
  {
    hide Value, DigitsOf, Padded, DigitOf;
    var encodedValue := 0;
    ghost var ds: seq<nat> := [];
    NoValue();
    for i := 0 to |value|
      invariant |ds| == i && IsBase58(value[..i]) && ds == DigitsIn(value[..i])
      invariant encodedValue == Value(58, ds)
    {
      if DigitOf(value[i]) == None {
        return InvalidCharacter;
      }
      NextDigit(value, i);
      ds := ds + [DigitOf(value[i]).value];
      encodedValue := encodedValue * 58 + DigitOf(value[i]).value;
    }
    assert value[..|value|] == value;
    ShortestToBytes(encodedValue);
    var decoded := ToBytes(encodedValue, (|DigitsOf(2, encodedValue)| + 7) / 8);
    var leadingOnes := LeadingOnes(value);
    LeadingOnesAreZeros(value);
    var bytes: seq<Byte> := Zeros(leadingOnes) + decoded.value;
    if |bytes| < 5 {
      return TooShort;
    }
    var payload, checksum := bytes[..|bytes| - 4], bytes[|bytes| - 4..];
    if checksum != Checksum(hash, payload) {
      return BadChecksum;
    }
    return Payload(payload);
  }

  lemma NoValue()
    ensures Value(58, []) == 0
  {
  }

  lemma NextDigit(s: string, i: nat)
    requires i < |s| && IsBase58(s[..i]) && DigitOf(s[i]).Some?
    ensures IsBase58(s[..i + 1]) && DigitsIn(s[..i + 1]) == DigitsIn(s[..i]) + [DigitOf(s[i]).value]
    ensures Value(58, DigitsIn(s[..i + 1])) == Value(58, DigitsIn(s[..i])) * 58 + DigitOf(s[i]).value
  {
    hide DigitOf;
    assert s[..i + 1] == s[..i] + [s[i]];
    var ds, d := DigitsIn(s[..i]), DigitOf(s[i]).value;
    assert DigitsIn(s[..i + 1]) == ds + [d];
    assert (ds + [d])[..i] == ds;
  }

  /** `len(value) - len(value.lstrip("1"))`. */
  function LeadingOnes(s: string): (n: nat)
    ensures n <= |s| && (forall i | 0 <= i < n :: s[i] == '1') && (n < |s| ==> s[n] != '1')
  {
    if s == "" || s[0] != '1' then 0 else 1 + LeadingOnes(s[1..])
  }

  lemma {:induction false} LeadingOnesAreZeros(s: string)
    requires IsBase58(s)
    ensures LeadingOnes(s) == LeadingZeros(DigitsIn(s))
  {
    if s != "" {
      assert DigitsIn(s)[1..] == DigitsIn(s[1..]);
      LeadingOnesAreZeros(s[1..]);
      LetterOfDigit(s[0]);
    }
  }
}
