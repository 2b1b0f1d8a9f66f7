/**
 From scalars to addresses, and back to keys. The point of scalar k is known only by its 64 uncompressed
 bytes, an arbitrary function of k; points add as their scalars do modulo the group order, and the
 multiples of the order are the point at infinity.
 */
module Wallet {
  import opened Common
  import opened Digits
  import opened Base58
  import opened Base58Check
  import opened TronAddress
  import opened Patterns
  import opened Scalars
  import opened KeccakSponge

  type Points = nat -> seq<bv8>

  function AsBytes(bytes: seq<bv8>): (r: seq<Byte>)
    ensures |r| == |bytes|
  {
    seq(|bytes|, i requires 0 <= i < |bytes| => bytes[i] as Byte)
  }

  /** 0x41 and the last 20 bytes of the Keccak-256 digest of the point. */
  function AddressPayload(points: Points, k: nat): (payload: seq<Byte>)
    ensures IsTronPayload(payload)
  {
    [0x41] + AsBytes(Keccak256(points(k)))[12..]
  }

  function Address(points: Points, hash: Hash, k: nat): string { CheckEncode(hash, AddressPayload(points, k)) }

  // ---- What an address says --------------------------------------------------------------------

  /** Read back, an address is 0x41 and bytes 12 to 31 of the digest of the key's point. */
  lemma AddressReadsBack(points: Points, hash: Hash, k: nat)
    ensures var payload := CheckDecode(hash, Address(points, hash, k));
      && payload.Payload? && |payload.bytes| == 21 && payload.bytes[0] == 0x41
      && forall j | 12 <= j < 32 :: payload.bytes[j - 11] == Keccak256(points(k))[j] as Byte
  {
    hide Keccak256, CheckEncode, CheckDecode;
    DecodeInvertsEncode(hash, AddressPayload(points, k));
  }

  predicate SameTail(d: seq<bv8>, e: seq<bv8>)
    requires |d| == |e| == 32
  {
    forall i | 12 <= i < 32 :: d[i] == e[i]
  }

  /** So two keys have the same address exactly when those bytes agree. */
  lemma SameAddressIff(points: Points, hash: Hash, k: nat, m: nat)
    ensures Address(points, hash, k) == Address(points, hash, m)
      <==> SameTail(Keccak256(points(k)), Keccak256(points(m)))
  {
    AddressReadsBack(points, hash, k);
    AddressReadsBack(points, hash, m);
    hide Keccak256, CheckEncode, CheckDecode;
    var d, e := Keccak256(points(k)), Keccak256(points(m));
    if SameTail(d, e) {
      assert AddressPayload(points, k) == AddressPayload(points, m);
    }
    if Address(points, hash, k) == Address(points, hash, m) {
      forall j | 12 <= j < 32 ensures d[j] == e[j] { BytesAreBits(d[j], e[j]); }
    }
  }

  lemma BytesAreBits(b: bv8, c: bv8)
    ensures b == c <==> b as Byte == c as Byte
  {
  }

  // ---- Three derivations of the same address ---------------------------------------------------

  /** `point_to_address` of tron.cpp. */
  method PointToAddress(points: Points, hash: Hash, k: nat) returns (address: string)
    ensures address == Address(points, hash, k)
  {
    hide Encode, Keccak256;
    var digest := KeccakDigest(points(k));
    var payload := new Byte[25](_ => 0);
    payload[0] := 0x41;
    for index := 0 to 20
      invariant payload[0] == 0x41
      invariant forall j | 1 <= j <= index :: payload[j] == AsBytes(digest)[11 + j]
    {
      payload[index + 1] := digest[|digest| - 20 + index] as Byte;
    }
    assert payload[..21] == AddressPayload(points, k);
    var sum := Checksum(hash, payload[..21]);
    ghost var start := payload[..21];
    for index := 0 to 4
      invariant forall j | 0 <= j < 21 :: payload[j] == start[j]
      invariant forall j | 21 <= j < 21 + index :: payload[j] == sum[j - 21]
    {
      payload[21 + index] := sum[index];
    }
    assert payload[..21] == start;
    assert payload[..] == payload[..21] + sum;
    var overflowed;
    address, overflowed := NativeEncode(payload[..]);
  }

  /** `tron_address_from_public_key` of patterns.py. */
  method PythonAddress(points: Points, hash: Hash, k: nat) returns (address: string)
    ensures address == Address(points, hash, k)
  {
    hide CheckEncode, Keccak256;
    var digest := KeccakDigest(points(k));
    var last := AsBytes(digest)[|digest| - 20..];
    address := PythonCheckEncode(hash, [0x41] + last);
  }

  /** `tronAddressFromPrivateKey` of wallet-crypto.ts. */
  method TypeScriptAddress(points: Points, hash: Hash, k: nat) returns (address: string)
    ensures address == Address(points, hash, k)
  {
    hide Encode, Keccak256;
    var digest := KeccakDigest(points(k));
    var payload: seq<Byte> := [0x41] + AsBytes(digest)[|digest| - 20..];
    address := TypeScriptEncode(payload + Checksum(hash, payload));
  }

  // ---- Keys and offsets ------------------------------------------------------------------------

  /** The scalar of the point found `offset` steps after the base point. */
  function Shifted(key: nat, offset: nat): nat { (key + offset) % SECP256K1_ORDER }

  predicate AllHex(s: string) { forall i | 0 <= i < |s| :: HexValue(s[i]).Some? }

  function HexNumber(s: string): nat
    requires AllHex(s)
  {
    Value(16, DigitValues(s, HexValue))
  }

  /** `private_scalar`: exactly 64 hexadecimal digits of a value in range. */
  function PrivateScalar(s: string): Option<nat> {
    if |s| == 64 && AllHex(s) && IsScalar(HexNumber(s)) then Some(HexNumber(s)) else None
  }

  /** `add_private_key_offset`. */
  function NativeRecover(key: string, offset: string): Option<string> {
    match (PrivateScalar(key), ParsedScalar(offset))
    case (Some(k), Some(o)) =>
      Limits();
      if IsScalar(o) && Shifted(k, o) != 0 then Some(Hex64(Shifted(k, o))) else None
    case _ => None
  }

  /** `combine_private_key`; both texts are 64 hexadecimal digits. */
  function ServerCombine(key: string, offset: string): Option<string>
    requires AllHex(key) && AllHex(offset)
  {
    Limits();
    var combined := Shifted(HexNumber(key), HexNumber(offset));
    if combined == 0 then None else Some(Hex64(combined))
  }

  lemma HexNumberOfHex(v: nat)
    requires Below256Bits(v)
    ensures AllHex(Hex64(v)) && HexNumber(Hex64(v)) == v
  {
    hide Padded, Value, HexDigit;
    var ds := Padded(16, v, 64);
    assert DigitValues(Hex64(v), HexValue) == ds;
  }

  /** Both programs recover the same key from a base key and an offset, and refuse the same offset. */
  lemma RecoveriesAgree(key: nat, offset: nat)
    requires IsScalar(key) && IsScalar(offset)
    ensures Below256Bits(key) && Below256Bits(offset) && AllHex(Hex64(key)) && AllHex(Hex64(offset))
    ensures NativeRecover(Hex64(key), Hex64(offset)) == ServerCombine(Hex64(key), Hex64(offset))
    ensures NativeRecover(Hex64(key), Hex64(offset)) == None <==> key + offset == SECP256K1_ORDER
    ensures key + offset != SECP256K1_ORDER ==>
      Below256Bits(Shifted(key, offset))
        && NativeRecover(Hex64(key), Hex64(offset)) == Some(Hex64(Shifted(key, offset)))
  {
    hide Hex64, HexNumber, ParsedScalar, AllHex, Pow;
    Limits();
    HexNumberOfHex(key);
    HexNumberOfHex(offset);
    ParseInvertsHex(offset);
    ShiftedIsZeroIff(key, offset);
    hide Shifted;
  }

  /** The recovered key is the sum, less the group order when it reaches it. */
  lemma RecoveredIsTheSum(key: nat, offset: nat)
    requires IsScalar(key) && IsScalar(offset) && key + offset != SECP256K1_ORDER
    ensures var sum := if key + offset < SECP256K1_ORDER then key + offset else key + offset - SECP256K1_ORDER;
      && Below256Bits(key) && Below256Bits(offset) && Below256Bits(sum) && IsScalar(sum)
      && NativeRecover(Hex64(key), Hex64(offset)) == Some(Hex64(sum))
  {
    hide Hex64, NativeRecover, ServerCombine, AllHex, Pow;
    RecoveriesAgree(key, offset);
    Limits();
  }

  lemma ShiftedIsZeroIff(key: nat, offset: nat)
    requires IsScalar(key) && IsScalar(offset)
    ensures Shifted(key, offset) < SECP256K1_ORDER
    ensures Shifted(key, offset) == 0 <==> key + offset == SECP256K1_ORDER
  {
  }

  // ---- Server verification ---------------------------------------------------------------------

  datatype Verdict = Verified(address: string) | InvalidAddress | WrongPoint | WrongPattern

  /** `derive_candidate_address`: adding the offset to the public point fails on infinity. */
  function DerivedAddress(points: Points, hash: Hash, key: nat, offset: nat): Option<string> {
    if offset < SECP256K1_ORDER && Shifted(key, offset) != 0
    then Some(Address(points, hash, Shifted(key, offset)))
    else None
  }

  /** `verify_candidate`, for the public point of scalar `key`. */
  function VerifyCandidate(points: Points, hash: Hash, key: nat, offset: nat, address: string,
      spec: MatchSpec): Verdict
  {
    if !ValidTronAddress(hash, address) then InvalidAddress
    else
      match DerivedAddress(points, hash, key, offset)
      case None => WrongPoint
      case Some(derived) =>
        if derived != address then WrongPoint
        else if !AddressMatchesSpec(derived, spec) then WrongPattern
        else Verified(derived)
  }

  /** A candidate is verified exactly when it is the address of key plus offset and has the pattern. */
  lemma VerdictDecided(points: Points, hash: Hash, key: nat, offset: nat, address: string, spec: MatchSpec)
    requires IsScalar(key) && offset < SECP256K1_ORDER
    ensures var verdict := VerifyCandidate(points, hash, key, offset, address, spec);
      var sum := if key + offset < SECP256K1_ORDER then key + offset else key + offset - SECP256K1_ORDER;
      var derived := key + offset != SECP256K1_ORDER && address == Address(points, hash, sum);
      && (verdict == Verified(address) <==> derived && AddressMatchesSpec(address, spec))
      && (verdict.WrongPattern? <==> derived && !AddressMatchesSpec(address, spec))
      && (verdict.WrongPoint? <==> !derived && ValidTronAddress(hash, address))
      && (verdict.InvalidAddress? <==> !ValidTronAddress(hash, address))
  {
    hide CheckEncode, ValidTronAddress, AddressMatchesSpec, AddressPayload;
    ValidIffDerived(hash, address);
    assert Shifted(key, offset) == if key + offset < SECP256K1_ORDER then key + offset
                                   else key + offset - SECP256K1_ORDER;
  }

  /** `validate_offset` of the candidate form: 64 hexadecimal digits of a scalar in range. */
  predicate OffsetAccepted(s: string) { |s| == 64 && AllHex(s) && IsScalar(HexNumber(s)) }

  /** Of the 64-digit texts exactly those of scalars are accepted; a scalar is at least 1 and below the order. */
  lemma OffsetAcceptedIff(v: nat)
    requires Below256Bits(v)
    ensures OffsetAccepted(Hex64(v)) <==> 1 <= v && v < SECP256K1_ORDER
  {
    hide HexNumber, AllHex, Hex64, Below256Bits;
    HexNumberOfHex(v);
  }

  /** `verify_private_key_address` on a combined key. */
  predicate KeyOwns(points: Points, hash: Hash, key: string, address: string) {
    PrivateScalar(key).Some? && Address(points, hash, PrivateScalar(key).value) == address
  }

  /** A point that the native matcher likes. */
  predicate IsWinner(points: Points, hash: Hash, key: nat, prefix: string, suffix: string, offset: nat)
    requires |prefix| <= 33 && |suffix| <= 34
  {
    Shifted(key, offset) != 0 && NativeMatches(Address(points, hash, Shifted(key, offset)), prefix, suffix)
  }

  lemma AcceptedLengths(name: string, prefix: string, suffix: string)
    requires NativeAccepts(name, prefix, suffix)
    ensures |prefix| <= 33 && |suffix| <= 34
  {
  }

  /** Every native winner passes the server's verification, and its recovered key owns the address. */
  lemma WinnerIsVerified(points: Points, hash: Hash, key: nat, name: string, prefix: string, suffix: string,
      offset: nat)
    requires IsScalar(key) && IsScalar(offset) && NativeAccepts(name, prefix, suffix)
    requires |prefix| <= 33 && |suffix| <= 34 && IsWinner(points, hash, key, prefix, suffix, offset)
    ensures Below256Bits(key) && Below256Bits(offset) && OffsetAccepted(Hex64(offset)) && AllHex(Hex64(key))
    ensures var address := Address(points, hash, Shifted(key, offset));
      VerifyCandidate(points, hash, key, offset, address, CompileMatchSpec("T" + prefix, suffix)) == Verified(address)
      && var combined := ServerCombine(Hex64(key), Hex64(offset));
         combined.Some? && KeyOwns(points, hash, combined.value, address)
  {
    hide CheckEncode, ValidTronAddress, AddressMatchesSpec, CompileMatchSpec, NativeMatches, NativeAccepts, Pow,
      HexText;
    hide AddressPayload, HexNumber, AllHex, Hex64;
    var k := Shifted(key, offset);
    Limits();
    HexNumberOfHex(key);
    HexNumberOfHex(offset);
    HexNumberOfHex(k);
    AcceptedPatternsMatchAlike(hash, AddressPayload(points, k), name, prefix, suffix);
    ValidIffDerived(hash, Address(points, hash, k));
  }

  /**
   And only such points pass: once a candidate is verified, its key can be combined, owns the address and
   the address is one of the requested ones, whatever hexadecimal text the offset was given in.
   */
  lemma VerifiedIsOwned(points: Points, hash: Hash, key: nat, offset: string, address: string, spec: MatchSpec)
    requires IsScalar(key) && AllHex(offset)
    requires VerifyCandidate(points, hash, key, HexNumber(offset), address, spec) == Verified(address)
    ensures Below256Bits(key) && AllHex(Hex64(key)) && Owned(points, hash, key, offset, address)
    ensures AddressMatchesSpec(address, spec)
      && exists payload :: IsTronPayload(payload) && address == CheckEncode(hash, payload)
  {
    hide CheckEncode, ValidTronAddress, AddressMatchesSpec, Pow, HexText;
    hide AddressPayload, HexNumber, AllHex, Hex64;
    Limits();
    HexNumberOfHex(key);
    HexNumberOfHex(Shifted(key, HexNumber(offset)));
    ValidIffDerived(hash, address);
  }

  lemma KeyHasText(key: nat)
    requires IsScalar(key)
    ensures Below256Bits(key) && AllHex(Hex64(key))
  {
    hide Pow, HexText, AllHex;
    Limits();
    HexNumberOfHex(key);
  }

  /** The combined key exists and its own address is the given one. */
  predicate Owned(points: Points, hash: Hash, key: nat, offset: string, address: string)
    requires AllHex(offset) && Below256Bits(key) && AllHex(Hex64(key))
  {
    var combined := ServerCombine(Hex64(key), offset);
    combined.Some? && KeyOwns(points, hash, combined.value, address)
  }

  /** The checks of `finalize_candidate`: verify the candidate, combine the key, verify the key. */
  predicate CandidateAccepted(points: Points, hash: Hash, key: nat, offset: string, address: string, spec: MatchSpec)
    requires Below256Bits(key) && AllHex(Hex64(key))
  {
    && AllHex(offset)
    && VerifyCandidate(points, hash, key, HexNumber(offset), address, spec) == Verified(address)
    && Owned(points, hash, key, offset, address)
  }

  /** The two checks on the combined key never refuse what the first one accepted. */
  lemma KeyChecksNeverRefuse(points: Points, hash: Hash, key: nat, offset: string, address: string, spec: MatchSpec)
    requires IsScalar(key) && AllHex(offset)
    ensures Below256Bits(key) && AllHex(Hex64(key))
    ensures CandidateAccepted(points, hash, key, offset, address, spec)
      <==> VerifyCandidate(points, hash, key, HexNumber(offset), address, spec) == Verified(address)
  {
    hide VerifyCandidate, Owned, Pow, HexText, HexNumber;
    Limits();
    HexNumberOfHex(key);
    if VerifyCandidate(points, hash, key, HexNumber(offset), address, spec) == Verified(address) {
      VerifiedIsOwned(points, hash, key, offset, address, spec);
    }
  }
}
