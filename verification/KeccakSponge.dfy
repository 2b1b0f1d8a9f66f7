/** The sponge of native/src/tron.cpp: little-endian lanes, pad10*1 and 136-byte blocks. */
module KeccakSponge {
  import opened Keccak
  import opened KeccakStandard

  const RATE := 136

  // ---- Lanes and bytes -------------------------------------------------------------------------

  /** Eight bits for each byte before byte i. */
  function Shift(i: nat): bv6 { if i == 0 then 0 else Shift(i - 1) + 8 }

  /** A byte put above everything already in the lane. */
  function Topped(lane: bv64, b: bv8, s: bv6): bv64 { lane | ((b as bv64) << s) }

  function LanePrefix(bytes: seq<bv8>, n: nat): bv64
    requires n <= |bytes|
  {
    if n == 0 then 0 else Topped(LanePrefix(bytes, n - 1), bytes[n - 1], Shift(n - 1))
  }

  function LaneOf(bytes: seq<bv8>): bv64
    requires |bytes| == 8
  {
    LanePrefix(bytes, 8)
  }

  function ByteAt(lane: bv64, shift: bv6): bv8 { ((lane >> shift) & 0xff) as bv8 }

  function BytesOf(lane: bv64): (bytes: seq<bv8>)
    ensures |bytes| == 8
  {
    seq(8, i requires 0 <= i < 8 => ByteAt(lane, Shift(i)))
  }

  /** `load_little_endian`. */
  method LoadLittleEndian(bytes: seq<bv8>) returns (value: bv64)
    requires |bytes| == 8
    ensures value == LaneOf(bytes)
  {
    hide Topped;
    value := 0;
    var shift: bv6 := 0;
    for index := 0 to 8
      invariant value == LanePrefix(bytes, index) && shift == Shift(index)
    {
      value := Topped(value, bytes[index], shift);
      shift := shift + 8;
    }
  }

  /** `store_little_endian`. */
  method StoreLittleEndian(value: bv64) returns (output: seq<bv8>)
    ensures output == BytesOf(value)
  {
    hide ByteAt;
    output := [];
    var shift: bv6 := 0;
    for index := 0 to 8
      invariant |output| == index && shift == Shift(index)
      invariant forall i | 0 <= i < index :: output[i] == ByteAt(value, Shift(i))
    {
      output := output + [ByteAt(value, shift)];
      shift := shift + 8;
    }
  }

  lemma Shifts()
    ensures Shift(0) == 0 && Shift(1) == 8 && Shift(2) == 16 && Shift(3) == 24
    ensures Shift(4) == 32 && Shift(5) == 40 && Shift(6) == 48 && Shift(7) == 56
  {
    assert Shift(3) == 24;
    assert Shift(5) == 40;
  }

  lemma ToppedIs(lane: bv64, b: bv8, s: bv6)
    ensures Topped(lane, b, s) == lane | ((b as bv64) << s)
  {
  }

  lemma PlainToppedByte(lane: bv64, b: bv8, s: bv6)
    requires s <= 56 && lane >> s == 0
    ensures ByteAt(lane | ((b as bv64) << s), s) == b
  {
  }

  lemma PlainLowerByte(lane: bv64, b: bv8, s: bv6, t: bv6)
    requires 8 <= s <= 56 && t <= s - 8
    ensures ByteAt(lane | ((b as bv64) << s), t) == ByteAt(lane, t)
  {
  }

  lemma PlainNothingAbove(lane: bv64, b: bv8, s: bv6)
    requires s < 56 && lane >> s == 0
    ensures (lane | ((b as bv64) << s)) >> (s + 8) == 0
  {
  }

  lemma ToppedByte(lane: bv64, b: bv8, s: bv6)
    requires s <= 56 && ShiftRight(lane, s) == 0
    ensures ByteAt(Topped(lane, b, s), s) == b
  {
    hide Topped, ShiftRight, ByteAt;
    ToppedIs(lane, b, s);
    ShiftRightIs(lane, s);
    PlainToppedByte(lane, b, s);
  }

  lemma LowerByte(lane: bv64, b: bv8, s: bv6, t: bv6)
    requires 8 <= s <= 56 && t <= s - 8
    ensures ByteAt(Topped(lane, b, s), t) == ByteAt(lane, t)
  {
    hide Topped, ByteAt;
    ToppedIs(lane, b, s);
    PlainLowerByte(lane, b, s, t);
  }

  lemma NothingAbove(lane: bv64, b: bv8, s: bv6)
    requires s < 56 && ShiftRight(lane, s) == 0
    ensures ShiftRight(Topped(lane, b, s), s + 8) == 0
  {
    hide Topped, ShiftRight;
    ToppedIs(lane, b, s);
    ShiftRightIs(lane, s);
    ShiftRightIs(Topped(lane, b, s), s + 8);
    PlainNothingAbove(lane, b, s);
  }

  lemma NothingYet()
    ensures ShiftRight(0, 0) == 0
  {
  }

  lemma ShiftOrder(i: nat, n: nat)
    requires i < n < 8
    ensures Shift(i) <= 48 && 8 <= Shift(n) <= 56 && Shift(i) <= Shift(n) - 8
  {
    Shifts();
    hide Shift;
  }

  lemma ShiftBelow(n: nat)
    requires n < 8
    ensures Shift(n) <= 56 && (n < 7 ==> Shift(n) < 56 && Shift(n + 1) == Shift(n) + 8)
  {
    Shifts();
    hide Shift;
  }

  lemma LaneStep(bytes: seq<bv8>, n: nat)
    requires n < |bytes|
    ensures LanePrefix(bytes, n + 1) == Topped(LanePrefix(bytes, n), bytes[n], Shift(n))
  {
  }

  lemma {:induction false} PrefixAbove(bytes: seq<bv8>, n: nat)
    requires |bytes| == 8 && n < 8
    ensures ShiftRight(LanePrefix(bytes, n), Shift(n)) == 0
  {
    NothingYet();
    hide Topped, ShiftRight;
    if n > 0 {
      PrefixAbove(bytes, n - 1);
      LaneStep(bytes, n - 1);
      ShiftBelow(n - 1);
      hide LanePrefix, Shift;
      NothingAbove(LanePrefix(bytes, n - 1), bytes[n - 1], Shift(n - 1));
    }
  }

  lemma {:induction false} PrefixBytes(bytes: seq<bv8>, n: nat, i: nat)
    requires |bytes| == 8 && i < n <= 8
    ensures ByteAt(LanePrefix(bytes, n), Shift(i)) == bytes[i]
  {
    hide Topped, ShiftRight, ByteAt, LanePrefix, Shift;
    var lane := LanePrefix(bytes, n - 1);
    LaneStep(bytes, n - 1);
    if i == n - 1 {
      PrefixAbove(bytes, i);
      ShiftBelow(i);
      ToppedByte(lane, bytes[i], Shift(i));
    } else {
      PrefixBytes(bytes, n - 1, i);
      ShiftOrder(i, n - 1);
      LowerByte(lane, bytes[n - 1], Shift(n - 1), Shift(i));
    }
  }

  lemma SameBytes(u: bv64, v: bv64)
    requires ByteAt(u, 0) == ByteAt(v, 0) && ByteAt(u, 8) == ByteAt(v, 8) && ByteAt(u, 16) == ByteAt(v, 16)
    requires ByteAt(u, 24) == ByteAt(v, 24) && ByteAt(u, 32) == ByteAt(v, 32) && ByteAt(u, 40) == ByteAt(v, 40)
    requires ByteAt(u, 48) == ByteAt(v, 48) && ByteAt(u, 56) == ByteAt(v, 56)
    ensures u == v
  {
  }

  /** Loading and storing a lane are inverse. */
  lemma StoreInvertsLoad(bytes: seq<bv8>)
    requires |bytes| == 8
    ensures BytesOf(LaneOf(bytes)) == bytes
  {
    hide ByteAt, LanePrefix, Shift;
    forall i | 0 <= i < 8 ensures BytesOf(LaneOf(bytes))[i] == bytes[i] { PrefixBytes(bytes, 8, i); }
  }

  lemma LoadInvertsStore(v: bv64)
    ensures LaneOf(BytesOf(v)) == v
  {
    var u := LaneOf(BytesOf(v));
    Shifts();
    StoreInvertsLoad(BytesOf(v));
    hide ByteAt, LanePrefix, Shift, LaneOf;
    forall i: nat | i < 8 ensures ByteAt(u, Shift(i)) == ByteAt(v, Shift(i)) {
      StoredByte(u, i);
      StoredByte(v, i);
    }
    assert ByteAt(u, Shift(0)) == ByteAt(v, Shift(0)) && ByteAt(u, Shift(1)) == ByteAt(v, Shift(1));
    assert ByteAt(u, Shift(2)) == ByteAt(v, Shift(2)) && ByteAt(u, Shift(3)) == ByteAt(v, Shift(3));
    SameBytes(u, v);
  }

  function ByteBit(b: bv8, k: bv6): bool
    requires k < 8
  {
    (b >> k) & 1 == 1
  }

  lemma ByteInLane(v: bv64, s: bv6, k: bv6)
    requires s <= 56 && k < 8
    ensures Bit(v, s + k) == ByteBit(ByteAt(v, s), k)
  {
  }

  /** Bit 8i + k of a loaded lane is bit k of byte i: section 3.1.2 with the byte order of section B.1. */
  lemma LaneBit(bytes: seq<bv8>, i: nat, k: bv6)
    requires |bytes| == 8 && i < 8 && k < 8
    ensures Bit(LaneOf(bytes), Shift(i) + k) == ByteBit(bytes[i], k)
  {
    hide Shift, LaneOf, BytesOf, Bit, ByteBit, ByteAt;
    StoreInvertsLoad(bytes);
    StoredByte(LaneOf(bytes), i);
    ByteInLane(LaneOf(bytes), Shift(i), k);
  }

  lemma StoredByte(lane: bv64, i: nat)
    requires i < 8
    ensures BytesOf(lane)[i] == ByteAt(lane, Shift(i)) && Shift(i) <= 56
  {
    Shifts();
    hide Shift, ByteAt;
  }

  // ---- Sponge ----------------------------------------------------------------------------------

  /** The padding after a message of n bytes; one byte of room takes both end bits. */
  function Padding(n: nat): (p: seq<bv8>)
    ensures 1 <= |p| <= RATE && (n + |p|) % RATE == 0
  {
    var room := RATE - n % RATE;
    if room == 1 then [0x81] else [0x01] + seq(room - 2, _ => 0) + [0x80]
  }

  function XorBlock(s: State, block: seq<bv8>): State
    requires |block| == RATE
  {
    seq(25, i requires 0 <= i < 25 => if i < 17 then Xor(s[i], LaneOf(block[8 * i..8 * i + 8])) else s[i])
  }

  function ZeroState(): State { seq(25, _ => 0) }

  function Absorbed(s: State, block: seq<bv8>): State
    requires |block| == RATE
  {
    Permute(XorBlock(s, block))
  }

  /** The state after absorbing whole blocks, the last one at the end. */
  function Absorb(message: seq<bv8>): State
    requires |message| % RATE == 0
  {
    if message == [] then ZeroState()
    else
      WholeBlocks(|message|);
      Absorbed(Absorb(message[..|message| - RATE]), message[|message| - RATE..])
  }

  lemma WholeBlocks(n: nat)
    requires n > 0 && n % RATE == 0
    ensures n >= RATE && (n - RATE) % RATE == 0
  {
  }

  /** The first n lanes as bytes. */
  function Stored(s: State, n: nat): (bytes: seq<bv8>)
    requires n <= 4
    ensures |bytes| == 8 * n
  {
    if n == 0 then [] else Stored(s, n - 1) + BytesOf(s[n - 1])
  }

  function Digest(s: State): (d: seq<bv8>)
    ensures |d| == 32
  {
    Stored(s, 4)
  }

  /** Absorb the padded message and squeeze 32 bytes. */
  function Keccak256(data: seq<bv8>): (d: seq<bv8>)
    ensures |d| == 32
  {
    Digest(Absorb(data + Padding(|data|)))
  }

  method XorBlockInPlace(state: array<bv64>, block: seq<bv8>)
    requires state.Length == 25 && |block| == RATE
    modifies state
    ensures state[..] == XorBlock(old(state[..]), block)
  {
    hide Xor, LaneOf;
    ghost var was: State := state[..];
    for lane := 0 to RATE / 8
      invariant forall i | 0 <= i < lane :: state[i] == XorBlock(was, block)[i]
      invariant forall i | lane <= i < 25 :: state[i] == was[i]
    {
      var word := LoadLittleEndian(block[lane * 8..lane * 8 + 8]);
      state[lane] := Xor(state[lane], word);
    }
  }

  lemma AbsorbOneMore(message: seq<bv8>, block: seq<bv8>)
    requires |message| % RATE == 0 && |block| == RATE
    ensures |message + block| % RATE == 0 && Absorb(message + block) == Absorbed(Absorb(message), block)
  {
    hide Absorbed;
    var all := message + block;
    OneMoreBlock(|message|);
    assert all[..|all| - RATE] == message && all[|all| - RATE..] == block;
  }

  lemma OneMoreBlock(n: nat)
    requires n % RATE == 0
    ensures (n + RATE) % RATE == 0
  {
  }

  /** The padding depends only on what is left after the whole blocks. */
  lemma PaddingOfTail(position: nat, tail: nat)
    requires position % RATE == 0
    ensures Padding(position + tail) == Padding(tail)
  {
    assert (position + tail) % RATE == tail % RATE;
  }

  /** The last block: the tail, a 0x01 after it and a 0x80 in the last byte, xored when they meet. */
  method LastBlock(tail: seq<bv8>) returns (padded: seq<bv8>)
    requires |tail| < RATE
    ensures padded == tail + Padding(|tail|) && |padded| == RATE
  {
    hide Padding;
    var block := new bv8[RATE](_ => 0);
    for index := 0 to |tail|
      invariant forall i | 0 <= i < index :: block[i] == tail[i]
      invariant forall i | index <= i < RATE :: block[i] == 0
    {
      block[index] := tail[index];
    }
    ghost var filled := block[..];
    assert filled == tail + seq(RATE - |tail|, _ => 0);
    block[|tail|] := block[|tail|] ^ 0x01;
    ghost var marked := block[..];
    assert marked == filled[|tail| := 0x01];
    block[RATE - 1] := block[RATE - 1] ^ 0x80;
    padded := block[..];
    assert padded == marked[RATE - 1 := marked[RATE - 1] ^ 0x80];
    MarkedBlock(tail, marked);
  }

  lemma MarkedBlock(tail: seq<bv8>, marked: seq<bv8>)
    requires |tail| < RATE && marked == (tail + seq(RATE - |tail|, _ => 0))[|tail| := 0x01]
    ensures marked[RATE - 1 := marked[RATE - 1] ^ 0x80] == tail + Padding(|tail|)
  {
    assert |tail| % RATE == |tail|;
    assert marked[RATE - 1] == if |tail| == RATE - 1 then 0x01 else 0;
  }

  method AbsorbInPlace(state: array<bv64>, block: seq<bv8>)
    requires state.Length == 25 && |block| == RATE
    modifies state
    ensures state[..] == Absorbed(old(state[..]), block)
  {
    hide XorBlock, Permute;
    XorBlockInPlace(state, block);
    KeccakPermute(state);
  }

  /** `keccak_256`. */
  method KeccakDigest(data: seq<bv8>) returns (digest: seq<bv8>)
    ensures digest == Keccak256(data)
  {
    hide Absorb, Absorbed, Padding, Digest;
    var state := new bv64[25](_ => 0);
    NothingAbsorbed();
    assert state[..] == ZeroState();
    var position := 0;
    while |data| - position >= RATE
      invariant position <= |data| && position % RATE == 0
      invariant state[..] == Absorb(data[..position])
    {
      var block := data[position..position + RATE];
      AbsorbOneMore(data[..position], block);
      assert data[..position] + block == data[..position + RATE];
      AbsorbInPlace(state, block);
      position := position + RATE;
    }
    var tail := data[position..];
    var block := LastBlock(tail);
    PaddingOfTail(position, |tail|);
    AbsorbOneMore(data[..position], block);
    assert data + Padding(|data|) == data[..position] + block;
    AbsorbInPlace(state, block);
    digest := Squeeze(state);
  }

  lemma NothingAbsorbed()
    ensures Absorb([]) == ZeroState()
  {
  }

  /** The first four lanes, stored. */
  method Squeeze(state: array<bv64>) returns (digest: seq<bv8>)
    requires state.Length == 25
    ensures digest == Digest(state[..])
  {
    hide BytesOf;
    digest := [];
    for lane := 0 to 4
      invariant digest == Stored(state[..], lane)
    {
      var word := StoreLittleEndian(state[lane]);
      digest := digest + word;
    }
  }

  // ---- The padding is pad10*1 ------------------------------------------------------------------

  /** Section B.1 of FIPS 202: bytes contribute their bits from the least significant. */
  function Bits(bytes: seq<bv8>): (bits: seq<bool>)
    ensures |bits| == 8 * |bytes|
  {
    if bytes == [] then [] else Bits(bytes[..|bytes| - 1]) + ByteBits(bytes[|bytes| - 1])
  }

  function ByteBits(b: bv8): (bits: seq<bool>)
    ensures |bits| == 8
  {
    [b & 1 != 0, b & 2 != 0, b & 4 != 0, b & 8 != 0, b & 16 != 0, b & 32 != 0, b & 64 != 0, b & 128 != 0]
  }

  function Falses(n: nat): seq<bool> { seq(n, _ => false) }

  lemma BitsOfOne(b: bv8)
    ensures Bits([b]) == ByteBits(b)
  {
    assert [b][..0] == [];
  }

  lemma BitsAppend(bytes: seq<bv8>, b: bv8)
    ensures Bits(bytes + [b]) == Bits(bytes) + ByteBits(b)
  {
    assert (bytes + [b])[..|bytes|] == bytes;
  }

  lemma EndBytes()
    ensures ByteBits(0) == Falses(8) && ByteBits(0x01) == [true] + Falses(7)
    ensures ByteBits(0x80) == Falses(7) + [true] && ByteBits(0x81) == [true] + Falses(6) + [true]
  {
  }

  lemma {:induction false} BitsOfZeros(n: nat)
    ensures Bits([0x01] + seq(n, _ => 0)) == [true] + Falses(7 + 8 * n)
  {
    EndBytes();
    if n == 0 {
      assert [0x01 as bv8] + seq(0, _ => 0) == [0x01];
      BitsOfOne(0x01);
    } else {
      BitsOfZeros(n - 1);
      var before: seq<bv8> := [0x01] + seq(n - 1, _ => 0);
      assert [0x01 as bv8] + seq(n, _ => 0) == before + [0];
      BitsAppend(before, 0);
      hide Bits, ByteBits;
    }
  }

  /** Section 5.1 of FIPS 202 with x = 1088 and m = 8n: a one, the fewest zeros, a one. */
  lemma PaddingIsTenStarOne(n: nat)
    ensures Bits(Padding(n)) == [true] + Falses((-8 * n - 2) % 1088) + [true]
  {
    var room := RATE - n % RATE;
    ZeroCount(n);
    EndBytes();
    if room == 1 {
      BitsOfOne(0x81);
    } else {
      BitsOfZeros(room - 2);
      var before: seq<bv8> := [0x01] + seq(room - 2, _ => 0);
      BitsAppend(before, 0x80);
      hide Bits, ByteBits;
    }
  }

  lemma ZeroCount(n: nat)
    ensures (-8 * n - 2) % 1088 == 8 * (RATE - n % RATE) - 2
  {
    var q, r := n / RATE, n % RATE;
    assert -8 * n - 2 == 1088 * (-q - 1) + (8 * (RATE - r) - 2);
  }
}
