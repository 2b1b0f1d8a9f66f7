/**
 SPONGE[Keccak-f[1600], pad10*1, 1088] of section 4 of FIPS 202 on bit strings, with 256 bits of output, and
 the proof that the byte-level digest is exactly that.
 */
module KeccakSpongeStandard {
  import opened Keccak
  import opened KeccakStandard
  import opened KeccakSponge

  /** The number n as a bit position of a lane. */
  function Index(n: nat): bv6 { if n == 0 then 0 else Index(n - 1) + 1 }

  // ---- What the standard asks ------------------------------------------------------------------

  /** Bit n of lane i of a block followed by the capacity's zeros: section 3.1.2. */
  function BlockBit(block: seq<bool>, i: nat, n: nat): bool
    requires |block| == 1088 && i < 25 && n < 64
  {
    if i < 17 then block[64 * i + n] else false
  }

  function LaneBitAt(s: State, i: nat, n: nat): bool
    requires i < 25
  {
    Bit(s[i], Index(n))
  }

  ghost predicate IsXored(s: State, block: seq<bool>, t: State)
    requires |block| == 1088
  {
    forall i: nat, n: nat | i < 25 && n < 64 :: LaneBitAt(t, i, n) == Odd(LaneBitAt(s, i, n), BlockBit(block, i, n))
  }

  ghost predicate IsAbsorbed(s: State, block: seq<bool>, t: State)
    requires |block| == 1088
  {
    exists mixed: State :: IsXored(s, block, mixed) && IsPermutation(mixed, t)
  }

  /** The state after the absorbing phase over whole blocks. */
  ghost predicate IsAbsorbing(bits: seq<bool>, s: State)
    requires |bits| % 1088 == 0
    decreases |bits|
  {
    if bits == [] then s == ZeroState()
    else
      WholeBitBlocks(|bits|);
      var n := |bits| - 1088;
      exists before: State :: IsAbsorbing(bits[..n], before) && IsAbsorbed(before, bits[n..], s)
  }

  lemma WholeBitBlocks(n: nat)
    requires n > 0 && n % 1088 == 0
    ensures n >= 1088 && (n - 1088) % 1088 == 0
  {
  }

  /** pad10*1 of section 5.1 for a message of m bits. */
  function TenStarOne(m: nat): (pad: seq<bool>)
    ensures (m + |pad|) % 1088 == 0
  {
    FillsBlocks(m);
    [true] + Falses((-1 * m - 2) % 1088) + [true]
  }

  lemma FillsBlocks(m: nat)
    ensures (m + (-1 * m - 2) % 1088 + 2) % 1088 == 0
  {
    var j, q := (-1 * m - 2) % 1088, (-1 * m - 2) / 1088;
    assert m + j + 2 == 1088 * -q;
  }

  ghost predicate IsSponge(message: seq<bool>, output: seq<bool>) {
    && |output| == 256
    && exists s: State :: IsAbsorbing(message + TenStarOne(|message|), s) && IsSqueezed(s, output)
  }

  /** The first 256 bits of the state, 64 from each lane. */
  ghost predicate IsSqueezed(s: State, output: seq<bool>)
    requires |output| == 256
  {
    forall m | 0 <= m < 256 :: output[m] == LaneBitAt(s, m / 64, m % 64)
  }

  // ---- Bit positions ---------------------------------------------------------------------------

  lemma {:induction false} IndexAdds(m: nat, n: nat)
    ensures Index(m + n) == Index(m) + Index(n)
  {
    if n > 0 { IndexAdds(m, n - 1); }
  }

  lemma SmallIndices()
    ensures Index(0) == 0 && Index(1) == 1 && Index(2) == 2 && Index(3) == 3
    ensures Index(4) == 4 && Index(5) == 5 && Index(6) == 6 && Index(7) == 7
  {
    assert Index(1) == 1;
    assert Index(2) == 2;
    assert Index(3) == 3;
    assert Index(4) == 4;
    assert Index(5) == 5;
    assert Index(6) == 6;
  }

  lemma IndexOfEight()
    ensures Index(8) == 8
  {
    SmallIndices();
  }

  lemma {:induction false} IndexOfByte(j: nat)
    ensures Index(8 * j) == Shift(j)
  {
    if j > 0 {
      IndexOfByte(j - 1);
      IndexAdds(8 * (j - 1), 8);
      IndexOfEight();
      assert 8 * (j - 1) + 8 == 8 * j;
      hide Index;
    }
  }

  lemma {:induction false} IndexIsNumber(n: nat)
    requires n < 64
    ensures Index(n) as nat == n
  {
    if n > 0 {
      IndexIsNumber(n - 1);
      NextPosition(Index(n - 1));
    }
  }

  lemma NextPosition(z: bv6)
    requires z as nat < 63
    ensures (z + 1) as nat == z as nat + 1
  {
  }

  /** Every position of a lane is the index of a number. */
  lemma PositionOf(z: bv6) returns (n: nat)
    ensures n < 64 && Index(n) == z
  {
    n := z as nat;
    IndexIsNumber(n);
    SamePosition(Index(n), z);
  }

  lemma SamePosition(y: bv6, z: bv6)
    requires y as nat == z as nat
    ensures y == z
  {
  }

  // ---- Bits of byte strings --------------------------------------------------------------------

  lemma {:induction false} BitsConcat(x: seq<bv8>, y: seq<bv8>)
    ensures Bits(x + y) == Bits(x) + Bits(y)
    decreases |y|
  {
    hide ByteBits;
    if y == [] {
      assert x + y == x;
    } else {
      var n := |y| - 1;
      assert (x + y)[..|x| + n] == x + y[..n];
      BitsConcat(x, y[..n]);
    }
  }

  lemma BitsAt(bytes: seq<bv8>, i: nat, k: nat)
    requires i < |bytes| && k < 8
    ensures Bits(bytes)[8 * i + k] == ByteBits(bytes[i])[k]
  {
    hide ByteBits, Bits;
    assert bytes == bytes[..i] + [bytes[i]] + bytes[i + 1..];
    BitsConcat(bytes[..i] + [bytes[i]], bytes[i + 1..]);
    BitsConcat(bytes[..i], [bytes[i]]);
    BitsOfOne(bytes[i]);
  }

  lemma ByteBitAt(b: bv8, k: nat)
    requires k < 8
    ensures Index(k) < 8 && ByteBits(b)[k] == ByteBit(b, Index(k))
  {
    SmallIndices();
    LowBits(b);
    hide Index, ByteBits, ByteBit;
  }

  lemma LowBits(b: bv8)
    ensures ByteBits(b)[0] == ByteBit(b, 0) && ByteBits(b)[1] == ByteBit(b, 1)
    ensures ByteBits(b)[2] == ByteBit(b, 2) && ByteBits(b)[3] == ByteBit(b, 3)
    ensures ByteBits(b)[4] == ByteBit(b, 4) && ByteBits(b)[5] == ByteBit(b, 5)
    ensures ByteBits(b)[6] == ByteBit(b, 6) && ByteBits(b)[7] == ByteBit(b, 7)
  {
  }

  /** Bit n of a loaded lane is bit n of its bytes' string. */
  lemma LoadedBit(bytes: seq<bv8>, n: nat)
    requires |bytes| == 8 && n < 64
    ensures Bit(LaneOf(bytes), Index(n)) == Bits(bytes)[n]
  {
    hide Index, Bit, LaneOf, Bits, ByteBits, ByteBit, Shift;
    var j, k := n / 8, n % 8;
    IndexAdds(8 * j, k);
    IndexOfByte(j);
    ByteBitAt(bytes[j], k);
    LaneBit(bytes, j, Index(k));
    BitsAt(bytes, j, k);
  }

  lemma StoredBit(v: bv64, n: nat)
    requires n < 64
    ensures Bits(BytesOf(v))[n] == Bit(v, Index(n))
  {
    LoadedBit(BytesOf(v), n);
    LoadInvertsStore(v);
  }

  lemma BlockLane(block: seq<bv8>, i: nat, n: nat)
    requires |block| == RATE && i < 17 && n < 64
    ensures Bits(block)[64 * i + n] == Bits(block[8 * i..8 * i + 8])[n]
  {
    hide Bits, ByteBits;
    var j, k := n / 8, n % 8;
    BitsAt(block, 8 * i + j, k);
    BitsAt(block[8 * i..8 * i + 8], j, k);
  }

  // ---- Absorbing -------------------------------------------------------------------------------

  lemma XorBlockLane(s: State, block: seq<bv8>, i: nat)
    requires |block| == RATE && i < 25
    ensures XorBlock(s, block)[i] == if i < 17 then Xor(s[i], LaneOf(block[8 * i..8 * i + 8])) else s[i]
  {
    hide Xor, LaneOf;
  }

  lemma XorBlockIsXored(s: State, block: seq<bv8>)
    requires |block| == RATE
    ensures IsXored(s, Bits(block), XorBlock(s, block))
  {
    hide Bits, Bit, Index, XorBlock, LaneOf, Xor, Odd;
    var t := XorBlock(s, block);
    forall i: nat, n: nat | i < 25 && n < 64
      ensures LaneBitAt(t, i, n) == Odd(LaneBitAt(s, i, n), BlockBit(Bits(block), i, n))
    {
      XorBlockLane(s, block, i);
      if i < 17 {
        var bytes := block[8 * i..8 * i + 8];
        XorBit(s[i], LaneOf(bytes), Index(n));
        LoadedBit(bytes, n);
        BlockLane(block, i, n);
      } else {
        OddFalse(LaneBitAt(s, i, n));
      }
    }
  }

  lemma OddFalse(a: bool)
    ensures Odd(a, false) == a
  {
  }

  lemma XoredIsUnique(s: State, block: seq<bool>, t: State, u: State)
    requires |block| == 1088 && IsXored(s, block, t) && IsXored(s, block, u)
    ensures t == u
  {
    hide Bit, Index, Odd, BlockBit;
    forall i: nat | i < 25 ensures t[i] == u[i] {
      forall z: bv6 ensures Bit(t[i], z) == Bit(u[i], z) {
        var n := PositionOf(z);
        assert LaneBitAt(t, i, n) == Odd(LaneBitAt(s, i, n), BlockBit(block, i, n));
        assert LaneBitAt(u, i, n) == Odd(LaneBitAt(s, i, n), BlockBit(block, i, n));
      }
      BitsDetermineLane(t[i], u[i]);
    }
  }

  lemma AbsorbedIsAbsorbed(s: State, block: seq<bv8>, t: State)
    requires |block| == RATE
    ensures IsAbsorbed(s, Bits(block), t) <==> t == Absorbed(s, block)
  {
    hide IsXored, IsPermutation, XorBlock, Permute, Bits;
    var mixed := XorBlock(s, block);
    XorBlockIsXored(s, block);
    PermutationIsTheStandard(mixed, t);
    if IsAbsorbed(s, Bits(block), t) {
      var other: State :| IsXored(s, Bits(block), other) && IsPermutation(other, t);
      XoredIsUnique(s, Bits(block), other, mixed);
    }
  }

  lemma BitLength(n: nat)
    ensures (8 * n) % 1088 == 8 * (n % RATE)
  {
  }

  lemma SplitBits(bytes: seq<bv8>, n: nat)
    requires n <= |bytes|
    ensures Bits(bytes)[..8 * n] == Bits(bytes[..n]) && Bits(bytes)[8 * n..] == Bits(bytes[n..])
  {
    hide Bits;
    BitsConcat(bytes[..n], bytes[n..]);
    assert bytes == bytes[..n] + bytes[n..];
  }

  /** The absorbing phase has one outcome, the byte-level one. */
  lemma {:induction false} AbsorbIsAbsorbing(message: seq<bv8>, s: State)
    requires |message| % RATE == 0
    ensures |Bits(message)| % 1088 == 0
    ensures IsAbsorbing(Bits(message), s) <==> s == Absorb(message)
    decreases |message|
  {
    BitLength(|message|);
    if message == [] {
      assert Bits(message) == [];
    } else {
      WholeBlocks(|message|);
      var n := |message| - RATE;
      var head, block := message[..n], message[n..];
      SplitBits(message, n);
      hide Bits, Absorbed, IsAbsorbed, IsAbsorbing, Absorb;
      AbsorbIsAbsorbing(head, Absorb(head));
      AbsorbedIsAbsorbed(Absorb(head), block, s);
      AbsorbingStep(Bits(message), 8 * n, s);
      AbsorbStep(message);
      if IsAbsorbing(Bits(message), s) {
        var before: State :| IsAbsorbing(Bits(head), before) && IsAbsorbed(before, Bits(block), s);
        AbsorbIsAbsorbing(head, before);
      }
    }
  }

  lemma AbsorbingStep(bits: seq<bool>, n: nat, s: State)
    requires |bits| == n + 1088 && n % 1088 == 0
    ensures IsAbsorbing(bits, s) <==> exists before: State ::
      IsAbsorbing(bits[..n], before) && IsAbsorbed(before, bits[n..], s)
  {
    WholeBitBlocks(|bits|);
    hide IsAbsorbed;
  }

  lemma AbsorbStep(message: seq<bv8>)
    requires message != [] && |message| % RATE == 0
    ensures |message| >= RATE && (|message| - RATE) % RATE == 0
    ensures Absorb(message) == Absorbed(Absorb(message[..|message| - RATE]), message[|message| - RATE..])
  {
    WholeBlocks(|message|);
    hide Absorbed;
  }

  // ---- Squeezing -------------------------------------------------------------------------------

  lemma {:induction false} StoredBits(s: State, count: nat, i: nat, n: nat)
    requires i < count <= 4 && n < 64
    ensures Bits(Stored(s, count))[64 * i + n] == LaneBitAt(s, i, n)
  {
    hide Bits, BytesOf, Bit, Index;
    BitsConcat(Stored(s, count - 1), BytesOf(s[count - 1]));
    if i < count - 1 {
      StoredBits(s, count - 1, i, n);
    } else {
      StoredBit(s[i], n);
    }
  }

  lemma DigestIsSqueezed(s: State)
    ensures IsSqueezed(s, Bits(Digest(s)))
  {
    hide Bits, Stored, LaneBitAt;
    forall m | 0 <= m < 256 ensures Bits(Digest(s))[m] == LaneBitAt(s, m / 64, m % 64) {
      StoredBits(s, 4, m / 64, m % 64);
    }
  }

  lemma SqueezedIsUnique(s: State, x: seq<bool>, y: seq<bool>)
    requires |x| == |y| == 256 && IsSqueezed(s, x) && IsSqueezed(s, y)
    ensures x == y
  {
    hide LaneBitAt;
  }

  lemma PaddingBits(n: nat)
    ensures Bits(Padding(n)) == TenStarOne(8 * n)
  {
    PaddingIsTenStarOne(n);
  }

  /** Keccak-256 of a byte string is the sponge of its bits, and nothing else is. */
  lemma DigestIsTheSponge(data: seq<bv8>, output: seq<bool>)
    ensures IsSponge(Bits(data), output) <==> output == Bits(Keccak256(data))
  {
    hide Bits, Absorb, IsAbsorbing, IsSqueezed, Digest, Padding, TenStarOne;
    var padded := data + Padding(|data|);
    var s := Absorb(padded);
    BitsConcat(data, Padding(|data|));
    PaddingBits(|data|);
    AbsorbIsAbsorbing(padded, s);
    DigestIsSqueezed(s);
    if IsSponge(Bits(data), output) {
      var t: State :| IsAbsorbing(Bits(data) + TenStarOne(|Bits(data)|), t) && IsSqueezed(t, output);
      AbsorbIsAbsorbing(padded, t);
      SqueezedIsUnique(s, output, Bits(Digest(s)));
    }
  }
}
