/**
 The step mappings of FIPS 202, section 3.2, stated bit by bit, and the proof that every round of the
 lane-level permutation performs them. A `bv6` is an index modulo the lane width of 64.
 */
module KeccakStandard {
  import opened Keccak

  function Bit(lane: bv64, z: bv6): bool { (lane >> z) & 1 == 1 }

  /** Bit A[x, y, z] of a state; coordinates are taken modulo 5. */
  function At(s: State, x: int, y: int, z: bv6): bool { Bit(s[x % 5 + 5 * (y % 5)], z) }

  function Odd(a: bool, b: bool): bool { a != b }

  function OnlySecond(a: bool, b: bool): bool { !a && b }

  // ---- What the standard asks ------------------------------------------------------------------

  /** C[x, z] of section 3.2.1. */
  function Parity(s: State, x: int, z: bv6): bool {
    Odd(Odd(Odd(Odd(At(s, x, 0, z), At(s, x, 1, z)), At(s, x, 2, z)), At(s, x, 3, z)), At(s, x, 4, z))
  }

  ghost predicate IsTheta(s: State, t: State) {
    forall x, y, z: bv6 | IsIndex(x) && IsIndex(y) ::
      At(t, x, y, z) == Odd(At(s, x, y, z), Odd(Parity(s, x - 1, z), Parity(s, x + 1, z - 1)))
  }

  /** The walk of section 3.2.2 through the 24 lanes other than (0, 0). */
  function Walk(t: nat): (p: (int, int))
    ensures IsIndex(p.0) && IsIndex(p.1)
  {
    if t == 0 then (1, 0)
    else var p := Walk(t - 1); (p.1, (2 * p.0 + 3 * p.1) % 5)
  }

  const TRIANGLES: seq<bv6> :=
    [1, 3, 6, 10, 15, 21, 28, 36, 45, 55, 2, 14, 27, 41, 56, 8, 25, 43, 62, 18, 39, 61, 20, 44]

  lemma EarlyTriangles(k: nat)
    requires k < 8
    ensures Triangle(k) as nat == (k + 1) * (k + 2) / 2 % 64
  {
  }

  lemma MiddleTriangles(k: nat)
    requires 8 <= k < 16
    ensures Triangle(k) as nat == (k + 1) * (k + 2) / 2 % 64
  {
  }

  lemma LateTriangles(k: nat)
    requires 16 <= k < 24
    ensures Triangle(k) as nat == (k + 1) * (k + 2) / 2 % 64
  {
  }

  /** The offsets of the walk are the triangular numbers modulo 64. */
  lemma TriangleFormula(k: nat)
    requires k < 24
    ensures Triangle(k) as nat == (k + 1) * (k + 2) / 2 % 64
  {
    hide Triangle;
    if k < 8 {
      EarlyTriangles(k);
    } else if k < 16 {
      MiddleTriangles(k);
    } else {
      LateTriangles(k);
    }
  }

  function Triangle(k: nat): bv6
    requires k < 24
  {
    TRIANGLES[k]
  }

  ghost predicate IsRho(s: State, t: State) {
    && (forall z: bv6 :: At(t, 0, 0, z) == At(s, 0, 0, z))
    && (forall k: nat, z: bv6 | k < 24 ::
         At(t, Walk(k).0, Walk(k).1, z) == At(s, Walk(k).0, Walk(k).1, z - Triangle(k)))
  }

  ghost predicate IsPi(s: State, t: State) {
    forall x, y, z: bv6 | IsIndex(x) && IsIndex(y) :: At(t, x, y, z) == At(s, x + 3 * y, x, z)
  }

  ghost predicate IsChi(s: State, t: State) {
    forall x, y, z: bv6 | IsIndex(x) && IsIndex(y) ::
      At(t, x, y, z) == Odd(At(s, x, y, z), OnlySecond(At(s, x + 1, y, z), At(s, x + 2, y, z)))
  }

  /** The shift register of section 3.2.5 after `t` steps; bit i of the byte is R[i]. */
  function Register(t: nat): bv8 {
    if t == 0 then 1 else Step(Register(t - 1))
  }

  function Step(r: bv8): bv8 { if r & 0x80 == 0 then r << 1 else (r << 1) ^ 0x71 }

  function RegisterBit(t: nat): bool { Register(t % 255) & 1 == 1 }

  /** Bit j at position 2^j - 1 of a lane, zeros elsewhere. */
  function Placed(z: bv6, b0: bool, b1: bool, b2: bool, b3: bool, b4: bool, b5: bool, b6: bool): bool {
    if z == 0 then b0 else if z == 1 then b1 else if z == 3 then b2 else if z == 7 then b3
    else if z == 15 then b4 else if z == 31 then b5 else if z == 63 then b6 else false
  }

  /** RC[z] of round `round`. */
  function ConstantBit(round: nat, z: bv6): bool {
    Placed(z, RegisterBit(7 * round), RegisterBit(1 + 7 * round),
      RegisterBit(2 + 7 * round), RegisterBit(3 + 7 * round),
           RegisterBit(4 + 7 * round), RegisterBit(5 + 7 * round), RegisterBit(6 + 7 * round))
  }

  ghost predicate IsIota(s: State, t: State, round: nat) {
    && (forall x, y, z: bv6 | IsIndex(x) && IsIndex(y) && (x, y) != (0, 0) :: At(t, x, y, z) == At(s, x, y, z))
    && (forall z: bv6 :: At(t, 0, 0, z) == Odd(At(s, 0, 0, z), ConstantBit(round, z)))
  }

  // ---- Single bits of the lane operations ------------------------------------------------------

  lemma BitIs(v: bv64, z: bv6)
    ensures Bit(v, z) == ((v >> z) & 1 == 1)
  {
  }

  lemma PlainXorBit(a: bv64, b: bv64, z: bv6)
    ensures Bit(a ^ b, z) == (Bit(a, z) != Bit(b, z))
  {
  }

  lemma PlainAndNotBit(a: bv64, b: bv64, z: bv6)
    ensures Bit(!a & b, z) == (!Bit(a, z) && Bit(b, z))
  {
  }

  lemma PlainOrBit(a: bv64, b: bv64, z: bv6)
    ensures Bit(a | b, z) == (Bit(a, z) || Bit(b, z))
  {
  }

  lemma ShiftedUp(a: bv64, n: bv6, z: bv6)
    requires z >= n
    ensures ((a << n) >> z) & 1 == (a >> (z - n)) & 1
  {
  }

  lemma PlainLeftShiftBit(a: bv64, n: bv6, z: bv6)
    requires z >= n
    ensures Bit(a << n, z) == Bit(a, z - n)
  {
    hide Bit;
    ShiftedUp(a, n, z);
    BitIs(a << n, z);
    BitIs(a, z - n);
  }

  lemma PlainLeftShiftZero(a: bv64, n: bv6, z: bv6)
    requires z < n
    ensures !Bit(a << n, z)
  {
  }

  lemma ShiftedDown(a: bv64, n: bv6, z: bv6)
    requires n != 0 && z < 0 - n
    ensures ((a >> n) >> z) & 1 == (a >> (z + n)) & 1
  {
  }

  lemma PlainRightShiftBit(a: bv64, n: bv6, z: bv6)
    requires n != 0 && z < 0 - n
    ensures Bit(a >> n, z) == Bit(a, z + n)
  {
    hide Bit;
    ShiftedDown(a, n, z);
    BitIs(a >> n, z);
    BitIs(a, z + n);
  }

  lemma PlainRightShiftZero(a: bv64, n: bv6, z: bv6)
    requires n != 0 && z >= 0 - n
    ensures !Bit(a >> n, z)
  {
  }

  lemma XorBit(a: bv64, b: bv64, z: bv6)
    ensures Bit(Xor(a, b), z) == Odd(Bit(a, z), Bit(b, z))
  {
    hide Bit, Xor;
    XorIs(a, b);
    PlainXorBit(a, b, z);
  }

  lemma AndNotBit(a: bv64, b: bv64, z: bv6)
    ensures Bit(AndNot(a, b), z) == OnlySecond(Bit(a, z), Bit(b, z))
  {
    hide Bit, AndNot;
    AndNotIs(a, b);
    PlainAndNotBit(a, b, z);
  }

  lemma OrBit(a: bv64, b: bv64, z: bv6)
    ensures Bit(Or(a, b), z) == (Bit(a, z) || Bit(b, z))
  {
    hide Bit, Or;
    OrIs(a, b);
    PlainOrBit(a, b, z);
  }

  lemma LeftShiftBit(a: bv64, n: bv6, z: bv6)
    ensures Bit(ShiftLeft(a, n), z) == (z >= n && Bit(a, z - n))
  {
    hide Bit, ShiftLeft;
    ShiftLeftIs(a, n);
    if z >= n {
      PlainLeftShiftBit(a, n, z);
    } else {
      PlainLeftShiftZero(a, n, z);
    }
  }

  lemma RightShiftBit(a: bv64, n: bv6, z: bv6)
    requires n != 0
    ensures Bit(ShiftRight(a, n), z) == (z < 0 - n && Bit(a, z + n))
  {
    hide Bit, ShiftRight;
    ShiftRightIs(a, n);
    if z < 0 - n {
      PlainRightShiftBit(a, n, z);
    } else {
      PlainRightShiftZero(a, n, z);
    }
  }

  lemma RotateBit(a: bv64, n: bv6, z: bv6)
    ensures Bit(RotateLeft(a, n), z) == Bit(a, z - n)
  {
    if n != 0 {
      RotatedBit(a, n, z);
    } else {
      assert z - 0 == z;
    }
  }

  lemma RotatedBit(a: bv64, n: bv6, z: bv6)
    requires n != 0
    ensures Bit(RotateLeft(a, n), z) == Bit(a, z - n)
  {
    hide Bit, Or, ShiftLeft, ShiftRight;
    OrBit(ShiftLeft(a, n), ShiftRight(a, 0 - n), z);
    LeftShiftBit(a, n, z);
    RightShiftBit(a, 0 - n, z);
    NegatedAmount(n, z);
  }

  lemma NegatedAmount(n: bv6, z: bv6)
    requires n != 0
    ensures z + (0 - n) == z - n && (z < 0 - (0 - n) <==> z < n)
  {
  }

  // ---- Each mapping ----------------------------------------------------------------------------

  lemma LaneIndex(x: int, y: int)
    requires IsIndex(x) && IsIndex(y)
    ensures x % 5 == x && y % 5 == y && 0 <= x + 5 * y < 25
  {
  }

  lemma AtRow(s: State, x: int, y: int, z: bv6)
    requires IsIndex(y)
    ensures At(s, x, y, z) == Bit(s[x % 5 + 5 * y], z)
  {
    assert y % 5 == y;
  }

  lemma ColumnBit(s: State, x: int, z: bv6)
    ensures Bit(Column(s, x % 5), z) == Parity(s, x, z)
  {
    hide Bit, Odd, At, Xor;
    AtRow(s, x, 0, z); AtRow(s, x, 1, z); AtRow(s, x, 2, z); AtRow(s, x, 3, z); AtRow(s, x, 4, z);
    var u := x % 5;
    FoldBit(s[u], s[u + 5], s[u + 10], s[u + 15], s[u + 20], z);
  }

  lemma FoldBit(a: bv64, b: bv64, c: bv64, d: bv64, e: bv64, z: bv6)
    ensures Bit(Xor(Xor(Xor(Xor(a, b), c), d), e), z)
         == Odd(Odd(Odd(Odd(Bit(a, z), Bit(b, z)), Bit(c, z)), Bit(d, z)), Bit(e, z))
  {
    hide Bit, Odd, Xor;
    XorBit(a, b, z);
    XorBit(Xor(a, b), c, z);
    XorBit(Xor(Xor(a, b), c), d, z);
    XorBit(Xor(Xor(Xor(a, b), c), d), e, z);
  }

  lemma PreviousIndex(x: int)
    requires IsIndex(x)
    ensures (x + 4) % 5 == (x - 1) % 5
  {
  }

  lemma ThetaMeetsStandard(s: State)
    ensures IsTheta(s, Theta(s))
  {
    hide Bit, Xor, Odd, Column, RotateLeft, Parity, Delta, Theta;
    forall x, y, z: bv6 | IsIndex(x) && IsIndex(y)
      ensures At(Theta(s), x, y, z) == Odd(At(s, x, y, z), Odd(Parity(s, x - 1, z), Parity(s, x + 1, z - 1)))
    {
      LaneIndex(x, y);
      PreviousIndex(x);
      ThetaAt(s, x, y);
      DeltaOf(s, x);
      var left, right := Column(s, (x + 4) % 5), Column(s, (x + 1) % 5);
      XorBit(s[x + 5 * y], Delta(s, x), z);
      XorBit(left, RotateLeft(right, 1), z);
      RotateBit(right, 1, z);
      ColumnBit(s, x - 1, z);
      ColumnBit(s, x + 1, z - 1);
    }
  }

  const WALK: seq<(int, int)> := [
    (1, 0), (0, 2), (2, 1), (1, 2), (2, 3), (3, 3), (3, 0), (0, 1), (1, 3), (3, 1), (1, 4), (4, 4),
    (4, 0), (0, 3), (3, 4), (4, 3), (3, 2), (2, 2), (2, 0), (0, 4), (4, 2), (2, 4), (4, 1), (1, 1)]

  lemma WalkStep(k: nat)
    requires 0 < k < 24
    ensures |WALK| == 24 && WALK[k] == (WALK[k - 1].1, (2 * WALK[k - 1].0 + 3 * WALK[k - 1].1) % 5)
  {
  }

  lemma WalkStart()
    ensures |WALK| == 24 && Walk(0) == WALK[0]
  {
  }

  lemma {:induction false} WalkIsTable(k: nat)
    requires k < 24
    ensures |WALK| == 24 && Walk(k) == WALK[k]
  {
    hide WALK;
    WalkStart();
    if k > 0 {
      WalkIsTable(k - 1);
      WalkStep(k);
    }
  }

  const LANES: seq<nat> := [1, 10, 7, 11, 17, 18, 3, 5, 16, 8, 21, 24, 4, 15, 23, 19, 13, 12, 2, 20, 14, 22, 9, 6]

  lemma WalkLanes(k: nat)
    requires k < 24
    ensures |WALK| == |LANES| == 24 && IsIndex(WALK[k].0) && IsIndex(WALK[k].1)
    ensures WALK[k].0 + 5 * WALK[k].1 == LANES[k]
  {
  }

  lemma LaneRotations()
    ensures Rotation(1) == 1 && Rotation(10) == 3 && Rotation(7) == 6 && Rotation(11) == 10 && Rotation(17) == 15
      && Rotation(18) == 21
    ensures Rotation(3) == 28 && Rotation(5) == 36 && Rotation(16) == 45 && Rotation(8) == 55 && Rotation(21) == 2
      && Rotation(24) == 14
    ensures Rotation(4) == 27 && Rotation(15) == 41 && Rotation(23) == 56 && Rotation(19) == 8 && Rotation(13) == 25
      && Rotation(12) == 43
    ensures Rotation(2) == 62 && Rotation(20) == 18 && Rotation(14) == 39 && Rotation(22) == 61 && Rotation(9) == 20
      && Rotation(6) == 44
  {
  }

  lemma TableRotation(k: nat)
    requires k < 24
    ensures IsIndex(Walk(k).0) && IsIndex(Walk(k).1) && Rotation(Walk(k).0 + 5 * Walk(k).1) == Triangle(k)
  {
    hide Rotation, Triangle, Walk, WALK, LANES;
    WalkIsTable(k);
    WalkLanes(k);
    LaneRotation(k);
  }

  lemma LaneRotation(k: nat)
    requires k < 24
    ensures |LANES| == 24 && LANES[k] < 25 && Rotation(LANES[k]) == Triangle(k)
  {
    LaneRotations();
    hide Rotation;
  }

  const ON_WALK: seq<nat> := [0, 0, 18, 6, 12, 7, 23, 2, 9, 22, 1, 3, 17, 16, 20, 13, 8, 4, 5, 15, 19, 10, 21, 14, 11]

  lemma WalkValues()
    ensures Walk(0) == (1, 0) && Walk(1) == (0, 2) && Walk(2) == (2, 1) && Walk(3) == (1, 2) && Walk(4) == (2, 3)
      && Walk(5) == (3, 3)
    ensures Walk(6) == (3, 0) && Walk(7) == (0, 1) && Walk(8) == (1, 3) && Walk(9) == (3, 1) && Walk(10) == (1, 4)
      && Walk(11) == (4, 4)
    ensures Walk(12) == (4, 0) && Walk(13) == (0, 3) && Walk(14) == (3, 4) && Walk(15) == (4, 3) && Walk(16) == (3, 2)
      && Walk(17) == (2, 2)
    ensures Walk(18) == (2, 0) && Walk(19) == (0, 4) && Walk(20) == (4, 2) && Walk(21) == (2, 4) && Walk(22) == (4, 1)
      && Walk(23) == (1, 1)
  {
    WalkIsTable(0); WalkIsTable(1); WalkIsTable(2); WalkIsTable(3); WalkIsTable(4); WalkIsTable(5); WalkIsTable(6);
    WalkIsTable(7);
    WalkIsTable(8); WalkIsTable(9); WalkIsTable(10); WalkIsTable(11); WalkIsTable(12); WalkIsTable(13);
    WalkIsTable(14); WalkIsTable(15);
    WalkIsTable(16); WalkIsTable(17); WalkIsTable(18); WalkIsTable(19); WalkIsTable(20); WalkIsTable(21);
    WalkIsTable(22); WalkIsTable(23);
    hide Walk;
  }

  /** Every lane except (0, 0) is on the walk. */
  lemma WalkCovers(x: int, y: int) returns (k: nat)
    requires IsIndex(x) && IsIndex(y) && (x, y) != (0, 0)
    ensures k < 24 && Walk(k) == (x, y)
  {
    WalkValues();
    hide Walk;
    k := ON_WALK[x + 5 * y];
  }

  lemma RhoLane(s: State, i: int)
    requires 0 <= i < 25
    ensures Rho(s)[i] == RotateLeft(s[i], Rotation(i))
  {
    hide RotateLeft, Rotation;
  }

  lemma RhoAt(s: State, x: int, y: int, z: bv6)
    requires IsIndex(x) && IsIndex(y)
    ensures At(Rho(s), x, y, z) == At(s, x, y, z - Rotation(x + 5 * y))
  {
    hide Bit, RotateLeft, Rotation, Rho;
    LaneIndex(x, y);
    RhoLane(s, x + 5 * y);
    RotateBit(s[x + 5 * y], Rotation(x + 5 * y), z);
  }

  lemma RhoMeetsStandard(s: State)
    ensures IsRho(s, Rho(s))
  {
    NoRotation();
    hide Rho, At, Rotation, Triangle, Walk;
    forall z: bv6 ensures At(Rho(s), 0, 0, z) == At(s, 0, 0, z) { RhoAt(s, 0, 0, z); }
    forall k: nat, z: bv6 | k < 24
      ensures At(Rho(s), Walk(k).0, Walk(k).1, z) == At(s, Walk(k).0, Walk(k).1, z - Triangle(k))
    {
      TableRotation(k);
      RhoAt(s, Walk(k).0, Walk(k).1, z);
    }
  }

  lemma NoRotation()
    ensures Rotation(0) == 0
  {
  }

  lemma PiIndex(x: int, y: int)
    requires IsIndex(x) && IsIndex(y)
    ensures PiSource(x + 5 * y) == (x + 3 * y) % 5 + 5 * (x % 5)
  {
    Fifths(x, y);
  }

  lemma PiMeetsStandard(s: State)
    ensures IsPi(s, Pi(s))
  {
    hide Bit, PiSource;
    forall x, y, z: bv6 | IsIndex(x) && IsIndex(y) ensures At(Pi(s), x, y, z) == At(s, x + 3 * y, x, z) {
      LaneIndex(x, y);
      PiIndex(x, y);
    }
  }

  lemma ChiPoint(s: State, x: int, y: int, z: bv6)
    requires IsIndex(x) && IsIndex(y)
    ensures At(Chi(s), x, y, z) == Odd(At(s, x, y, z), OnlySecond(At(s, x + 1, y, z), At(s, x + 2, y, z)))
  {
    hide Bit, Xor, AndNot, Odd, OnlySecond, Chi;
    LaneIndex(x, y);
    ChiAt(s, x, y);
    var next, after := s[(x + 1) % 5 + 5 * y], s[(x + 2) % 5 + 5 * y];
    AndNotBit(next, after, z);
    XorBit(s[x + 5 * y], AndNot(next, after), z);
  }

  lemma ChiMeetsStandard(s: State)
    ensures IsChi(s, Chi(s))
  {
    hide At, Odd, OnlySecond, Chi;
    forall x, y, z: bv6 | IsIndex(x) && IsIndex(y)
      ensures At(Chi(s), x, y, z) == Odd(At(s, x, y, z), OnlySecond(At(s, x + 1, y, z), At(s, x + 2, y, z)))
    {
      ChiPoint(s, x, y, z);
    }
  }

  // ---- Round constants -------------------------------------------------------------------------

  /** The register before each round. */
  const REGISTERS: seq<bv8> :=
    [1, 128, 216, 26, 223, 9, 53, 79, 202, 112, 65, 236, 213, 205, 99, 171, 170, 42, 242, 232, 55, 62, 11, 68]

  function Steps(r: bv8, n: nat): bv8 { if n == 0 then r else Step(Steps(r, n - 1)) }

  lemma {:induction false} RegisterAdvances(t: nat, n: nat)
    ensures Register(t + n) == Steps(Register(t), n)
  {
    if n > 0 { RegisterAdvances(t, n - 1); }
  }

  function SevenSteps(r: bv8): bv8 { Step(Step(Step(Step(Step(Step(Step(r))))))) }

  lemma SevenStepsTable()
    ensures SevenSteps(1) == 128 && SevenSteps(128) == 216 && SevenSteps(216) == 26 && SevenSteps(26) == 223
      && SevenSteps(223) == 9 && SevenSteps(9) == 53
    ensures SevenSteps(53) == 79 && SevenSteps(79) == 202 && SevenSteps(202) == 112 && SevenSteps(112) == 65
      && SevenSteps(65) == 236 && SevenSteps(236) == 213
    ensures SevenSteps(213) == 205 && SevenSteps(205) == 99 && SevenSteps(99) == 171 && SevenSteps(171) == 170
      && SevenSteps(170) == 42 && SevenSteps(42) == 242
    ensures SevenSteps(242) == 232 && SevenSteps(232) == 55 && SevenSteps(55) == 62 && SevenSteps(62) == 11
      && SevenSteps(11) == 68
  {
  }

  lemma RegistersStep(round: nat)
    requires 0 < round < 24
    ensures |REGISTERS| == 24 && REGISTERS[round] == SevenSteps(REGISTERS[round - 1])
  {
    SevenStepsTable();
    hide SevenSteps;
  }

  lemma SevenStepsIsSteps(r: bv8)
    ensures Steps(r, 0) == r && Steps(r, 1) == Step(r) && Steps(r, 2) == Step(Step(r))
    ensures Steps(r, 3) == Step(Step(Step(r))) && Steps(r, 4) == Step(Step(Step(Step(r))))
    ensures Steps(r, 5) == Step(Step(Step(Step(Step(r))))) && Steps(r, 6) == Step(Step(Step(Step(Step(Step(r))))))
    ensures Steps(r, 7) == SevenSteps(r)
  {
    hide Step;
    assert Steps(r, 1) == Step(r);
    assert Steps(r, 2) == Step(Step(r));
    assert Steps(r, 3) == Step(Step(Step(r)));
    assert Steps(r, 4) == Step(Step(Step(Step(r))));
    assert Steps(r, 5) == Step(Step(Step(Step(Step(r)))));
  }

  lemma FirstRegister()
    ensures |REGISTERS| == 24 && REGISTERS[0] == 1 && Register(0) == 1
  {
  }

  lemma {:induction false} RegisterBefore(round: nat)
    requires round < 24
    ensures |REGISTERS| == 24 && Register(7 * round) == REGISTERS[round]
  {
    FirstRegister();
    hide Step, Steps, SevenSteps, Register, REGISTERS;
    if round > 0 {
      RegisterBefore(round - 1);
      RegisterAdvances(7 * (round - 1), 7);
      SevenStepsIsSteps(REGISTERS[round - 1]);
      RegistersStep(round);
    }
  }

  /** The seven bits one round takes from the register, put at positions 2^j - 1. */
  function ConstantWord(r: bv8): bv64 {
    var r1 := Step(r);
    var r2 := Step(r1);
    var r3 := Step(r2);
    var r4 := Step(r3);
    var r5 := Step(r4);
    var r6 := Step(r5);
    ((r & 1) as bv64) | (((r1 & 1) as bv64) << 1) | (((r2 & 1) as bv64) << 3) | (((r3 & 1) as bv64) << 7)
    | (((r4 & 1) as bv64) << 15) | (((r5 & 1) as bv64) << 31) | (((r6 & 1) as bv64) << 63)
  }

  lemma ConstantWords()
    ensures ConstantWord(1) == 0x0000000000000001 && ConstantWord(128) == 0x0000000000008082
    ensures ConstantWord(216) == 0x800000000000808a && ConstantWord(26) == 0x8000000080008000
    ensures ConstantWord(223) == 0x000000000000808b && ConstantWord(9) == 0x0000000080000001
    ensures ConstantWord(53) == 0x8000000080008081 && ConstantWord(79) == 0x8000000000008009
    ensures ConstantWord(202) == 0x000000000000008a && ConstantWord(112) == 0x0000000000000088
    ensures ConstantWord(65) == 0x0000000080008009 && ConstantWord(236) == 0x000000008000000a
    ensures ConstantWord(213) == 0x000000008000808b && ConstantWord(205) == 0x800000000000008b
    ensures ConstantWord(99) == 0x8000000000008089 && ConstantWord(171) == 0x8000000000008003
    ensures ConstantWord(170) == 0x8000000000008002 && ConstantWord(42) == 0x8000000000000080
    ensures ConstantWord(242) == 0x000000000000800a && ConstantWord(232) == 0x800000008000000a
    ensures ConstantWord(55) == 0x8000000080008081 && ConstantWord(62) == 0x8000000000008080
    ensures ConstantWord(11) == 0x0000000080000001 && ConstantWord(68) == 0x8000000080008008
  {
  }

  lemma ConstantsAreWords(round: nat)
    requires round < 24
    ensures |REGISTERS| == |ROUND_CONSTANTS| == 24 && ROUND_CONSTANTS[round] == ConstantWord(REGISTERS[round])
  {
    ConstantWords();
    hide ConstantWord;
  }

  function Low(r: bv8): bool { r & 1 == 1 }

  lemma WordBits(r: bv8, z: bv6)
    ensures Bit(ConstantWord(r), z) == Placed(z, Low(r), Low(Step(r)), Low(Step(Step(r))), Low(Step(Step(Step(r)))),
      Low(Step(Step(Step(Step(r))))), Low(Step(Step(Step(Step(Step(r)))))), Low(Step(Step(Step(Step(Step(Step(r))))))))
  {
    hide Step;
  }

  lemma LaterBit(round: nat, r: bv8, j: nat)
    requires round < 24 && j < 7 && r == Register(7 * round)
    ensures RegisterBit(j + 7 * round) == Low(Steps(r, j))
  {
    hide Step, Steps, Register;
    RegisterAdvances(7 * round, j);
    assert (j + 7 * round) % 255 == j + 7 * round;
  }

  lemma PlacedBits(round: nat, r: bv8, z: bv6)
    requires round < 24 && r == Register(7 * round)
    ensures ConstantBit(round, z) == Bit(ConstantWord(r), z)
  {
    hide Bit, ConstantWord, Step, RegisterBit, Register, Low, Steps, Placed;
    WordBits(r, z);
    SevenStepsIsSteps(r);
    LaterBit(round, r, 0); LaterBit(round, r, 1); LaterBit(round, r, 2); LaterBit(round, r, 3);
    LaterBit(round, r, 4); LaterBit(round, r, 5); LaterBit(round, r, 6);
  }

  lemma RoundConstantBits(round: nat, z: bv6)
    requires round < 24
    ensures |ROUND_CONSTANTS| == 24 && Bit(ROUND_CONSTANTS[round], z) == ConstantBit(round, z)
  {
    hide Bit, ConstantWord, ConstantBit, Register, REGISTERS, ROUND_CONSTANTS;
    ConstantsAreWords(round);
    RegisterBefore(round);
    PlacedBits(round, REGISTERS[round], z);
  }

  lemma IotaMeetsStandard(s: State, round: nat)
    requires round < 24
    ensures |ROUND_CONSTANTS| == 24 && IsIota(s, Iota(s, ROUND_CONSTANTS[round]), round)
  {
    ConstantCount();
    hide Bit, Xor, Odd, ConstantBit, ROUND_CONSTANTS;
    var constant := ROUND_CONSTANTS[round];
    forall x, y, z: bv6 | IsIndex(x) && IsIndex(y) && (x, y) != (0, 0)
      ensures At(Iota(s, constant), x, y, z) == At(s, x, y, z)
    {
      LaneIndex(x, y);
    }
    forall z: bv6 ensures At(Iota(s, constant), 0, 0, z) == Odd(At(s, 0, 0, z), ConstantBit(round, z)) {
      RoundConstantBits(round, z);
      XorBit(s[0], constant, z);
    }
  }

  // ---- The round -------------------------------------------------------------------------------

  /** Rnd of section 3.3: iota after chi after pi after rho after theta. */
  ghost predicate IsRound(s: State, t: State, round: nat) {
    exists a, b, c, d :: IsTheta(s, a) && IsRho(a, b) && IsPi(b, c) && IsChi(c, d) && IsIota(d, t, round)
  }

  lemma RoundMeetsStandard(s: State, round: nat)
    requires round < 24
    ensures |ROUND_CONSTANTS| == 24 && IsRound(s, Round(s, ROUND_CONSTANTS[round]), round)
  {
    hide IsTheta, IsRho, IsPi, IsChi, IsIota, Theta, Rho, Pi, Chi, Iota, ROUND_CONSTANTS;
    var a := Theta(s);
    var b := Rho(a);
    var c := Pi(b);
    var d := Chi(c);
    ThetaMeetsStandard(s);
    RhoMeetsStandard(a);
    PiMeetsStandard(b);
    ChiMeetsStandard(c);
    IotaMeetsStandard(d, round);
  }

  /** 24 rounds of the standard, one after the other: Keccak-p[1600, 24] of section 3.3. */
  ghost predicate IsPermutation(s: State, t: State) {
    exists states: seq<State> :: |states| == 25 && states[0] == s && states[24] == t
      && forall i | 0 <= i < 24 :: IsRound(states[i], states[i + 1], i)
  }

  lemma PermuteMeetsStandard(s: State)
    ensures IsPermutation(s, Permute(s))
  {
    hide IsRound, Round, ROUND_CONSTANTS;
    ConstantCount();
    var states: seq<State> := seq(25, i requires 0 <= i <= |ROUND_CONSTANTS| => Rounds(s, i));
    forall i | 0 <= i < 24 ensures IsRound(states[i], states[i + 1], i) {
      RoundMeetsStandard(Rounds(s, i), i);
    }
  }

  // ---- The standard leaves no choice -----------------------------------------------------------

  lemma Byte0Agrees(a: bv64, b: bv64)
    requires Bit(a, 0) == Bit(b, 0) && Bit(a, 1) == Bit(b, 1) && Bit(a, 2) == Bit(b, 2) && Bit(a, 3) == Bit(b, 3)
    requires Bit(a, 4) == Bit(b, 4) && Bit(a, 5) == Bit(b, 5) && Bit(a, 6) == Bit(b, 6) && Bit(a, 7) == Bit(b, 7)
    ensures (a >> 0) & 0xff == (b >> 0) & 0xff
  {
  }

  lemma Byte1Agrees(a: bv64, b: bv64)
    requires Bit(a, 8) == Bit(b, 8) && Bit(a, 9) == Bit(b, 9) && Bit(a, 10) == Bit(b, 10) && Bit(a, 11) == Bit(b, 11)
    requires Bit(a, 12) == Bit(b, 12) && Bit(a, 13) == Bit(b, 13) && Bit(a, 14) == Bit(b, 14)
      && Bit(a, 15) == Bit(b, 15)
    ensures (a >> 8) & 0xff == (b >> 8) & 0xff
  {
  }

  lemma Byte2Agrees(a: bv64, b: bv64)
    requires Bit(a, 16) == Bit(b, 16) && Bit(a, 17) == Bit(b, 17) && Bit(a, 18) == Bit(b, 18)
      && Bit(a, 19) == Bit(b, 19)
    requires Bit(a, 20) == Bit(b, 20) && Bit(a, 21) == Bit(b, 21) && Bit(a, 22) == Bit(b, 22)
      && Bit(a, 23) == Bit(b, 23)
    ensures (a >> 16) & 0xff == (b >> 16) & 0xff
  {
  }

  lemma Byte3Agrees(a: bv64, b: bv64)
    requires Bit(a, 24) == Bit(b, 24) && Bit(a, 25) == Bit(b, 25) && Bit(a, 26) == Bit(b, 26)
      && Bit(a, 27) == Bit(b, 27)
    requires Bit(a, 28) == Bit(b, 28) && Bit(a, 29) == Bit(b, 29) && Bit(a, 30) == Bit(b, 30)
      && Bit(a, 31) == Bit(b, 31)
    ensures (a >> 24) & 0xff == (b >> 24) & 0xff
  {
  }

  lemma Byte4Agrees(a: bv64, b: bv64)
    requires Bit(a, 32) == Bit(b, 32) && Bit(a, 33) == Bit(b, 33) && Bit(a, 34) == Bit(b, 34)
      && Bit(a, 35) == Bit(b, 35)
    requires Bit(a, 36) == Bit(b, 36) && Bit(a, 37) == Bit(b, 37) && Bit(a, 38) == Bit(b, 38)
      && Bit(a, 39) == Bit(b, 39)
    ensures (a >> 32) & 0xff == (b >> 32) & 0xff
  {
  }

  lemma Byte5Agrees(a: bv64, b: bv64)
    requires Bit(a, 40) == Bit(b, 40) && Bit(a, 41) == Bit(b, 41) && Bit(a, 42) == Bit(b, 42)
      && Bit(a, 43) == Bit(b, 43)
    requires Bit(a, 44) == Bit(b, 44) && Bit(a, 45) == Bit(b, 45) && Bit(a, 46) == Bit(b, 46)
      && Bit(a, 47) == Bit(b, 47)
    ensures (a >> 40) & 0xff == (b >> 40) & 0xff
  {
  }

  lemma Byte6Agrees(a: bv64, b: bv64)
    requires Bit(a, 48) == Bit(b, 48) && Bit(a, 49) == Bit(b, 49) && Bit(a, 50) == Bit(b, 50)
      && Bit(a, 51) == Bit(b, 51)
    requires Bit(a, 52) == Bit(b, 52) && Bit(a, 53) == Bit(b, 53) && Bit(a, 54) == Bit(b, 54)
      && Bit(a, 55) == Bit(b, 55)
    ensures (a >> 48) & 0xff == (b >> 48) & 0xff
  {
  }

  lemma Byte7Agrees(a: bv64, b: bv64)
    requires Bit(a, 56) == Bit(b, 56) && Bit(a, 57) == Bit(b, 57) && Bit(a, 58) == Bit(b, 58)
      && Bit(a, 59) == Bit(b, 59)
    requires Bit(a, 60) == Bit(b, 60) && Bit(a, 61) == Bit(b, 61) && Bit(a, 62) == Bit(b, 62)
      && Bit(a, 63) == Bit(b, 63)
    ensures (a >> 56) & 0xff == (b >> 56) & 0xff
  {
  }

  lemma BytesDetermineLane(a: bv64, b: bv64)
    requires (a >> 0) & 0xff == (b >> 0) & 0xff && (a >> 8) & 0xff == (b >> 8) & 0xff
    requires (a >> 16) & 0xff == (b >> 16) & 0xff && (a >> 24) & 0xff == (b >> 24) & 0xff
    requires (a >> 32) & 0xff == (b >> 32) & 0xff && (a >> 40) & 0xff == (b >> 40) & 0xff
    requires (a >> 48) & 0xff == (b >> 48) & 0xff && (a >> 56) & 0xff == (b >> 56) & 0xff
    ensures a == b
  {
  }

  lemma BitsDetermineLane(a: bv64, b: bv64)
    requires forall z: bv6 :: Bit(a, z) == Bit(b, z)
    ensures a == b
  {
    hide Bit;
    Byte0Agrees(a, b);
    Byte1Agrees(a, b);
    Byte2Agrees(a, b);
    Byte3Agrees(a, b);
    Byte4Agrees(a, b);
    Byte5Agrees(a, b);
    Byte6Agrees(a, b);
    Byte7Agrees(a, b);
    BytesDetermineLane(a, b);
  }

  ghost predicate SameBits(s: State, t: State) {
    forall x, y, z: bv6 | IsIndex(x) && IsIndex(y) :: At(s, x, y, z) == At(t, x, y, z)
  }

  lemma SameBitsSameState(s: State, t: State)
    requires SameBits(s, t)
    ensures s == t
  {
    hide Bit;
    forall i | 0 <= i < 25 ensures s[i] == t[i] {
      forall z: bv6 ensures Bit(s[i], z) == Bit(t[i], z) {
        assert At(s, i % 5, i / 5, z) == At(t, i % 5, i / 5, z);
      }
      BitsDetermineLane(s[i], t[i]);
    }
  }

  lemma RhoIsDetermined(s: State, t: State, u: State)
    requires IsRho(s, t) && IsRho(s, u)
    ensures t == u
  {
    hide At, Walk, Triangle;
    forall x, y, z: bv6 | IsIndex(x) && IsIndex(y) ensures At(t, x, y, z) == At(u, x, y, z) {
      if (x, y) != (0, 0) {
        var k := WalkCovers(x, y);
        assert At(t, Walk(k).0, Walk(k).1, z) == At(u, Walk(k).0, Walk(k).1, z);
      }
    }
    SameBitsSameState(t, u);
  }

  lemma ThetaIsDetermined(s: State, t: State, u: State)
    requires IsTheta(s, t) && IsTheta(s, u)
    ensures t == u
  {
    hide At, Odd, Parity;
    assert SameBits(t, u);
    SameBitsSameState(t, u);
  }

  lemma PiIsDetermined(s: State, t: State, u: State)
    requires IsPi(s, t) && IsPi(s, u)
    ensures t == u
  {
    hide At;
    forall x, y, z: bv6 | IsIndex(x) && IsIndex(y) ensures At(t, x, y, z) == At(u, x, y, z) {
      assert At(t, x, y, z) == At(s, x + 3 * y, x, z);
    }
    SameBitsSameState(t, u);
  }

  lemma ChiIsDetermined(s: State, t: State, u: State)
    requires IsChi(s, t) && IsChi(s, u)
    ensures t == u
  {
    hide At, Odd, OnlySecond;
    forall x, y, z: bv6 | IsIndex(x) && IsIndex(y) ensures At(t, x, y, z) == At(u, x, y, z) {
      assert At(t, x, y, z) == Odd(At(s, x, y, z), OnlySecond(At(s, x + 1, y, z), At(s, x + 2, y, z)));
      assert At(u, x, y, z) == Odd(At(s, x, y, z), OnlySecond(At(s, x + 1, y, z), At(s, x + 2, y, z)));
    }
    SameBitsSameState(t, u);
  }

  lemma IotaIsDetermined(s: State, t: State, u: State, round: nat)
    requires IsIota(s, t, round) && IsIota(s, u, round)
    ensures t == u
  {
    hide At, Odd, ConstantBit;
    forall x, y, z: bv6 | IsIndex(x) && IsIndex(y) ensures At(t, x, y, z) == At(u, x, y, z) {
      if (x, y) != (0, 0) { assert At(t, x, y, z) == At(s, x, y, z); }
    }
    SameBitsSameState(t, u);
  }

  /** One round of the standard has one outcome, so the lane-level round is that outcome and no other. */
  lemma RoundIsTheStandardRound(s: State, t: State, round: nat)
    requires round < 24
    ensures |ROUND_CONSTANTS| == 24 && (IsRound(s, t, round) <==> t == Round(s, ROUND_CONSTANTS[round]))
  {
    RoundMeetsStandard(s, round);
    if IsRound(s, t, round) {
      hide IsTheta, IsRho, IsPi, IsChi, IsIota, Theta, Rho, Pi, Chi, Iota, ROUND_CONSTANTS;
      var a, b, c, d :| IsTheta(s, a) && IsRho(a, b) && IsPi(b, c) && IsChi(c, d) && IsIota(d, t, round);
      ThetaMeetsStandard(s);
      ThetaIsDetermined(s, a, Theta(s));
      RhoMeetsStandard(a);
      RhoIsDetermined(a, b, Rho(a));
      PiMeetsStandard(b);
      PiIsDetermined(b, c, Pi(b));
      ChiMeetsStandard(c);
      ChiIsDetermined(c, d, Chi(c));
      IotaMeetsStandard(d, round);
      IotaIsDetermined(d, t, Iota(d, ROUND_CONSTANTS[round]), round);
    }
  }

  /** And 24 of them have one outcome too: the permutation is exactly the standard's. */
  lemma PermutationIsTheStandard(s: State, t: State)
    ensures IsPermutation(s, t) <==> t == Permute(s)
  {
    hide IsRound, Round, ROUND_CONSTANTS;
    ConstantCount();
    if IsPermutation(s, t) {
      var states: seq<State> :| |states| == 25 && states[0] == s && states[24] == t
        && forall i | 0 <= i < 24 :: IsRound(states[i], states[i + 1], i);
      StatesAreRounds(states, 24);
    }
    if t == Permute(s) { PermuteMeetsStandard(s); }
  }

  lemma {:induction false} StatesAreRounds(states: seq<State>, n: nat)
    requires |states| == 25 && n <= 24 && forall i | 0 <= i < 24 :: IsRound(states[i], states[i + 1], i)
    ensures |ROUND_CONSTANTS| == 24 && states[n] == Rounds(states[0], n)
  {
    hide IsRound, Round, ROUND_CONSTANTS;
    ConstantCount();
    if n > 0 {
      StatesAreRounds(states, n - 1);
      RoundIsTheStandardRound(states[n - 1], states[n], n - 1);
    }
  }
}
