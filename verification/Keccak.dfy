/**
 Keccak-256 of native/src/tron.cpp: the permutation on a 25-lane state and the sponge around it, both
 updating the state array in place, against lane-level functions.
 */
module Keccak {
  /** Lane (x, y) is element x + 5 * y. */
  type State = s: seq<bv64> | |s| == 25 witness seq(25, _ => 0)

  const ROTATION: seq<bv6> :=
    [0, 1, 62, 28, 27, 36, 44, 6, 55, 20, 3, 10, 43, 25, 39, 41, 45, 15, 21, 8, 18, 2, 61, 56, 14]

  const ROUND_CONSTANTS: seq<bv64> := [
    0x0000000000000001, 0x0000000000008082, 0x800000000000808a, 0x8000000080008000, 0x000000000000808b,
    0x0000000080000001, 0x8000000080008081, 0x8000000000008009, 0x000000000000008a, 0x0000000000000088,
    0x0000000080008009, 0x000000008000000a, 0x000000008000808b, 0x800000000000008b, 0x8000000000008089,
    0x8000000000008003, 0x8000000000008002, 0x8000000000000080, 0x000000000000800a, 0x800000008000000a,
    0x8000000080008081, 0x8000000000008080, 0x0000000080000001, 0x8000000080008008]

  function ShiftLeft(value: bv64, amount: bv6): bv64 { value << amount }

  function ShiftRight(value: bv64, amount: bv6): bv64 { value >> amount }

  function Or(a: bv64, b: bv64): bv64 { a | b }

  function RotateLeft(value: bv64, amount: bv6): bv64 {
    if amount == 0 then value else Or(ShiftLeft(value, amount), ShiftRight(value, 0 - amount))
  }

  function Xor(a: bv64, b: bv64): bv64 { a ^ b }

  /** Bits of `b` where `a` has none. */
  function AndNot(a: bv64, b: bv64): bv64 { !a & b }

  /** The operations on words, one equation each, for proofs in which their bodies stay hidden. */
  lemma XorIs(a: bv64, b: bv64)
    ensures Xor(a, b) == a ^ b
  {
  }

  lemma AndNotIs(a: bv64, b: bv64)
    ensures AndNot(a, b) == !a & b
  {
  }

  lemma OrIs(a: bv64, b: bv64)
    ensures Or(a, b) == a | b
  {
  }

  lemma ShiftLeftIs(a: bv64, n: bv6)
    ensures ShiftLeft(a, n) == a << n
  {
  }

  lemma ShiftRightIs(a: bv64, n: bv6)
    ensures ShiftRight(a, n) == a >> n
  {
  }

  predicate IsIndex(i: int) { 0 <= i < 5 }

  // ---- The step mappings on lanes --------------------------------------------------------------

  function Column(s: State, x: int): bv64
    requires IsIndex(x)
  {
    Xor(Xor(Xor(Xor(s[x], s[x + 5]), s[x + 10]), s[x + 15]), s[x + 20])
  }

  function Delta(s: State, x: int): bv64
    requires IsIndex(x)
  {
    Xor(Column(s, (x + 4) % 5), RotateLeft(Column(s, (x + 1) % 5), 1))
  }

  function Theta(s: State): State { seq(25, i requires 0 <= i < 25 => Xor(s[i], Delta(s, i % 5))) }

  function Rotation(i: int): bv6
    requires 0 <= i < 25
  {
    ROTATION[i]
  }

  function Rho(s: State): State { seq(25, i requires 0 <= i < 25 => RotateLeft(s[i], Rotation(i))) }

  function PiSource(i: int): (j: int)
    requires 0 <= i < 25
    ensures 0 <= j < 25
  {
    (i % 5 + 3 * (i / 5)) % 5 + 5 * (i % 5)
  }

  function Pi(s: State): State { seq(25, i requires 0 <= i < 25 => s[PiSource(i)]) }

  function InRow(i: int, step: int): (j: int)
    requires 0 <= i < 25 && 0 <= step
    ensures 0 <= j < 25 && j / 5 == i / 5
  {
    (i % 5 + step) % 5 + 5 * (i / 5)
  }

  function Chi(s: State): State {
    seq(25, i requires 0 <= i < 25 => Xor(s[i], AndNot(s[InRow(i, 1)], s[InRow(i, 2)])))
  }

  function Iota(s: State, constant: bv64): State { s[0 := Xor(s[0], constant)] }

  function Round(s: State, constant: bv64): State { Iota(Chi(Pi(Rho(Theta(s)))), constant) }

  function Rounds(s: State, n: nat): State
    requires n <= |ROUND_CONSTANTS|
  {
    if n == 0 then s else Round(Rounds(s, n - 1), ROUND_CONSTANTS[n - 1])
  }

  function Permute(s: State): State { Rounds(s, |ROUND_CONSTANTS|) }

  // ---- The step mappings in place --------------------------------------------------------------

  method ThetaInPlace(state: array<bv64>)
    requires state.Length == 25
    modifies state
    ensures state[..] == Theta(old(state[..]))
  {
    hide RotateLeft, Column, Delta, Theta, Xor;
    ghost var was: State := state[..];
    var deltas := Deltas(state);
    for y := 0 to 5
      invariant forall i | 0 <= i < 5 :: deltas[i] == Delta(was, i)
      invariant forall i | 0 <= i < 5 * y :: state[i] == Theta(was)[i]
      invariant forall i | 5 * y <= i < 25 :: state[i] == was[i]
    {
      for x := 0 to 5
        invariant forall i | 0 <= i < 5 :: deltas[i] == Delta(was, i)
        invariant forall i | 0 <= i < x + 5 * y :: state[i] == Theta(was)[i]
        invariant forall i | x + 5 * y <= i < 25 :: state[i] == was[i]
      {
        ThetaAt(was, x, y);
        state[x + 5 * y] := Xor(state[x + 5 * y], deltas[x]);
      }
    }
  }

  /** The parity of each column. */
  method Columns(state: array<bv64>) returns (columns: array<bv64>)
    requires state.Length == 25
    ensures fresh(columns) && columns.Length == 5 && forall x | 0 <= x < 5 :: columns[x] == Column(state[..], x)
  {
    hide Column, Xor;
    columns := new bv64[5](_ => 0);
    for x := 0 to 5
      invariant forall i | 0 <= i < x :: columns[i] == Column(state[..], i)
    {
      ColumnOf(state[..], x);
      columns[x] := Xor(Xor(Xor(Xor(state[x], state[x + 5]), state[x + 10]), state[x + 15]), state[x + 20]);
    }
  }

  /** What each column is changed by. */
  method Deltas(state: array<bv64>) returns (deltas: array<bv64>)
    requires state.Length == 25
    ensures fresh(deltas) && deltas.Length == 5 && forall x | 0 <= x < 5 :: deltas[x] == Delta(state[..], x)
  {
    hide RotateLeft, Column, Delta, Xor;
    var columns := Columns(state);
    deltas := new bv64[5](_ => 0);
    ghost var was: State := state[..];
    for x := 0 to 5
      invariant forall i | 0 <= i < 5 :: columns[i] == Column(was, i)
      invariant forall i | 0 <= i < x :: deltas[i] == Delta(was, i)
    {
      DeltaOf(was, x);
      deltas[x] := Xor(columns[(x + 4) % 5], RotateLeft(columns[(x + 1) % 5], 1));
    }
  }

  lemma ColumnOf(s: State, x: int)
    requires IsIndex(x)
    ensures Column(s, x) == Xor(Xor(Xor(Xor(s[x], s[x + 5]), s[x + 10]), s[x + 15]), s[x + 20])
  {
  }

  lemma DeltaOf(s: State, x: int)
    requires IsIndex(x)
    ensures Delta(s, x) == Xor(Column(s, (x + 4) % 5), RotateLeft(Column(s, (x + 1) % 5), 1))
  {
  }

  lemma ThetaAt(s: State, x: int, y: int)
    requires IsIndex(x) && IsIndex(y)
    ensures Theta(s)[x + 5 * y] == Xor(s[x + 5 * y], Delta(s, x))
  {
    hide Delta, Xor;
    Fifths(x, y);
  }

  lemma Fifths(x: int, y: int)
    requires IsIndex(x)
    ensures (x + 5 * y) % 5 == x && (x + 5 * y) / 5 == y
  {
  }

  /** The lane that lane (x, y) is moved to. */
  function MovedTo(x: int, y: int): (j: int)
    requires IsIndex(x) && IsIndex(y)
    ensures 0 <= j < 25
  {
    y + 5 * ((2 * x + 3 * y) % 5)
  }

  lemma PiForward(x: int, y: int)
    requires IsIndex(x) && IsIndex(y)
    ensures (y + 3 * ((2 * x + 3 * y) % 5)) % 5 == x
  {
  }

  lemma MovedToIsPi(x: int, y: int)
    requires IsIndex(x) && IsIndex(y)
    ensures PiSource(MovedTo(x, y)) == x + 5 * y
  {
    Fifths(y, (2 * x + 3 * y) % 5);
    PiForward(x, y);
  }

  lemma PiInverse(x: int, y: int)
    requires IsIndex(x) && IsIndex(y)
    ensures (2 * ((x + 3 * y) % 5) + 3 * x) % 5 == y
  {
  }

  lemma PiIsMovedTo(x: int, y: int)
    requires IsIndex(x) && IsIndex(y)
    ensures var k := (x + 3 * y) % 5; PiSource(x + 5 * y) == k + 5 * x && MovedTo(k, x) == x + 5 * y
  {
    Fifths(x, y);
    PiInverse(x, y);
  }

  method RhoPi(state: array<bv64>, moved: array<bv64>)
    requires state.Length == 25 && moved.Length == 25 && state != moved
    modifies moved
    ensures moved[..] == Pi(Rho(state[..]))
  {
    hide RotateLeft, PiSource, MovedTo, Rotation;
    ghost var was: State := state[..];
    for y := 0 to 5
      invariant state[..] == was
      invariant forall j | 0 <= j < 25 && PiSource(j) < 5 * y :: moved[j] == Rho(was)[PiSource(j)]
    {
      for x := 0 to 5
        invariant state[..] == was
        invariant forall j | 0 <= j < 25 && PiSource(j) < x + 5 * y :: moved[j] == Rho(was)[PiSource(j)]
      {
        MovedToIsPi(x, y);
        forall j | 0 <= j < 25 && PiSource(j) == x + 5 * y ensures j == MovedTo(x, y) { OnlySource(j, x, y); }
        moved[MovedTo(x, y)] := RotateLeft(state[x + 5 * y], Rotation(x + 5 * y));
      }
    }
  }

  lemma OnlySource(j: int, x: int, y: int)
    requires 0 <= j < 25 && IsIndex(x) && IsIndex(y) && PiSource(j) == x + 5 * y
    ensures j == MovedTo(x, y)
  {
    hide PiSource, MovedTo;
    var u, v := j % 5, j / 5;
    PiIsMovedTo(u, v);
    Fifths((u + 3 * v) % 5, u);
    Fifths(x, y);
  }

  method ChiInto(state: array<bv64>, moved: array<bv64>)
    requires state.Length == 25 && moved.Length == 25 && state != moved
    modifies state
    ensures moved[..] == old(moved[..]) && state[..] == Chi(moved[..])
  {
    hide Chi, Xor, AndNot;
    ghost var was: State := moved[..];
    for y := 0 to 5
      invariant forall i | 0 <= i < 25 :: moved[i] == was[i]
      invariant forall i | 0 <= i < 5 * y :: state[i] == Chi(was)[i]
    {
      for x := 0 to 5
        invariant forall i | 0 <= i < 25 :: moved[i] == was[i]
        invariant forall i | 0 <= i < x + 5 * y :: state[i] == Chi(was)[i]
      {
        ChiAt(was, x, y);
        state[x + 5 * y] := Xor(moved[x + 5 * y], AndNot(moved[(x + 1) % 5 + 5 * y], moved[(x + 2) % 5 + 5 * y]));
      }
    }
  }

  lemma ChiAt(s: State, x: int, y: int)
    requires IsIndex(x) && IsIndex(y)
    ensures Chi(s)[x + 5 * y] == Xor(s[x + 5 * y], AndNot(s[(x + 1) % 5 + 5 * y], s[(x + 2) % 5 + 5 * y]))
  {
    hide InRow, Xor, AndNot;
    RowOf(x, y);
  }

  lemma RowOf(x: int, y: int)
    requires IsIndex(x) && IsIndex(y)
    ensures InRow(x + 5 * y, 1) == (x + 1) % 5 + 5 * y && InRow(x + 5 * y, 2) == (x + 2) % 5 + 5 * y
  {
    Fifths(x, y);
  }

  /** One pass of the loop of `keccak_permute`. */
  method RoundInPlace(state: array<bv64>, constant: bv64)
    requires state.Length == 25
    modifies state
    ensures state[..] == Round(old(state[..]), constant)
  {
    hide Theta, Rho, Pi, Chi, Xor;
    var moved := new bv64[25](_ => 0);
    ThetaInPlace(state);
    RhoPi(state, moved);
    ChiInto(state, moved);
    ghost var mixed: State := state[..];
    state[0] := Xor(state[0], constant);
    assert state[..] == mixed[0 := Xor(mixed[0], constant)];
  }

  /** `keccak_permute`. */
  method KeccakPermute(state: array<bv64>)
    requires state.Length == 25
    modifies state
    ensures state[..] == Permute(old(state[..]))
  {
    hide Round, ROUND_CONSTANTS;
    ghost var was: State := state[..];
    for round := 0 to |ROUND_CONSTANTS|
      invariant state[..] == Rounds(was, round)
    {
      RoundInPlace(state, ROUND_CONSTANTS[round]);
    }
  }

  lemma ConstantCount()
    ensures |ROUND_CONSTANTS| == 24
  {
  }
}
