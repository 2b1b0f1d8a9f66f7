/**
 The three Base58 encoders of the repository: the fixed-buffer conversion of native/src/tron.cpp and
 the division loops of backend/app/services/patterns.py and frontend/lib/wallet-crypto.ts.
 */
module Base58 {
  import opened Common
  import opened Digits

  type Byte = x: nat | x < 256

  /** The alphabet 1-9, A-H, J-N, P-Z, a-k, m-z: no zero, capital O, capital I or small l. */
  function Letter(d: nat): (c: char)
    requires d < 58
    ensures DigitOf(c) == Some(d)
  {
    if d < 9 then '1' + d as char
    else if d < 17 then 'A' + (d - 9) as char
    else if d < 22 then 'J' + (d - 17) as char
    else if d < 33 then 'P' + (d - 22) as char
    else if d < 44 then 'a' + (d - 33) as char
    else 'm' + (d - 44) as char
  }

  function DigitOf(c: char): (d: Option<nat>)
    ensures d.Some? ==> d.value < 58
  {
    if '1' <= c <= '9' then Some((c - '1') as nat)
    else if 'A' <= c <= 'H' then Some(9 + (c - 'A') as nat)
    else if 'J' <= c <= 'N' then Some(17 + (c - 'J') as nat)
    else if 'P' <= c <= 'Z' then Some(22 + (c - 'P') as nat)
    else if 'a' <= c <= 'k' then Some(33 + (c - 'a') as nat)
    else if 'm' <= c <= 'z' then Some(44 + (c - 'm') as nat)
    else None
  }

  const ALPHABET: string := "123456789" + "ABCDEFGH" + "JKLMN" + "PQRSTUVWXYZ" + "abcdefghijk" + "mnopqrstuvwxyz"

  lemma LettersAreTheAlphabet(d: nat)
    requires d < 58
    ensures |ALPHABET| == 58 && ALPHABET[d] == Letter(d)
  {
    assert forall i | 0 <= i < 9 :: "123456789"[i] == '1' + i as char;
    assert forall i | 0 <= i < 8 :: "ABCDEFGH"[i] == 'A' + i as char;
    assert forall i | 0 <= i < 5 :: "JKLMN"[i] == 'J' + i as char;
    assert forall i | 0 <= i < 11 :: "PQRSTUVWXYZ"[i] == 'P' + i as char;
    assert forall i | 0 <= i < 11 :: "abcdefghijk"[i] == 'a' + i as char;
    assert forall i | 0 <= i < 14 :: "mnopqrstuvwxyz"[i] == 'm' + i as char;
  }

  lemma LetterOfDigit(c: char)
    requires DigitOf(c).Some?
    ensures Letter(DigitOf(c).value) == c
  {
  }

  predicate IsBase58(s: string) { forall i | 0 <= i < |s| :: DigitOf(s[i]).Some? }

  function Letters(ds: seq<nat>): (s: string)
    requires AreDigits(58, ds)
    ensures |s| == |ds| && (forall i | 0 <= i < |ds| :: s[i] == Letter(ds[i])) && IsBase58(s)
  {
    seq(|ds|, i requires 0 <= i < |ds| => Letter(ds[i]))
  }

  function Ones(n: nat): string { seq(n, _ => '1') }

  /** One '1' per leading zero byte, then the Base58 digits of the big-endian number. */
  function Encode(input: seq<Byte>): string {
    var v := Value(256, input);
    ValueOfDigits(58, v);
    Ones(LeadingZeros(input)) + Letters(DigitsOf(58, v))
  }

  // ---- The buffer is long enough -------------------------------------------------------------

  function BufferSize(n: nat): nat { n * 138 / 100 + 1 }

  lemma PowStep(b: nat, e: nat, p: nat)
    requires e > 0 && Pow(b, e - 1) == p
    ensures Pow(b, e) == b * p
  {
  }

  lemma SmallPowers()
    ensures Pow(256, 1) == 256 && Pow(256, 2) == 65536 && Pow(256, 3) == 16777216 && Pow(256, 4) == 4294967296
    ensures Pow(256, 5) == 1099511627776 && Pow(256, 6) == 281474976710656 && Pow(256, 7) == 72057594037927936
    ensures Pow(256, 8) == 18446744073709551616
  {
    PowStep(256, 1, 1); PowStep(256, 2, 256); PowStep(256, 3, 65536); PowStep(256, 4, 16777216);
    PowStep(256, 5, 4294967296); PowStep(256, 6, 1099511627776); PowStep(256, 7, 281474976710656);
    PowStep(256, 8, 72057594037927936);
  }

  lemma SmallPowers58()
    ensures Pow(58, 1) == 58 && Pow(58, 2) == 3364 && Pow(58, 3) == 195112 && Pow(58, 5) == 656356768
    ensures Pow(58, 6) == 38068692544 && Pow(58, 7) == 2207984167552 && Pow(58, 9) == 7427658739644928
    ensures Pow(58, 10) == 430804206899405824 && Pow(58, 11) == 24986644000165537792
  {
    PowStep(58, 1, 1); PowStep(58, 2, 58); PowStep(58, 3, 3364); PowStep(58, 4, 195112);
    PowStep(58, 5, 11316496); PowStep(58, 6, 656356768); PowStep(58, 7, 38068692544);
    PowStep(58, 8, 2207984167552); PowStep(58, 9, 128063081718016); PowStep(58, 10, 7427658739644928);
    PowStep(58, 11, 430804206899405824);
  }

  /** 256^n < 58^BufferSize(n): eight bytes never need more than eleven digits. */
  lemma {:induction false} BufferFits(n: nat)
    ensures Pow(256, n) < Pow(58, BufferSize(n))
  {
    SmallPowers();
    SmallPowers58();
    if n >= 8 {
      BufferFits(n - 8);
      var small, size := Pow(256, n - 8), BufferSize(n - 8);
      PowAdd(256, 8, n - 8);
      PowAdd(58, 11, size);
      Scale(Pow(256, 8), small, Pow(58, 11), Pow(58, size));
      PowMono(58, 11 + size, BufferSize(n));
    } else {
      assert Pow(256, 0) == 1;
    }
  }

  lemma Scale(a: nat, x: nat, b: nat, y: nat)
    requires 0 < a < b && x < y
    ensures a * x < b * y
  {
    MulLeft(a, x + 1, y);
    MulRight(a, b, y);
    assert a * (x + 1) == a * x + a;
  }

  // ---- Native conversion ---------------------------------------------------------------------

  /**
   One step of the inner loop: the low digit of `hi` times 256 plus the carry goes to `lo`.
   */
  lemma CarryStep(hi: seq<nat>, d: nat, carry: nat, lo: seq<nat>, sum: nat)
    requires d < 58 && carry < 256 && sum == carry + 256 * d
    ensures sum / 58 < 256
    ensures (Value(58, hi) * 256 + sum / 58) * Pow(58, |lo| + 1) + Value(58, [sum % 58] + lo)
         == (Value(58, hi + [d]) * 256 + carry) * Pow(58, |lo|) + Value(58, lo)
  {
    hide Pow, Value;
    var p, q, r := Pow(58, |lo|), sum / 58, sum % 58;
    PowStep(58, |lo| + 1, p);
    ValueAppend(58, hi, d);
    ValuePrepend(58, r, lo);
    CarryArithmetic(Value(58, hi), Value(58, hi + [d]), d, carry, q, r, p, Pow(58, |lo| + 1), Value(58, lo),
      Value(58, [r] + lo));
  }

  lemma ValueAppend(b: nat, ds: seq<nat>, d: nat)
    ensures Value(b, ds + [d]) == Value(b, ds) * b + d
  {
    assert (ds + [d])[..|ds|] == ds;
  }

  lemma ValuePrepend(b: nat, d: nat, ds: seq<nat>)
    ensures Value(b, [d] + ds) == d * Pow(b, |ds|) + Value(b, ds)
  {
    ValueConcat(b, [d], ds);
    SingleDigit(b, d);
  }

  lemma CarryArithmetic(v: nat, w: nat, d: nat, carry: nat, q: nat, r: nat, p: nat, pp: nat, low: nat, x: nat)
    requires w == v * 58 + d && pp == 58 * p && x == r * p + low && q * 58 + r == carry + 256 * d
    ensures (v * 256 + q) * pp + x == (w * 256 + carry) * p + low
  {
    var n := v * 256 + q;
    assert n * 58 + r == w * 256 + carry;
    MulAssoc(n, 58, p);
    AddTimes(n * 58, r, p);
  }

  lemma SingleDigit(b: nat, d: nat)
    ensures Value(b, [d]) == d
  {
    assert [d][..0] == [];
  }

  lemma AddTimes(x: nat, y: nat, p: nat)
    ensures (x + y) * p == x * p + y * p
  {
  }

  predicate AllZero(ds: seq<nat>) { forall i | 0 <= i < |ds| :: ds[i] == 0 }

  lemma ValueOfAllZero(b: nat, ds: seq<nat>)
    requires AllZero(ds)
    ensures Value(b, ds) == 0
  {
    assert ds == Zeros(|ds|);
    ValueOfZeros(b, |ds|);
  }

  /** What holds inside the inner loop, with `ds` the buffer and `was` the buffer before this byte. */
  predicate Carrying(ds: seq<nat>, was: seq<nat>, length: nat, byte: nat, carry: nat, processed: nat) {
    && |ds| == |was| && length <= |ds| && processed <= |ds| && carry < 256
    && AreDigits(58, ds) && ds[..|ds| - processed] == was[..|ds| - processed]
    && (Value(58, ds[..|ds| - processed]) * 256 + carry) * Pow(58, processed) + Value(58, ds[|ds| - processed..])
       == Value(58, was) * 256 + byte
    && (carry == 0 && processed > length ==> ds[|ds| - processed] != 0)
    && (processed == length && length > 0 ==> carry != 0)
  }

  /** The buffer holds the number read so far, right-aligned, in `length` digits. */
  predicate Holding(ds: seq<nat>, length: nat, v: nat) {
    && length <= |ds| && AreDigits(58, ds) && AllZero(ds[..|ds| - length]) && Value(58, ds) == v
    && (length > 0 ==> ds[|ds| - length] != 0)
  }

  lemma StartCarrying(was: seq<nat>, length: nat, v: nat, byte: Byte)
    requires Holding(was, length, v)
    ensures Carrying(was, was, length, byte, byte, 0)
  {
    assert was[..|was| - 0] == was;
    assert was[|was| - 0..] == [];
  }

  lemma StartHolding(ds: seq<nat>, read: seq<Byte>)
    requires AllZero(ds) && AllZero(read)
    ensures Holding(ds, 0, Value(256, read))
  {
    ValueOfAllZero(58, ds);
    ValueOfAllZero(256, read);
    assert ds[..|ds| - 0] == ds;
  }

  lemma UpdateAt(ds: seq<nat>, at: nat, r: nat)
    requires at < |ds|
    ensures ds[..at + 1] == ds[..at] + [ds[at]]
    ensures ds[at := r][..at] == ds[..at] && ds[at := r][at..] == [r] + ds[at + 1..]
  {
  }

  lemma StillDigits(ds: seq<nat>, at: nat, r: nat)
    requires AreDigits(58, ds) && at < |ds| && r < 58
    ensures AreDigits(58, ds[at := r]) && ds[at] < 58
  {
  }

  /** Above the digits in use there are only zeros, so what is written there first is the carry. */
  lemma UntouchedDigit(ds: seq<nat>, was: seq<nat>, length: nat, at: nat)
    requires |ds| == |was| && at < |ds| && ds[..at + 1] == was[..at + 1] && length <= |was|
    requires AllZero(was[..|was| - length])
    requires length > 0 ==> was[|was| - length] != 0
    ensures at < |was| - length ==> ds[at] == 0
    ensures at == |was| - length ==> ds[at] != 0
  {
    assert ds[at] == ds[..at + 1][at] == was[at];
    if at < |was| - length { assert was[at] == was[..|was| - length][at]; }
  }

  lemma SmallSum(carry: nat, d: nat)
    requires carry < 256
    ensures d == 0 && carry != 0 && (carry + 256 * d) / 58 == 0 ==> (carry + 256 * d) % 58 != 0
    ensures d != 0 ==> (carry + 256 * d) / 58 != 0
  {
  }

  lemma KeepCarrying(ds: seq<nat>, was: seq<nat>, length: nat, byte: nat, carry: nat, processed: nat, v: nat)
    requires Holding(was, length, v) && Carrying(ds, was, length, byte, carry, processed)
    requires (carry != 0 || processed < length) && processed < |ds|
    ensures var at := |ds| - 1 - processed;
      var sum := carry + 256 * ds[at];
      Carrying(ds[at := sum % 58], was, length, byte, sum / 58, processed + 1)
      && ds[at] < 58
  {
    hide Pow, Value, AreDigits, AllZero;
    var at := |ds| - 1 - processed;
    var d := ds[at];
    var sum := carry + 256 * d;
    var hi, lo := ds[..at], ds[at + 1..];
    StillDigits(ds, at, sum % 58);
    UpdateAt(ds, at, sum % 58);
    UpdateAt(was, at, 0);
    assert ds[..at + 1] == was[..at + 1];
    assert hi == was[..at];
    UntouchedDigit(ds, was, length, at);
    SmallSum(carry, d);
    CarryStep(hi, d, carry, lo, sum);
  }

  /** Once the inner loop stops nothing is carried: the number read so far fits the whole buffer. */
  lemma NothingCarried(ds: seq<nat>, was: seq<nat>, length: nat, byte: nat, carry: nat, processed: nat, v: nat)
    requires Holding(was, length, v) && Carrying(ds, was, length, byte, carry, processed)
    requires !((carry != 0 || processed < length) && processed < |ds|)
    requires v * 256 + byte < Pow(58, |ds|)
    ensures carry == 0 && length <= processed <= |ds|
    ensures Value(58, ds[|ds| - processed..]) == v * 256 + byte && AllZero(ds[..|ds| - processed])
  {
    hide Pow, Value, AreDigits;
    var hi, lo, p := ds[..|ds| - processed], ds[|ds| - processed..], Pow(58, processed);
    var h, low := Value(58, hi), Value(58, lo);
    HighPartIsZero(hi, was, length);
    ValueOfAllZero(58, hi);
    assert (h * 256 + carry) * p + low == v * 256 + byte && h == 0;
    NoCarry(carry, p, low, processed == |ds|);
  }

  lemma NoCarry(carry: nat, p: nat, low: nat, full: bool)
    requires full ==> (0 * 256 + carry) * p + low < p
    requires !full ==> carry == 0
    ensures carry == 0 && (0 * 256 + carry) * p + low == low
  {
    if carry >= 1 { MulRight(1, carry, p); }
  }

  lemma DoneCarrying(ds: seq<nat>, was: seq<nat>, length: nat, byte: nat, carry: nat, processed: nat, v: nat)
    requires Holding(was, length, v) && Carrying(ds, was, length, byte, carry, processed)
    requires !((carry != 0 || processed < length) && processed < |ds|)
    requires v * 256 + byte < Pow(58, |ds|)
    ensures carry == 0 && processed <= |ds| && Holding(ds, processed, v * 256 + byte)
  {
    hide Value;
    NothingCarried(ds, was, length, byte, carry, processed, v);
    var hi := ds[..|ds| - processed];
    assert ds == hi + ds[|ds| - processed..];
    ValueAfterZeros(58, hi, ds[|ds| - processed..]);
  }

  lemma ValueAfterZeros(b: nat, hi: seq<nat>, lo: seq<nat>)
    requires AllZero(hi)
    ensures Value(b, hi + lo) == Value(b, lo)
  {
    assert hi == Zeros(|hi|);
    ValueIgnoresLeadingZeros(b, |hi|, lo);
  }

  lemma HighPartIsZero(hi: seq<nat>, was: seq<nat>, length: nat)
    requires |hi| + length <= |was| && hi == was[..|hi|] && AllZero(was[..|was| - length])
    ensures AllZero(hi)
  {
    forall i | 0 <= i < |hi| ensures hi[i] == 0 { assert hi[i] == was[..|was| - length][i]; }
  }

  /** The inner loop: the buffer's number times 256, plus one byte. */
  method AddByte(digits: array<Byte>, length: nat, byte: Byte, ghost v: nat) returns (processed: nat, carry: nat)
    requires Holding(digits[..], length, v) && v * 256 + byte < Pow(58, digits.Length)
    modifies digits
    ensures carry == 0 && Holding(digits[..], processed, v * 256 + byte)
  {
    hide Holding, Carrying, Pow;
    ghost var was: seq<nat> := digits[..];
    carry := byte;
    processed := 0;
    StartCarrying(was, length, v, byte);
    while (carry != 0 || processed < length) && processed < digits.Length
      invariant processed <= digits.Length
      invariant Carrying(digits[..], was, length, byte, carry, processed)
      decreases digits.Length - processed
    {
      KeepCarrying(digits[..], was, length, byte, carry, processed, v);
      ghost var before: seq<nat> := digits[..];
      var at := digits.Length - 1 - processed;
      var digit: nat := digits[at];
      carry := carry + 256 * digit;
      digits[at] := carry % 58;
      assert digits[..] == before[at := carry % 58];
      carry := carry / 58;
      processed := processed + 1;
    }
    DoneCarrying(digits[..], was, length, byte, carry, processed, v);
  }

  lemma HeldInBuffer(ds: seq<nat>, length: nat, v: nat)
    requires Holding(ds, length, v)
    ensures length <= |ds|
  {
  }

  /** `base58_encode` of tron.cpp: it never overflows its buffer and returns the canonical encoding. */
  method NativeEncode(input: seq<Byte>) returns (encoded: string, overflowed: bool)
    ensures !overflowed
    ensures encoded == Encode(input)
  {
    hide Holding, DigitsOf, Value, Letters, BufferSize, Pow;
    overflowed := false;
    var zeroes := 0;
    while zeroes < |input| && input[zeroes] == 0
      invariant zeroes <= |input| && forall i | 0 <= i < zeroes :: input[i] == 0
    {
      zeroes := zeroes + 1;
    }
    assert LeadingZeros(input) == zeroes;
    var size := BufferSize(|input| - zeroes);
    var digits := new Byte[size](_ => 0);
    var length := 0;
    StartHolding(digits[..], input[..zeroes]);
    var next := zeroes;
    while next < |input|
      invariant zeroes <= next <= |input|
      invariant Holding(digits[..], length, Value(256, input[..next]))
      invariant !overflowed
    {
      NumberFits(input, zeroes, next);
      var carry;
      length, carry := AddByte(digits, length, input[next], Value(256, input[..next]));
      if carry != 0 {
        overflowed := true;
      }
      next := next + 1;
    }
    assert input[..|input|] == input;
    HeldInBuffer(digits[..], length, Value(256, input));
    CanonicalSuffix(digits[..], length, Value(256, input));
    encoded := LettersOf(digits, size - length);
    assert digits[size - length..] == digits[..][size - length..];
    encoded := Ones(zeroes) + encoded;
  }

  /** The closing loop of `base58_encode`: the letters of the digits from `first` on. */
  method LettersOf(digits: array<Byte>, first: nat) returns (encoded: string)
    requires first <= digits.Length && AreDigits(58, digits[first..])
    ensures encoded == Letters(digits[first..])
  {
    hide Letter;
    encoded := "";
    var digit := first;
    while digit < digits.Length
      invariant first <= digit <= digits.Length && |encoded| == digit - first
      invariant forall i | 0 <= i < |encoded| :: encoded[i] == Letter(digits[first..][i])
    {
      assert digits[digit] == digits[first..][digit - first];
      encoded := encoded + [Letter(digits[digit])];
      digit := digit + 1;
    }
  }

  /** The bytes read so far stay below what the whole buffer can hold. */
  lemma NumberFits(input: seq<Byte>, zeroes: nat, next: nat)
    requires zeroes <= next < |input| && forall i | 0 <= i < zeroes :: input[i] == 0
    ensures Value(256, input[..next]) * 256 + input[next] < Pow(58, BufferSize(|input| - zeroes))
    ensures Value(256, input[..next + 1]) == Value(256, input[..next]) * 256 + input[next]
  {
    var read := input[zeroes..next + 1];
    assert input[..next + 1] == Zeros(zeroes) + read;
    assert input[..next + 1][..next] == input[..next];
    ValueIgnoresLeadingZeros(256, zeroes, read);
    ValueBelow(256, read);
    PowMono(256, |read|, |input| - zeroes);
    BufferFits(|input| - zeroes);
  }

  lemma CanonicalSuffix(ds: seq<nat>, length: nat, v: nat)
    requires Holding(ds, length, v)
    ensures length <= |ds| && AreDigits(58, ds) && ds[|ds| - length..] == DigitsOf(58, v)
  {
    var lo := ds[|ds| - length..];
    assert ds[..|ds| - length] == Zeros(|ds| - length);
    assert ds == Zeros(|ds| - length) + lo;
    ValueIgnoresLeadingZeros(58, |ds| - length, lo);
    DigitsOfValue(58, lo);
  }

  // ---- Division loops ------------------------------------------------------------------------

  lemma OneLetterMore(d: nat, done: seq<nat>)
    requires d < 58 && AreDigits(58, done)
    ensures AreDigits(58, [d] + done) && Letters([d] + done) == [Letter(d)] + Letters(done)
  {
    hide Letter;
    assert forall i | 0 <= i < |done| :: ([d] + done)[i + 1] == done[i];
  }

  lemma OneDigitWritten(rest: nat, done: seq<nat>, all: seq<nat>)
    requires rest > 0 && DigitsOf(58, rest) + done == all
    ensures rest / 58 < rest && DigitsOf(58, rest / 58) + ([rest % 58] + done) == all
  {
    LastDigit(58, rest);
    hide DigitsOf;
    assert DigitsOf(58, rest / 58) + ([rest % 58] + done) == DigitsOf(58, rest / 58) + [rest % 58] + done;
  }

  /** The `divmod` loop shared by the Python and TypeScript encoders. */
  method DivisionLoop(value: nat) returns (encoded: string)
    ensures AreDigits(58, DigitsOf(58, value)) && encoded == Letters(DigitsOf(58, value))
  {
    NoDigitsMeansZero(58, 0);
    hide DigitsOf, Letters, Letter;
    ValueOfDigits(58, value);
    encoded := "";
    var rest := value;
    ghost var done: seq<nat> := [];
    NoLetters();
    while rest != 0
      invariant AreDigits(58, done) && encoded == Letters(done)
      invariant DigitsOf(58, rest) + done == DigitsOf(58, value)
      decreases rest
    {
      OneDigitWritten(rest, done, DigitsOf(58, value));
      var remainder := rest % 58;
      OneLetterMore(remainder, done);
      done := [remainder] + done;
      rest := rest / 58;
      encoded := [Letter(remainder)] + encoded;
    }
    assert done == DigitsOf(58, value);
  }

  lemma NoLetters()
    ensures Letters([]) == ""
  {
  }

  /** The encoding half of `base58check_encode` in patterns.py. */
  method PythonEncode(input: seq<Byte>) returns (encoded: string)
    ensures encoded == Encode(input)
  {
    hide DigitsOf, Value, Letters;
    encoded := DivisionLoop(Value(256, input));
    var leading := LeadingZeros(input);
    encoded := Ones(leading) + encoded;
  }

  /** `base58Encode` of wallet-crypto.ts; an empty array has no hexadecimal literal to parse. */
  method TypeScriptEncode(input: seq<Byte>) returns (encoded: string)
    requires input != []
    ensures encoded == Encode(input)
  {
    hide DigitsOf, Value, Letters;
    encoded := DivisionLoop(Value(256, input));
    ghost var digits := encoded;
    var i := 0;
    while i < |input| && input[i] == 0
      invariant i <= |input| && (forall k | 0 <= k < i :: input[k] == 0)
      invariant encoded == Ones(i) + digits
    {
      assert Ones(i + 1) == "1" + Ones(i);
      encoded := "1" + encoded;
      i := i + 1;
    }
    assert LeadingZeros(input) == i;
  }
}
