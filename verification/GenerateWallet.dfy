/**
 The `generate-wallet` command of native/src/main.cpp: every device searches its own 2^128 band of
 offsets, round after round, until some device finds a winner.
 */
module GenerateWallet {
  import opened Common
  import Digits
  import opened Base58Check
  import opened Patterns
  import opened Scalars
  import opened Wallet
  import opened Search

  const MAX_CHUNK: nat := 0x400_0000
  const UINT64_MAX: nat := 0xFFFF_FFFF_FFFF_FFFF

  /** A device's search session: what `search` answers for a start and a count. */
  type Sessions = (nat, string, nat) -> Option<SearchResult>

  /** How many offsets one round of a device covers: whole chains when there are at least four chunks of them. */
  function ChunkCount(perDevice: nat, chains: nat): (count: nat)
    requires 1 <= perDevice
    ensures 1 <= count <= perDevice
    ensures chains == 0 || perDevice < chains * 4 ==> count == perDevice
    ensures chains > 0 && perDevice >= chains * 4 ==> count % chains == 0 && perDevice - chains < count
  {
    if chains > 0 && perDevice < chains * 4 then perDevice
    else if chains > 0 then
      Digits.WholeMultiples(perDevice, chains);
      perDevice - perDevice % chains
    else perDevice
  }

  // ---- Ranges ----------------------------------------------------------------------------------

  /** Where device `d` starts its round `r`. */
  function RoundStart(d: nat, count: nat, r: nat): nat { d * BAND + 1 + r * count }

  predicate InBand(v: nat, d: nat) { d * BAND <= v < (d + 1) * BAND }

  /** The offsets device `d` has finished in round `r`. */
  predicate InRound(v: nat, d: nat, count: nat, r: nat) { RoundStart(d, count, r) <= v < RoundStart(d, count, r + 1) }

  /** Device d has advanced past all its rounds before `rounds` without leaving its band. */
  predicate Advanced(d: nat, count: nat, rounds: nat) {
    rounds > 0 ==> InBand(RoundStart(d, count, rounds), d)
  }

  lemma RoundsGrow(count: nat, r: nat, rr: nat)
    requires r <= rr
    ensures r * count <= rr * count
  {
    Digits.MulRight(r, rr, count);
  }

  lemma NextRound(d: nat, count: nat, r: nat)
    ensures RoundStart(d, count, r + 1) == RoundStart(d, count, r) + count
  {
    Digits.MulRight(r, r + 1, count);
    assert (r + 1) * count == r * count + count;
  }

  /** No offset is covered twice, whatever the devices and the finished rounds. */
  lemma FinishedRangesAreDisjoint(d: nat, count: nat, r: nat, dd: nat, counts: nat, rr: nat, rounds: nat, v: nat)
    requires r < rounds && rr < rounds && Advanced(d, count, rounds) && Advanced(dd, counts, rounds)
    requires d == dd ==> count == counts
    requires InRound(v, d, count, r) && InRound(v, dd, counts, rr)
    ensures d == dd && r == rr
  {
    FinishedRangeIsInBand(d, count, r, rounds, v);
    FinishedRangeIsInBand(dd, counts, rr, rounds, v);
    BandAbove(d, v, v);
    BandAbove(dd, v, v);
    if d == dd {
      if r < rr { RoundsGrow(count, r + 1, rr); }
      if rr < r { RoundsGrow(count, rr + 1, r); }
    }
  }

  lemma FinishedRangeIsInBand(d: nat, count: nat, r: nat, rounds: nat, v: nat)
    requires r < rounds && Advanced(d, count, rounds) && InRound(v, d, count, r)
    ensures InBand(v, d)
  {
    RoundsGrow(count, r + 1, rounds);
  }

  // ---- Sessions --------------------------------------------------------------------------------

  /** What the session of device `d` answers in round `r`. */
  function Answer(sessions: Sessions, counts: seq<nat>, r: nat, d: nat): Option<SearchResult>
    requires d < |counts| && Below256Bits(RoundStart(d, counts[d], r))
  {
    sessions(d, Hex64(RoundStart(d, counts[d], r)), counts[d])
  }

  ghost predicate RoundAnswered(sessions: Sessions, counts: seq<nat>, r: nat, results: seq<SearchResult>) {
    && |results| == |counts|
    && forall d | 0 <= d < |counts| ::
         Below256Bits(RoundStart(d, counts[d], r)) && Answer(sessions, counts, r, d) == Some(results[d])
  }

  /** Every device is asked for exactly the range it finishes with this round, in 64 digits. */
  lemma SessionsAreAsked(sessions: Sessions, counts: seq<nat>, r: nat, results: seq<SearchResult>, d: nat)
    requires RoundAnswered(sessions, counts, r, results) && d < |counts|
    ensures exists start: string | AllHex(start) && |start| == 64 ::
      && sessions(d, start, counts[d]) == Some(results[d])
      && HexNumber(start) == d * 0x1_0000_0000_0000_0000_0000_0000_0000_0000 + 1 + r * counts[d]
      && forall v: nat :: InRound(v, d, counts[d], r) <==> HexNumber(start) <= v < HexNumber(start) + counts[d]
  {
    hide Hex64, HexNumber, AllHex, Below256Bits;
    var start := Hex64(RoundStart(d, counts[d], r));
    HexNumberOfHex(RoundStart(d, counts[d], r));
    NextRound(d, counts[d], r);
  }

  ghost predicate SomeSessionFails(sessions: Sessions, counts: seq<nat>, r: nat) {
    exists d | 0 <= d < |counts| ::
      Below256Bits(RoundStart(d, counts[d], r)) && Answer(sessions, counts, r, d) == None
  }

  /** A session that keeps its word: a found offset lies in the range and its point matches. */
  ghost predicate Honest(points: Points, hash: Hash, key: nat, prefix: string, suffix: string, result: SearchResult)
    requires |prefix| <= 33 && |suffix| <= 34
  {
    result.found ==> exists o: nat :: (IsScalar(o) && HexOf(result.offsetHex, o)
      && IsWinner(points, hash, key, prefix, suffix, o) && result.address == Address(points, hash, Shifted(key, o)))
  }

  predicate HexOf(s: string, v: nat) { Below256Bits(v) && s == Hex64(v) }

  function SumOfAttempts(results: seq<SearchResult>): nat {
    if results == [] then 0 else SumOfAttempts(results[..|results| - 1]) + results[|results| - 1].attempts
  }

  lemma {:induction false} SumGrows(results: seq<SearchResult>, n: nat)
    requires n <= |results|
    ensures SumOfAttempts(results[..n]) <= SumOfAttempts(results)
  {
    if n == |results| {
      assert results[..n] == results;
    } else {
      var rest := results[..|results| - 1];
      SumGrows(rest, n);
      assert rest[..n] == results[..n];
    }
  }

  // ---- The winner of a round -------------------------------------------------------------------

  lemma {:induction false} TextLessIsStrict(s: string)
    ensures !TextLess(s, s)
  {
    if s != "" { TextLessIsStrict(s[1..]); }
  }

  lemma {:induction false} TextLessIsTransitive(s: string, t: string, u: string)
    requires TextLess(s, t) && TextLess(t, u)
    ensures TextLess(s, u)
  {
    if s != "" && s[0] == t[0] == u[0] { TextLessIsTransitive(s[1..], t[1..], u[1..]); }
  }

  /** The winner is a found result, and no found result of the round has a smaller offset text. */
  ghost predicate IsLeastWinner(results: seq<SearchResult>, winner: SearchResult) {
    if winner.found then
      && winner in results
      && forall i | 0 <= i < |results| && results[i].found :: !TextLess(results[i].offsetHex, winner.offsetHex)
    else NoneFound(results)
  }

  lemma BetterWinner(results: seq<SearchResult>, n: nat, winner: SearchResult)
    requires n < |results| && IsLeastWinner(results[..n], winner) && results[n].found
    ensures !winner.found || TextLess(results[n].offsetHex, winner.offsetHex)
      ==> IsLeastWinner(results[..n + 1], results[n])
    ensures winner.found && !TextLess(results[n].offsetHex, winner.offsetHex)
      ==> IsLeastWinner(results[..n + 1], winner)
  {
    hide TextLess;
    var before, after, next := results[..n], results[..n + 1], results[n];
    assert after == before + [next];
    TextLessIsStrict(next.offsetHex);
    if winner.found && TextLess(next.offsetHex, winner.offsetHex) {
      forall i | 0 <= i < n && before[i].found ensures !TextLess(before[i].offsetHex, next.offsetHex) {
        if TextLess(before[i].offsetHex, next.offsetHex) {
          TextLessIsTransitive(before[i].offsetHex, next.offsetHex, winner.offsetHex);
        }
      }
    }
  }

  lemma NoNewWinner(results: seq<SearchResult>, n: nat, winner: SearchResult)
    requires n < |results| && IsLeastWinner(results[..n], winner) && !results[n].found
    ensures IsLeastWinner(results[..n + 1], winner)
  {
    assert results[..n + 1] == results[..n] + [results[n]];
  }

  /** On 64-digit texts the least text is the least offset. */
  lemma LeastWinnerIsLeastOffset(results: seq<SearchResult>, winner: SearchResult, i: nat, v: nat, w: nat)
    requires IsLeastWinner(results, winner) && winner.found && i < |results| && results[i].found
    requires HexOf(results[i].offsetHex, v) && HexOf(winner.offsetHex, w)
    ensures w <= v
  {
    HexOrder(v, w);
  }

  const NO_WINNER := SearchResult(false, "", "", 0)

  /** The counting loop of a round; it refuses exactly the sums that do not fit 64 bits. */
  method CountRound(results: seq<SearchResult>, before: nat)
    returns (total: nat, winner: SearchResult, overflowed: bool)
    requires before <= UINT64_MAX
    ensures overflowed <==> before + SumOfAttempts(results) > UINT64_MAX
    ensures !overflowed ==> total == before + SumOfAttempts(results) && IsLeastWinner(results, winner)
  {
    hide TextLess, IsLeastWinner;
    total, winner, overflowed := before, NO_WINNER, false;
    NobodyYet(results);
    for device := 0 to |results|
      invariant total == before + SumOfAttempts(results[..device]) <= UINT64_MAX && !overflowed
      invariant IsLeastWinner(results[..device], winner)
    {
      var result := results[device];
      assert results[..device + 1][..device] == results[..device];
      if total > UINT64_MAX - result.attempts {
        SumGrows(results, device + 1);
        return total, winner, true;
      }
      total := total + result.attempts;
      if result.found {
        BetterWinner(results, device, winner);
      } else {
        NoNewWinner(results, device, winner);
      }
      if result.found && (!winner.found || TextLess(result.offsetHex, winner.offsetHex)) {
        winner := result;
      }
    }
    assert results[..|results|] == results;
  }

  lemma NobodyYet(results: seq<SearchResult>)
    ensures IsLeastWinner(results[..0], NO_WINNER)
  {
  }

  // ---- Rounds ----------------------------------------------------------------------------------

  datatype Outcome =
    | Generated(address: string, privateKey: string, attempts: nat)
    | BadPatternText | BadChunk | NoDevices | SearchFailed | CounterOverflow
    | RecoveryRefused | KeyMismatch | OffsetRefused | BandExhausted

  /** The text of every device's next offset after `r` whole rounds. */
  ghost predicate AtRound(offsets: seq<string>, counts: seq<nat>, r: nat) {
    && |offsets| == |counts|
    && forall d | 0 <= d < |counts| ::
         1 <= counts[d] <= MAX_CHUNK && InBand(RoundStart(d, counts[d], r), d)
           && HexOf(offsets[d], RoundStart(d, counts[d], r))
  }

  lemma BandFits(d: nat, v: nat)
    requires d <= 0x7FFF_FFFF && InBand(v, d)
    ensures v + MAX_CHUNK < SECP256K1_ORDER && v + MAX_CHUNK < BAND * BAND
    ensures Below256Bits(v) && Below256Bits(v + MAX_CHUNK)
  {
    Digits.MulRight(d + 1, 0x8000_0000, BAND);
    Limits();
    hide Digits.Pow;
  }

  /** The searches of one round. */
  method SearchRound(sessions: Sessions, offsets: array<string>, counts: seq<nat>, ghost r: nat)
    returns (results: seq<SearchResult>, failed: bool)
    requires |counts| <= 0x8000_0000 && AtRound(offsets[..], counts, r)
    ensures !failed ==> RoundAnswered(sessions, counts, r, results)
    ensures failed ==> SomeSessionFails(sessions, counts, r)
  {
    hide Below256Bits, Hex64, RoundStart, InBand;
    results, failed := [], false;
    for device := 0 to |counts|
      invariant |results| == device && (failed ==> SomeSessionFails(sessions, counts, r))
      invariant !failed ==> forall d | 0 <= d < device ::
        Below256Bits(RoundStart(d, counts[d], r)) && Answer(sessions, counts, r, d) == Some(results[d])
    {
      assert offsets[..][device] == offsets[device];
      var answer := sessions(device, offsets[device], counts[device]);
      match answer {
        case None => results, failed := results + [NO_WINNER], true;
        case Some(result) => results := results + [result];
      }
    }
  }

  /** Advancing one device: it never leaves the scalars, and leaving its band is noticed. */
  method AdvanceOne(offset: string, count: nat, device: nat, ghost r: nat)
    returns (next: string, exhausted: bool, refused: bool)
    requires device <= 0x7FFF_FFFF && 1 <= count <= MAX_CHUNK
    requires InBand(RoundStart(device, count, r), device) && HexOf(offset, RoundStart(device, count, r))
    ensures !refused
    ensures HexOf(next, RoundStart(device, count, r + 1))
    ensures exhausted <==> !InBand(RoundStart(device, count, r + 1), device)
  {
    hide Hex64, RoundStart, Below256Bits, DeviceBandStart, ParsedScalar;
    ghost var v := RoundStart(device, count, r);
    BandFits(device, v);
    BandAbove(device, v, v + count);
    ParseInvertsHex(v);
    NextRound(device, count, r);
    var sum := AddToOffset(offset, count);
    BandCheck(device, v + count);
    refused := sum == None;
    next := sum.value;
    exhausted := next[..32] != DeviceBandStart(device)[..32];
  }

  /** The comparison of the first 32 digits tells whether an offset is still in its device's band. */
  lemma BandCheck(device: nat, w: nat)
    requires device < BAND && w < BAND * BAND
    ensures Below256Bits(w)
    ensures Hex64(w)[..32] == DeviceBandStart(device)[..32] <==> w / BAND == device
  {
    hide Hex64, Below256Bits;
    BandStartValue(device);
    SameBandIff(w, device * BAND + 1);
    Digits.QuotientAndRest(BAND, device, 1);
  }

  lemma BandAbove(d: nat, v: nat, w: nat)
    requires InBand(v, d) && v <= w
    ensures InBand(w, d) <==> w / BAND == d
  {
    if InBand(w, d) { Digits.QuotientAndRest(BAND, d, w - d * BAND); }
  }

  method AdvanceAll(offsets: array<string>, counts: seq<nat>, ghost r: nat) returns (exhausted: bool, refused: bool)
    requires |counts| <= 0x8000_0000 && AtRound(offsets[..], counts, r)
    modifies offsets
    ensures !refused
    ensures !exhausted ==> AtRound(offsets[..], counts, r + 1)
    ensures exhausted ==> exists d | 0 <= d < |counts| :: !InBand(RoundStart(d, counts[d], r + 1), d)
  {
    hide HexOf, InBand, RoundStart;
    ghost var was := offsets[..];
    exhausted, refused := false, false;
    for device := 0 to |counts|
      invariant !exhausted && !refused
      invariant forall d | 0 <= d < device ::
        InBand(RoundStart(d, counts[d], r + 1), d) && HexOf(offsets[d], RoundStart(d, counts[d], r + 1))
      invariant forall d | device <= d < |counts| :: offsets[d] == was[d]
    {
      var next;
      next, exhausted, refused := AdvanceOne(offsets[device], counts[device], device, r);
      offsets[device] := next;
      if exhausted {
        return;
      }
    }
  }

  // ---- The command -----------------------------------------------------------------------------

  /** An honest winner's key is recovered and owns the address. */
  lemma HonestWinnerRecovers(points: Points, hash: Hash, key: nat, prefix: string, suffix: string, winner: SearchResult)
    requires IsScalar(key) && Below256Bits(key) && |prefix| <= 33 && |suffix| <= 34
    requires winner.found && Honest(points, hash, key, prefix, suffix, winner)
    ensures var recovered := NativeRecover(Hex64(key), winner.offsetHex);
      recovered.Some? && KeyOwns(points, hash, recovered.value, winner.address)
  {
    hide Address, NativeMatches, NativeRecover, Hex64, Below256Bits, ServerCombine, HexNumber, AllHex;
    var o: nat :| IsScalar(o) && HexOf(winner.offsetHex, o)
      && IsWinner(points, hash, key, prefix, suffix, o) && winner.address == Address(points, hash, Shifted(key, o));
    RecoveriesAgree(key, o);
    ShiftedIsZeroIff(key, o);
    HexNumberOfHex(Shifted(key, o));
  }

  /** With honest sessions the loop never ends in a refused recovery or a key mismatch. */
  lemma HonestSessionsHaveNoFalseWinner(points: Points, hash: Hash, key: nat, prefix: string, suffix: string,
                                        results: seq<SearchResult>)
    requires IsScalar(key) && Below256Bits(key) && |prefix| <= 33 && |suffix| <= 34
    requires forall i | 0 <= i < |results| :: Honest(points, hash, key, prefix, suffix, results[i])
    ensures !FalseWinner(points, hash, key, results)
  {
    hide Honest, NativeRecover, KeyOwns, Hex64, Below256Bits;
    forall winner: SearchResult | winner in results && winner.found
      ensures var recovered := NativeRecover(Hex64(key), winner.offsetHex);
        recovered.Some? && KeyOwns(points, hash, recovered.value, winner.address)
    {
      HonestWinnerRecovers(points, hash, key, prefix, suffix, winner);
    }
  }

  /** Whatever is recovered is the text of a private key. */
  lemma RecoveredIsScalar(key: nat, offset: string)
    requires IsScalar(key) && Below256Bits(key)
    ensures var recovered := NativeRecover(Hex64(key), offset);
      recovered.Some? ==> PrivateScalar(recovered.value).Some?
  {
    hide ParsedScalar, Digits.Pow, HexText, AllHex, HexNumber;
    Limits();
    HexNumberOfHex(key);
    if NativeRecover(Hex64(key), offset).Some? {
      HexNumberOfHex(Shifted(key, ParsedScalar(offset).value));
    }
  }

  /** Reading the final key back and comparing addresses. */
  method FinishWallet(points: Points, hash: Hash, key: nat, winner: SearchResult, attempts: nat)
    returns (outcome: Outcome)
    requires IsScalar(key) && Below256Bits(key)
    ensures outcome.Generated? || outcome == RecoveryRefused || outcome == KeyMismatch
    ensures outcome.Generated? <==>
      (var recovered := NativeRecover(Hex64(key), winner.offsetHex);
       recovered.Some? && KeyOwns(points, hash, recovered.value, winner.address))
    ensures outcome.Generated? ==>
      outcome == Generated(winner.address, NativeRecover(Hex64(key), winner.offsetHex).value, attempts)
    ensures outcome.RecoveryRefused? <==> NativeRecover(Hex64(key), winner.offsetHex) == None
  {
    RecoveredIsScalar(key, winner.offsetHex);
    hide Address, Hex64, Shifted, ParsedScalar;
    var recovered := NativeRecover(Hex64(key), winner.offsetHex);
    if recovered == None {
      return RecoveryRefused;
    }
    var scalar := PrivateScalar(recovered.value);
    if scalar == None {
      return RecoveryRefused;
    }
    var address := PointToAddress(points, hash, scalar.value);
    if address != winner.address {
      return KeyMismatch;
    }
    return Generated(address, recovered.value, attempts);
  }

  /** Every finished round was answered by every device and had no winner. */
  ghost predicate Fruitless(sessions: Sessions, counts: seq<nat>, history: seq<seq<SearchResult>>) {
    forall r | 0 <= r < |history| ::
      RoundAnswered(sessions, counts, r, history[r]) && NoneFound(history[r])
  }

  ghost predicate NoneFound(results: seq<SearchResult>) { forall i | 0 <= i < |results| :: !results[i].found }

  /** Some device reported a winner whose key cannot be recovered, or owns another address. */
  ghost predicate FalseWinner(points: Points, hash: Hash, key: nat, results: seq<SearchResult>)
    requires Below256Bits(key)
  {
    exists winner: SearchResult | winner in results :: (winner.found
      && !(NativeRecover(Hex64(key), winner.offsetHex).Some?
           && KeyOwns(points, hash, NativeRecover(Hex64(key), winner.offsetHex).value, winner.address)))
  }

  function TotalAttempts(history: seq<seq<SearchResult>>): nat {
    if history == [] then 0 else TotalAttempts(history[..|history| - 1]) + SumOfAttempts(history[|history| - 1])
  }

  /** The wallet comes from the least winner of the first round that has one, and counts every attempt. */
  ghost predicate IsWallet(sessions: Sessions, counts: seq<nat>, key: nat, points: Points, hash: Hash,
                           history: seq<seq<SearchResult>>, last: seq<SearchResult>, outcome: Outcome)
    requires Below256Bits(key) && outcome.Generated?
  {
    && Fruitless(sessions, counts, history) && RoundAnswered(sessions, counts, |history|, last)
    && outcome.attempts == TotalAttempts(history) + SumOfAttempts(last) <= UINT64_MAX
    && KeyOwns(points, hash, outcome.privateKey, outcome.address)
    && exists winner: SearchResult :: (winner.found && IsLeastWinner(last, winner) && winner.address == outcome.address
         && NativeRecover(Hex64(key), winner.offsetHex) == Some(outcome.privateKey))
  }

  /**
   How the rounds end, by what the sessions answer. `history` holds the rounds without a winner after which
   every device moved on within its band, `last` the answers of the next round unless a session failed in it.
   */
  ghost predicate RoundsEnd(sessions: Sessions, counts: seq<nat>, key: nat, points: Points, hash: Hash,
                            history: seq<seq<SearchResult>>, last: seq<SearchResult>, outcome: Outcome)
    requires Below256Bits(key)
  {
    var total := TotalAttempts(history) + SumOfAttempts(last);
    && Fruitless(sessions, counts, history) && StaysInBands(counts, |history|)
    && TotalAttempts(history) <= UINT64_MAX
    && (outcome.SearchFailed? <==> SomeSessionFails(sessions, counts, |history|))
    && (!outcome.SearchFailed? ==> RoundAnswered(sessions, counts, |history|, last))
    && (outcome.CounterOverflow? <==> !outcome.SearchFailed? && total > UINT64_MAX)
    && (outcome.BandExhausted? <==> !outcome.SearchFailed? && total <= UINT64_MAX && NoneFound(last))
    && (outcome.BandExhausted? ==>
          exists d | 0 <= d < |counts| :: !InBand(RoundStart(d, counts[d], |history| + 1), d))
    && (outcome.Generated? || outcome.RecoveryRefused? || outcome.KeyMismatch? ==>
          exists winner: SearchResult | winner.found && IsLeastWinner(last, winner) ::
            EndsWith(points, hash, key, winner, total, outcome))
    && (outcome.SearchFailed? || outcome.CounterOverflow? || outcome.BandExhausted?
        || outcome.Generated? || outcome.RecoveryRefused? || outcome.KeyMismatch?)
  }

  /** What a round's winner leads to. */
  ghost predicate EndsWith(points: Points, hash: Hash, key: nat, winner: SearchResult, total: nat, outcome: Outcome)
    requires Below256Bits(key)
  {
    var recovered := NativeRecover(Hex64(key), winner.offsetHex);
    if recovered.None? then outcome.RecoveryRefused?
    else if KeyOwns(points, hash, recovered.value, winner.address) then
      outcome == Generated(winner.address, recovered.value, total)
    else outcome.KeyMismatch?
  }

  lemma AnsweredRoundsDoNotFail(sessions: Sessions, counts: seq<nat>, r: nat, results: seq<SearchResult>)
    requires RoundAnswered(sessions, counts, r, results)
    ensures !SomeSessionFails(sessions, counts, r)
  {
    hide Below256Bits;
  }

  /** With honest sessions the generated address has the requested prefix and suffix. */
  lemma HonestWalletMatches(sessions: Sessions, counts: seq<nat>, key: nat, points: Points, hash: Hash, prefix: string,
                            suffix: string, history: seq<seq<SearchResult>>, last: seq<SearchResult>, outcome: Outcome)
    requires Below256Bits(key) && outcome.Generated? && |prefix| <= 33 && |suffix| <= 34
    requires IsWallet(sessions, counts, key, points, hash, history, last, outcome)
    requires forall i | 0 <= i < |last| :: Honest(points, hash, key, prefix, suffix, last[i])
    ensures NativeMatches(outcome.address, prefix, suffix)
  {
    hide NativeMatches, Address, NativeRecover, KeyOwns, Hex64, Below256Bits, Fruitless, RoundAnswered;
    var winner: SearchResult :| winner.found && IsLeastWinner(last, winner) && winner.address == outcome.address
      && NativeRecover(Hex64(key), winner.offsetHex) == Some(outcome.privateKey);
    assert Honest(points, hash, key, prefix, suffix, winner);
  }

  ghost predicate StaysInBands(counts: seq<nat>, rounds: nat) {
    forall d | 0 <= d < |counts| :: Advanced(d, counts[d], rounds)
  }

  ghost predicate ChunksChosen(perDevice: nat, chains: seq<nat>, counts: seq<nat>) {
    |counts| == |chains| && perDevice >= 1
      && forall d | 0 <= d < |chains| :: counts[d] == ChunkCount(perDevice, chains[d])
  }

  /** The chunk and the first offset of each device. */
  method Setup(perDevice: nat, chains: seq<nat>) returns (counts: seq<nat>, offsets: array<string>)
    requires 1 <= perDevice <= MAX_CHUNK && |chains| <= 0x8000_0000
    ensures fresh(offsets) && |counts| == |chains| && AtRound(offsets[..], counts, 0)
    ensures ChunksChosen(perDevice, chains, counts)
  {
    hide HexOf, InBand, RoundStart, DeviceBandStart;
    counts := [];
    offsets := new string[|chains|](_ => "");
    for device := 0 to |chains|
      invariant |counts| == device
      invariant forall d | 0 <= d < device :: counts[d] == ChunkCount(perDevice, chains[d])
      invariant forall d | 0 <= d < device ::
        InBand(RoundStart(d, counts[d], 0), d) && HexOf(offsets[d], RoundStart(d, counts[d], 0))
    {
      counts := counts + [ChunkCount(perDevice, chains[device])];
      FirstOffset(device, counts[device]);
      offsets[device] := DeviceBandStart(device);
    }
  }

  lemma FirstOffset(d: nat, count: nat)
    requires d < 0x8000_0000
    ensures InBand(RoundStart(d, count, 0), d) && HexOf(DeviceBandStart(d), RoundStart(d, count, 0))
  {
    hide DeviceBandStart, Hex64, Below256Bits;
    BandStartValue(d);
    assert 0 * count == 0;
  }

  /**
   The round loop. `rounds` is how often every device has advanced; `history` holds the finished rounds
   and `last` the round in which the loop ended.
   */
  method Rounds(points: Points, hash: Hash, key: nat, sessions: Sessions, offsets: array<string>, counts: seq<nat>)
    returns (outcome: Outcome, ghost history: seq<seq<SearchResult>>, ghost last: seq<SearchResult>)
    requires IsScalar(key) && Below256Bits(key) && 1 <= |counts| <= 0x8000_0000 && AtRound(offsets[..], counts, 0)
    modifies offsets
    ensures Fruitless(sessions, counts, history) && StaysInBands(counts, |history|)
    ensures outcome.Generated? ==> IsWallet(sessions, counts, key, points, hash, history, last, outcome)
    ensures outcome.SearchFailed? ==> SomeSessionFails(sessions, counts, |history|)
    ensures outcome.CounterOverflow? ==>
      RoundAnswered(sessions, counts, |history|, last) && TotalAttempts(history) + SumOfAttempts(last) > UINT64_MAX
    ensures outcome.BandExhausted? ==>
      exists d | 0 <= d < |counts| :: !InBand(RoundStart(d, counts[d], |history| + 1), d)
    ensures outcome.RecoveryRefused? || outcome.KeyMismatch? ==>
      RoundAnswered(sessions, counts, |history|, last) && FalseWinner(points, hash, key, last)
    ensures outcome !in {BadPatternText, BadChunk, NoDevices, OffsetRefused}
    ensures RoundsEnd(sessions, counts, key, points, hash, history, last, outcome)
  {
    hide RoundAnswered, IsLeastWinner, NativeRecover, KeyOwns, Hex64, HexOf, InBand, RoundStart, Below256Bits;
    var total := 0;
    history, last := [], [];
    NothingAdvanced(counts);
    while true
      invariant AtRound(offsets[..], counts, |history|)
      invariant Fruitless(sessions, counts, history) && StaysInBands(counts, |history|)
      invariant total == TotalAttempts(history) <= UINT64_MAX
      decreases BAND - |history|
    {
      FirstBandEnds(offsets[..], counts, |history|);
      var results, failed := SearchRound(sessions, offsets, counts, |history|);
      if failed {
        return SearchFailed, history, [];
      }
      last := results;
      AnsweredRoundsDoNotFail(sessions, counts, |history|, results);
      var winner, overflowed;
      total, winner, overflowed := CountRound(results, total);
      if overflowed {
        return CounterOverflow, history, last;
      }
      FoundInRound(results, winner);
      if winner.found {
        outcome := FinishWallet(points, hash, key, winner, total);
        return;
      }
      var exhausted, refused := AdvanceAll(offsets, counts, |history|);
      if refused {
        return OffsetRefused, history, last;
      }
      if exhausted {
        return BandExhausted, history, last;
      }
      OneRoundMore(sessions, counts, history, results, winner, total);
      history := history + [results];
      AllAdvanced(offsets[..], counts, |history|);
    }
  }

  lemma NothingAdvanced(counts: seq<nat>)
    ensures StaysInBands(counts, 0)
  {
  }

  /** Device 0 moves on at least one offset a round, so its band ends some time. */
  lemma FirstBandEnds(offsets: seq<string>, counts: seq<nat>, r: nat)
    requires counts != [] && AtRound(offsets, counts, r)
    ensures r < BAND
  {
    hide HexOf;
    assert InBand(RoundStart(0, counts[0], r), 0);
    Digits.MulLeft(r, 1, counts[0]);
  }

  lemma FoundInRound(results: seq<SearchResult>, winner: SearchResult)
    requires IsLeastWinner(results, winner)
    ensures winner.found ==> winner in results && !NoneFound(results)
    ensures !winner.found ==> NoneFound(results)
  {
  }

  lemma OneRoundMore(sessions: Sessions, counts: seq<nat>, history: seq<seq<SearchResult>>, results: seq<SearchResult>,
                     winner: SearchResult, total: nat)
    requires Fruitless(sessions, counts, history) && RoundAnswered(sessions, counts, |history|, results)
    requires IsLeastWinner(results, winner) && !winner.found && total == TotalAttempts(history) + SumOfAttempts(results)
    ensures Fruitless(sessions, counts, history + [results]) && TotalAttempts(history + [results]) == total
  {
    hide RoundAnswered, SumOfAttempts;
    assert (history + [results])[..|history|] == history;
  }

  lemma AllAdvanced(offsets: seq<string>, counts: seq<nat>, r: nat)
    requires AtRound(offsets, counts, r)
    ensures StaysInBands(counts, r)
  {
    hide InBand, HexOf;
  }

  predicate ChunkOk(chunk: Option<nat>) { chunk.Some? ==> 1 <= chunk.value <= MAX_CHUNK }

  /** `generate-wallet`, for the random base key `key`. */
  method Generate(points: Points, hash: Hash, key: nat, pattern: string, prefix: string, suffix: string,
                  chunk: Option<nat>, chains: seq<nat>, sessions: Sessions)
    returns (outcome: Outcome, counts: seq<nat>, ghost history: seq<seq<SearchResult>>, ghost last: seq<SearchResult>)
    requires IsScalar(key) && Below256Bits(key) && |chains| <= 0x8000_0000
    ensures outcome.BadPatternText? <==> !NativeAccepts(pattern, prefix, suffix)
    ensures outcome.BadChunk? <==> NativeAccepts(pattern, prefix, suffix) && !ChunkOk(chunk)
    ensures outcome.NoDevices? <==> NativeAccepts(pattern, prefix, suffix) && ChunkOk(chunk) && chains == []
    ensures !outcome.OffsetRefused?
    ensures Fruitless(sessions, counts, history) && StaysInBands(counts, |history|)
    ensures outcome.Generated? ==> IsWallet(sessions, counts, key, points, hash, history, last, outcome)
    ensures NativeAccepts(pattern, prefix, suffix) && ChunkOk(chunk) && chains != [] ==>
      && ChunksChosen(if chunk.Some? then chunk.value else MAX_CHUNK, chains, counts)
      && RoundsEnd(sessions, counts, key, points, hash, history, last, outcome)
  {
    hide RoundsEnd, RoundAnswered, NativeRecover, KeyOwns, Hex64, Below256Bits, NativeAccepts, AtRound, IsWallet;
    counts, history, last := [], [], [];
    NothingAdvanced([]);
    var check := ValidatePattern(pattern, prefix, suffix);
    if check != ValidPattern {
      outcome := BadPatternText;
      return;
    }
    var perDevice := if chunk.Some? then chunk.value else MAX_CHUNK;
    if perDevice == 0 || perDevice > MAX_CHUNK {
      outcome := BadChunk;
      return;
    }
    if |chains| < 1 {
      outcome := NoDevices;
      return;
    }
    var offsets;
    counts, offsets := Setup(perDevice, chains);
    outcome, history, last := Rounds(points, hash, key, sessions, offsets, counts);
  }
}
