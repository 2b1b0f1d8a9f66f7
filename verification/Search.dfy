/** The reference search of native/src/tron.cpp: one point addition per offset. */
module Search {
  import opened Common
  import opened Base58Check
  import opened Patterns
  import opened Scalars
  import opened Wallet

  datatype SearchRequest = SearchRequest(pattern: string, prefix: string, suffix: string, rangeStart: string,
      rangeCount: nat)

  datatype SearchResult = SearchResult(found: bool, address: string, offsetHex: string, attempts: nat)

  datatype SearchOutcome = Searched(result: SearchResult) | BadPattern | EmptyRange | BadStart | RangeTooLong

  /** The ranges a search accepts: at least one offset, all of them between 1 and the order. */
  predicate RangeOk(request: SearchRequest) {
    && request.rangeCount >= 1
    && var start := ParsedScalar(request.rangeStart);
       start.Some? && 1 <= start.value && start.value + request.rangeCount - 1 < SECP256K1_ORDER
  }

  predicate RequestOk(request: SearchRequest) {
    NativeAccepts(request.pattern, request.prefix, request.suffix) && RangeOk(request)
  }

  ghost predicate NoWinnerBefore(points: Points, hash: Hash, key: nat, request: SearchRequest, start: nat, n: nat)
    requires |request.prefix| <= 33 && |request.suffix| <= 34
  {
    forall o: nat | start <= o < start + n :: !IsWinner(points, hash, key, request.prefix, request.suffix, o)
  }

  /** The least matching offset with its exact place, or the knowledge that there is none. */
  ghost predicate IsSearchResult(points: Points, hash: Hash, key: nat, request: SearchRequest, start: nat,
      result: SearchResult)
    requires |request.prefix| <= 33 && |request.suffix| <= 34
  {
    if result.found then
      && 1 <= result.attempts <= request.rangeCount
      && NoWinnerBefore(points, hash, key, request, start, result.attempts - 1)
      && var offset := start + result.attempts - 1;
         && IsWinner(points, hash, key, request.prefix, request.suffix, offset)
         && result.address == Address(points, hash, Shifted(key, offset))
         && Below256Bits(offset) && result.offsetHex == Hex64(offset)
    else
      result.attempts == request.rangeCount && NoWinnerBefore(points, hash, key, request, start, request.rangeCount)
  }

  lemma NextPoint(key: nat, offset: nat)
    ensures (Shifted(key, offset) + 1) % SECP256K1_ORDER == Shifted(key, offset + 1)
  {
  }

  /** `search_cpu`, over the scalar `key` of the public point. */
  method SearchCpu(points: Points, hash: Hash, key: nat, request: SearchRequest) returns (outcome: SearchOutcome)
    requires IsScalar(key)
    ensures outcome.Searched? <==> RequestOk(request)
    ensures outcome.BadPattern? <==> !NativeAccepts(request.pattern, request.prefix, request.suffix)
    ensures outcome.EmptyRange? <==> !outcome.BadPattern? && request.rangeCount == 0
    ensures outcome.BadStart? <==>
      !outcome.BadPattern? && !outcome.EmptyRange? && (ParsedScalar(request.rangeStart).None?
                                                       || ParsedScalar(request.rangeStart).value < 1)
    ensures outcome.Searched? ==>
      && |request.prefix| <= 33 && |request.suffix| <= 34
      && IsSearchResult(points, hash, key, request, ParsedScalar(request.rangeStart).value, outcome.result)
  {
    hide Address, NativeMatches, NativeAccepts, ParsedScalar, Hex64, Shifted;
    var check := ValidatePattern(request.pattern, request.prefix, request.suffix);
    if check != ValidPattern {
      return BadPattern;
    }
    AcceptedLengths(request.pattern, request.prefix, request.suffix);
    if request.rangeCount == 0 {
      return EmptyRange;
    }
    var start := ParseRangeStart(request.rangeStart);
    if start == None || start.value <= 0 {
      return BadStart;
    }
    if start.value + (request.rangeCount - 1) >= SECP256K1_ORDER {
      return RangeTooLong;
    }
    var result := SearchRange(points, hash, key, request, start.value);
    return Searched(result);
  }

  /** The loop of `search_cpu`. */
  method SearchRange(points: Points, hash: Hash, key: nat, request: SearchRequest, start: nat)
    returns (result: SearchResult)
    requires |request.prefix| <= 33 && |request.suffix| <= 34
    requires 1 <= start && 1 <= request.rangeCount && start + request.rangeCount - 1 < SECP256K1_ORDER
    ensures IsSearchResult(points, hash, key, request, start, result)
  {
    hide Address, NativeMatches, Hex64, Shifted;
    ShiftedIs(key, start);
    var current := (start + key) % SECP256K1_ORDER;
    for index := 0 to request.rangeCount
      invariant index < request.rangeCount ==> current == Shifted(key, start + index)
      invariant NoWinnerBefore(points, hash, key, request, start, index)
    {
      if current != 0 {
        var address := PointToAddress(points, hash, current);
        var matches := MatchesPattern(address, request.prefix, request.suffix);
        if matches {
          Limits();
          var offset := ScalarToHex(start + index);
          return SearchResult(true, address, offset.value, index + 1);
        }
      }
      if index + 1 < request.rangeCount {
        NextPoint(key, start + index);
        current := (current + 1) % SECP256K1_ORDER;
      }
    }
    return SearchResult(false, "", "", request.rangeCount);
  }

  lemma ShiftedIs(key: nat, offset: nat)
    ensures (offset + key) % SECP256K1_ORDER == Shifted(key, offset)
  {
  }

  /** A found offset is a scalar, so the server verifies it and recovers a key that owns the address. */
  lemma FoundIsVerified(points: Points, hash: Hash, key: nat, request: SearchRequest, result: SearchResult)
    requires IsScalar(key) && RequestOk(request) && |request.prefix| <= 33 && |request.suffix| <= 34
    requires result.found && IsSearchResult(points, hash, key, request, ParsedScalar(request.rangeStart).value, result)
    ensures OffsetAccepted(result.offsetHex)
    ensures Below256Bits(key) && AllHex(Hex64(key))
    ensures VerifyCandidate(points, hash, key, HexNumber(result.offsetHex), result.address,
                            CompileMatchSpec("T" + request.prefix, request.suffix)) == Verified(result.address)
    ensures var combined := ServerCombine(Hex64(key), result.offsetHex);
      combined.Some? && KeyOwns(points, hash, combined.value, result.address)
      && NativeRecover(Hex64(key), result.offsetHex) == combined
  {
    hide Address, NativeAccepts, NoWinnerBefore, Hex64, Shifted, IsWinner, ParsedScalar, AllHex, HexNumber,
      VerifyCandidate, ServerCombine, KeyOwns, CompileMatchSpec, NativeRecover;
    var offset := ParsedScalar(request.rangeStart).value + result.attempts - 1;
    HexNumberOfHex(offset);
    WinnerIsVerified(points, hash, key, request.pattern, request.prefix, request.suffix, offset);
    RecoveriesAgree(key, offset);
  }
}
