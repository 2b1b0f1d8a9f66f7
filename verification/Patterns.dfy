/**
 The two pattern matchers and the two pattern validators: native/src/tron.cpp runs on the GPU host,
 backend/app/services/patterns.py and backend/app/schemas.py on the server.
 */
module Patterns {
  import opened Common
  import opened Base58
  import opened Base58Check
  import opened TronAddress

  predicate IsUpper(c: char) { 'A' <= c <= 'Z' }
  predicate IsLower(c: char) { 'a' <= c <= 'z' }
  predicate IsAlpha(c: char) { IsUpper(c) || IsLower(c) }

  function ToLower(c: char): char { if IsUpper(c) then c - 'A' + 'a' else c }

  function SwapCase(c: char): char {
    if IsUpper(c) then c - 'A' + 'a' else if IsLower(c) then c - 'a' + 'A' else c
  }

  // ---- Native matcher --------------------------------------------------------------------------

  predicate LooseEqual(x: char, y: char) { x == y || (IsAlpha(x) && IsAlpha(y) && ToLower(x) == ToLower(y)) }

  /** Loose equality is equality up to the case of letters. */
  lemma LooseIsCaseless(x: char, y: char)
    ensures LooseEqual(x, y) <==> x == y || (IsAlpha(x) && y == SwapCase(x))
    ensures LooseEqual(x, y) <==> LooseEqual(y, x)
  {
  }

  predicate PrefixCharMatches(address: string, prefix: string, i: nat)
    requires i < |prefix| && i + 1 < |address|
  {
    if i == 0 then address[1] == prefix[0] else LooseEqual(address[i + 1], prefix[i])
  }

  /** What `matches_pattern` promises: T, then the prefix (first letter exact), and the suffix at the end. */
  predicate NativeMatches(address: string, prefix: string, suffix: string)
    requires |prefix| <= 33 && |suffix| <= 34
  {
    && |address| == 34 && address[0] == 'T'
    && (forall i | 0 <= i < |prefix| :: PrefixCharMatches(address, prefix, i))
    && (forall i | 0 <= i < |suffix| :: LooseEqual(address[34 - |suffix| + i], suffix[i]))
  }

  /** `matches_pattern`. The bounds are those its unchecked indexing needs. */
  method MatchesPattern(address: string, prefix: string, suffix: string) returns (matches: bool)
    requires |prefix| <= 33 && |suffix| <= 34
    ensures matches == NativeMatches(address, prefix, suffix)
  {
    if |address| != 34 || address[0] != 'T' {
      return false;
    }
    for index := 0 to |prefix|
      invariant forall i | 0 <= i < index :: PrefixCharMatches(address, prefix, i)
    {
      var same := if index == 0 then address[index + 1] == prefix[index]
        else LooseEqual(address[index + 1], prefix[index]);
      if !same {
        assert !PrefixCharMatches(address, prefix, index);
        return false;
      }
    }
    var suffixStart := |address| - |suffix|;
    for index := 0 to |suffix|
      invariant forall i | 0 <= i < index :: LooseEqual(address[suffixStart + i], suffix[i])
    {
      if !LooseEqual(address[suffixStart + index], suffix[index]) {
        assert address[34 - |suffix| + index] == address[suffixStart + index];
        return false;
      }
    }
    return true;
  }

  // ---- Server matcher --------------------------------------------------------------------------

  datatype MatchSpec = MatchSpec(prefix: seq<seq<char>>, suffix: seq<seq<char>>)

  /** `character_options`. */
  function CharacterOptions(c: char, exact: bool): seq<char> {
    if exact || !IsAlpha(c) then [c]
    else if DigitOf(SwapCase(c)).Some? then [c, SwapCase(c)]
    else [c]
  }

  /** `compile_match_spec`: positions 0 and 1 of the prefix are exact. */
  function CompileMatchSpec(prefix: string, suffix: string): MatchSpec {
    MatchSpec(seq(|prefix|, i requires 0 <= i < |prefix| => CharacterOptions(prefix[i], i <= 1)),
              seq(|suffix|, i requires 0 <= i < |suffix| => CharacterOptions(suffix[i], false)))
  }

  /** `address_matches_spec`. */
  predicate AddressMatchesSpec(address: string, spec: MatchSpec) {
    && |address| >= |spec.prefix| + |spec.suffix|
    && (forall i | 0 <= i < |spec.prefix| :: address[i] in spec.prefix[i])
    && (forall i | 0 <= i < |spec.suffix| :: address[|address| - |spec.suffix| + i] in spec.suffix[i])
  }

  // ---- They agree ------------------------------------------------------------------------------

  /**
   On Base58 text the server's option lists are the native comparison: the letters whose other case
   is missing from the alphabet (o, i, L) cannot meet it in an address.
   */
  lemma OptionsAreLooseEqual(x: char, c: char)
    requires DigitOf(x).Some? && DigitOf(c).Some?
    ensures x in CharacterOptions(c, false) <==> LooseEqual(x, c)
    ensures x in CharacterOptions(c, true) <==> x == c
  {
  }

  lemma PrefixesAgree(address: string, prefix: string, i: nat)
    requires IsBase58(address) && IsBase58(prefix) && i < |prefix| && i + 1 < |address|
    ensures address[i + 1] in CharacterOptions(("T" + prefix)[i + 1], i + 1 <= 1)
      <==> PrefixCharMatches(address, prefix, i)
  {
    hide CharacterOptions, LooseEqual, DigitOf;
    OptionsAreLooseEqual(address[i + 1], prefix[i]);
  }

  /** The native prefix starts after the fixed T; the server's includes it. */
  lemma PrefixListsAgree(address: string, prefix: string)
    requires IsBase58(address) && IsBase58(prefix) && |prefix| < |address|
    ensures var spec := CompileMatchSpec("T" + prefix, "").prefix;
      (forall i | 0 <= i < |spec| :: address[i] in spec[i])
      <==> address[0] == 'T' && forall i | 0 <= i < |prefix| :: PrefixCharMatches(address, prefix, i)
  {
    hide CharacterOptions, PrefixCharMatches, DigitOf;
    var spec := CompileMatchSpec("T" + prefix, "").prefix;
    assert spec[0] == CharacterOptions('T', true);
    OptionsAreLooseEqual(address[0], 'T') by { KnownLetter(); }
    forall i | 0 <= i < |prefix|
      ensures address[i + 1] in spec[i + 1] <==> PrefixCharMatches(address, prefix, i)
    {
      PrefixesAgree(address, prefix, i);
    }
    if address[0] == 'T' && forall i | 0 <= i < |prefix| :: PrefixCharMatches(address, prefix, i) {
      forall i | 0 <= i < |spec| ensures address[i] in spec[i] {
        if i > 0 { assert PrefixCharMatches(address, prefix, i - 1); }
      }
    }
  }

  lemma KnownLetter()
    ensures DigitOf('T').Some?
  {
  }

  lemma SuffixListsAgree(address: string, suffix: string)
    requires IsBase58(address) && IsBase58(suffix) && |suffix| <= |address|
    ensures var spec := CompileMatchSpec("", suffix).suffix;
      (forall i | 0 <= i < |spec| :: address[|address| - |spec| + i] in spec[i])
      <==> forall i | 0 <= i < |suffix| :: LooseEqual(address[|address| - |suffix| + i], suffix[i])
  {
    hide CharacterOptions, LooseEqual, DigitOf;
    var spec := CompileMatchSpec("", suffix).suffix;
    forall i | 0 <= i < |suffix|
      ensures address[|address| - |suffix| + i] in spec[i] <==> LooseEqual(address[|address| - |suffix| + i], suffix[i])
    {
      OptionsAreLooseEqual(address[|address| - |suffix| + i], suffix[i]);
    }
  }

  /** The server accepts an address exactly when the native matcher does and prefix and suffix do not overlap. */
  lemma MatchersAgree(address: string, prefix: string, suffix: string)
    requires |address| == 34 && IsBase58(address) && IsBase58(prefix) && IsBase58(suffix)
    requires |prefix| <= 33 && |suffix| <= 34
    ensures AddressMatchesSpec(address, CompileMatchSpec("T" + prefix, suffix))
       <==> NativeMatches(address, prefix, suffix) && 1 + |prefix| + |suffix| <= 34
  {
    hide CharacterOptions, LooseEqual, PrefixCharMatches, IsBase58;
    PrefixListsAgree(address, prefix);
    SuffixListsAgree(address, suffix);
    var spec := CompileMatchSpec("T" + prefix, suffix);
    assert spec.prefix == CompileMatchSpec("T" + prefix, "").prefix;
    assert spec.suffix == CompileMatchSpec("", suffix).suffix;
  }

  /** An address, a prefix and a suffix that overlap: the native matcher says yes, the server no. */
  lemma OverlapDisagrees()
    ensures var address, prefix, suffix := "T" + Ones(33), Ones(33), "1";
      && |address| == 34 && IsBase58(address) && IsBase58(prefix) && IsBase58(suffix)
      && NativeMatches(address, prefix, suffix)
      && !AddressMatchesSpec(address, CompileMatchSpec("T" + prefix, suffix))
  {
    KnownLetter();
    var address, prefix, suffix := "T" + Ones(33), Ones(33), "1";
    assert DigitOf('1').Some?;
    assert forall i | 1 <= i < 34 :: address[i] == '1';
    MatchersAgree(address, prefix, suffix);
  }

  // ---- Validators ------------------------------------------------------------------------------

  datatype PatternType = ThreeByFour | TwoByFive | FourByThree | TwoByTwo

  function PatternName(pattern: PatternType): string {
    match pattern case ThreeByFour => "3x4" case TwoByFive => "2x5" case FourByThree => "4x3" case TwoByTwo => "2x2"
  }

  function PatternLengths(pattern: PatternType): (nat, nat) {
    match pattern case ThreeByFour => (3, 4) case TwoByFive => (2, 5) case FourByThree => (4, 3) case TwoByTwo => (2, 2)
  }

  function NamedPattern(name: string): Option<PatternType> {
    if name == "3x4" then Some(ThreeByFour) else if name == "2x5" then Some(TwoByFive)
    else if name == "4x3" then Some(FourByThree) else if name == "2x2" then Some(TwoByTwo) else None
  }

  /** A pattern's name is the lengths of its prefix and suffix, and only the four names are patterns. */
  lemma NameSaysLengths(name: string)
    ensures NamedPattern(name).Some? <==> name in {"3x4", "2x5", "4x3", "2x2"}
    ensures NamedPattern(name).Some? ==>
      var pattern := NamedPattern(name).value;
      && name == PatternName(pattern) && |name| == 3 && name[1] == 'x'
      && name[0] as int == '0' as int + PatternLengths(pattern).0
      && name[2] as int == '0' as int + PatternLengths(pattern).1
  {
  }

  datatype PatternCheck = ValidPattern | UnknownPattern | WrongLengths | NotBase58 | ImpossibleFirst

  /** The native rule for pattern text. */
  predicate NativeAccepts(name: string, prefix: string, suffix: string) {
    && NamedPattern(name).Some? && (|prefix|, |suffix|) == PatternLengths(NamedPattern(name).value)
    && IsBase58(prefix) && IsBase58(suffix) && prefix[0] in FIRST_CUSTOM
  }

  /** `validate_pattern` of tron.cpp, with its refusals in order. */
  method ValidatePattern(name: string, prefix: string, suffix: string) returns (check: PatternCheck)
    ensures check == ValidPattern <==> NativeAccepts(name, prefix, suffix)
    ensures check == UnknownPattern <==> NamedPattern(name) == None
    ensures check == WrongLengths <==>
      (NamedPattern(name).Some? && (|prefix|, |suffix|) != PatternLengths(NamedPattern(name).value))
    ensures check == NotBase58 <==>
      (NamedPattern(name).Some? && (|prefix|, |suffix|) == PatternLengths(NamedPattern(name).value)
      && !IsBase58(prefix + suffix))
  {
    hide DigitOf;
    if NamedPattern(name) == None {
      return UnknownPattern;
    }
    if (|prefix|, |suffix|) != PatternLengths(NamedPattern(name).value) {
      return WrongLengths;
    }
    var text := prefix + suffix;
    for index := 0 to |text|
      invariant forall i | 0 <= i < index :: DigitOf(text[i]).Some?
    {
      if DigitOf(text[index]) == None {
        SplitText(prefix, suffix);
        return NotBase58;
      }
    }
    SplitText(prefix, suffix);
    if prefix[0] !in FIRST_CUSTOM {
      return ImpossibleFirst;
    }
    return ValidPattern;
  }

  lemma SplitText(prefix: string, suffix: string)
    ensures IsBase58(prefix + suffix) <==> IsBase58(prefix) && IsBase58(suffix)
  {
    hide DigitOf;
    var text := prefix + suffix;
    assert forall i | 0 <= i < |prefix| :: text[i] == prefix[i];
    assert forall i | 0 <= i < |suffix| :: text[|prefix| + i] == suffix[i];
  }

  /** `[9A-HJ-NP-Z]` of schemas.py. */
  predicate ServerFirstCustom(c: char) { c == '9' || 'A' <= c <= 'H' || 'J' <= c <= 'N' || 'P' <= c <= 'Z' }

  /** The server's validator; its prefix includes the T. */
  predicate ServerAccepts(pattern: PatternType, prefix: string, suffix: string) {
    && |prefix| == PatternLengths(pattern).0 + 1 && |suffix| == PatternLengths(pattern).1
    && prefix[0] == 'T' && IsBase58(prefix) && IsBase58(suffix) && ServerFirstCustom(prefix[1])
  }

  lemma FirstCustomsAgree(c: char)
    ensures ServerFirstCustom(c) <==> c in FIRST_CUSTOM
  {
    FirstCustomLetters(c);
    if ServerFirstCustom(c) {
      LetterOfDigit(c);
      assert 8 <= DigitOf(c).value <= 32;
    }
  }

  /** Both validators accept the same patterns. */
  lemma ValidatorsAgree(pattern: PatternType, prefix: string, suffix: string)
    ensures ServerAccepts(pattern, "T" + prefix, suffix) <==> NativeAccepts(PatternName(pattern), prefix, suffix)
  {
    hide FIRST_CUSTOM;
    KnownLetter();
    assert NamedPattern(PatternName(pattern)) == Some(pattern);
    hide DigitOf, ServerFirstCustom;
    SplitText("T", prefix);
    if prefix != "" { FirstCustomsAgree(prefix[0]); }
  }

  /** For an accepted pattern the two matchers agree on every address the generator can derive. */
  lemma AcceptedPatternsMatchAlike(hash: Hash, payload: seq<Byte>, name: string, prefix: string, suffix: string)
    requires IsTronPayload(payload) && NativeAccepts(name, prefix, suffix)
    ensures var address := CheckEncode(hash, payload);
      AddressMatchesSpec(address, CompileMatchSpec("T" + prefix, suffix)) <==> NativeMatches(address, prefix, suffix)
  {
    hide CheckEncode, AddressMatchesSpec, CompileMatchSpec, NativeMatches;
    AddressShape(hash, payload);
    EncodedIsBase58(hash, payload);
    MatchersAgree(CheckEncode(hash, payload), prefix, suffix);
  }

  lemma EncodedIsBase58(hash: Hash, payload: seq<Byte>)
    ensures IsBase58(CheckEncode(hash, payload))
  {
    EncodedDigits(payload + Checksum(hash, payload));
  }

  /** An accepted pattern begins with a letter that some address has in that place. */
  lemma AcceptedFirstOccurs(hash: Hash, name: string, prefix: string, suffix: string)
    requires NativeAccepts(name, prefix, suffix)
    ensures |prefix| >= 2 && exists payload: seq<Byte> :: SecondCharacterOf(hash, payload, prefix[0])
  {
    AllowedIffAttained(hash, prefix[0]);
  }

  /** A pattern the validators refuse only for its first letter is matched by no address at all. */
  lemma RefusedFirstNeverMatches(hash: Hash, payload: seq<Byte>, prefix: string, suffix: string)
    requires IsTronPayload(payload) && 0 < |prefix| <= 33 && |suffix| <= 34 && prefix[0] !in FIRST_CUSTOM
    ensures !NativeMatches(CheckEncode(hash, payload), prefix, suffix)
  {
    hide CheckEncode;
    var address := CheckEncode(hash, payload);
    AddressShape(hash, payload);
    if NativeMatches(address, prefix, suffix) {
      assert PrefixCharMatches(address, prefix, 0);
      assert SecondCharacterOf(hash, payload, prefix[0]);
      AllowedIffAttained(hash, prefix[0]);
    }
  }
}
