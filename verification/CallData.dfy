/** Owner calls that arrive as ABI call data from Ethereum and are re-issued as Anchor instruction data. */
module CallData {
  import opened Binary
  import opened Results

  datatype CallDataError = InvalidSelector | InvalidArgument | InvalidBool | InvalidAddress
                         | InvalidUint32 | InvalidUint64 | UnsupportedSelector

  /** The six calls that a remote owner can make. */
  datatype AdminCall =
    | PauseDeposits(pause: bool)
    | PauseFills(pause: bool)
    | SetCrossDomainAdmin(admin: Pubkey)
    | SetEnableRoute(originToken: Pubkey, destinationChainId: u64, enabled: bool)
    | RelayRootBundle(relayerRefundRoot: Hash, slowRelayRoot: Hash)
    | EmergencyDeleteRootBundle(rootBundleId: u32)

  function Ascii(s: string): Bytes
  {
    seq(|s|, i requires 0 <= i < |s| => (s[i] as int % 128) as byte)
  }

  const SOLIDITY_NAMES: seq<string> := [
    "pauseDeposits(bool)",
    "pauseFills(bool)",
    "setCrossDomainAdmin(address)",
    "setEnableRoute(bytes32,uint64,bool)",
    "relayRootBundle(bytes32,bytes32)",
    "emergencyDeleteRootBundle(uint256)"]

  const ANCHOR_NAMES: seq<string> := [
    "global:pause_deposits",
    "global:pause_fills",
    "global:set_cross_domain_admin",
    "global:set_enable_route",
    "global:relay_root_bundle",
    "global:emergency_delete_root_bundle"]

  /** The four-byte selectors and eight-byte discriminators of the six calls, in that order. */
  datatype Tags = Tags(selectors: seq<Bytes>, discriminators: seq<Bytes>)

  predicate Sized(tags: Tags)
  {
    && |tags.selectors| == |tags.discriminators| == 6
    && forall i :: 0 <= i < 6 ==> |tags.selectors[i]| == 4 && |tags.discriminators[i]| == 8
  }

  type Table = t: Tags | Sized(t)
    witness Tags(seq(6, _ => [0, 0, 0, 0]), seq(6, _ => [0, 0, 0, 0, 0, 0, 0, 0]))

  /** The first n bytes of the hash of a name. */
  function Tag(h: Hasher, name: string, n: nat): (t: Bytes)
    requires n <= 32
    ensures |t| == n
  {
    h(Ascii(name))[..n]
  }

  /** Keccak names the Solidity functions, SHA-256 the Anchor instructions. */
  function TableOf(keccak: Hasher, sha256: Hasher): Table
  {
    Tags(seq(6, i requires 0 <= i < 6 => Tag(keccak, SOLIDITY_NAMES[i], 4)),
         seq(6, i requires 0 <= i < 6 => Tag(sha256, ANCHOR_NAMES[i], 8)))
  }

  function Selector(tags: Table, i: nat): (s: Bytes)
    requires i < 6
    ensures |s| == 4
  {
    tags.selectors[i]
  }

  function Discriminator(tags: Table, i: nat): (d: Bytes)
    requires i < 6
    ensures |d| == 8
  {
    tags.discriminators[i]
  }

  /** The truncated hashes that tell the calls apart are pairwise distinct. */
  ghost predicate Distinct(tags: Table)
  {
    forall i, j :: 0 <= i < j < 6 ==>
      Selector(tags, i) != Selector(tags, j) && Discriminator(tags, i) != Discriminator(tags, j)
  }

  // ---------- Reading call data ----------

  function GetSelector(data: Bytes): Result<Bytes, CallDataError>
  {
    if |data| < 4 then Err(InvalidSelector) else Ok(data[..4])
  }

  function GetArg(data: Bytes, index: nat): Result<Word, CallDataError>
  {
    var offset := 4 + 32 * index;
    if |data| < offset + 32 then Err(InvalidArgument) else Ok(data[offset..offset + 32])
  }

  /** The two u128 halves a word is decoded through. */
  function High(word: Word): nat
  {
    FromBE(word[..16])
  }

  function Low(word: Word): nat
  {
    FromBE(word[16..])
  }

  function DecodeBool(word: Word): Result<bool, CallDataError>
  {
    match High(word)
    case 0 =>
      (match Low(word)
       case 0 => Ok(false)
       case 1 => Ok(true)
       case _ => Err(InvalidBool))
    case _ => Err(InvalidBool)
  }

  function DecodeUint32(word: Word): Result<u32, CallDataError>
  {
    if High(word) > 0 || Low(word) > U32_MAX then Err(InvalidUint32) else Ok(Low(word))
  }

  function DecodeUint64(word: Word): Result<u64, CallDataError>
  {
    if High(word) > 0 || Low(word) > U64_MAX then Err(InvalidUint64) else Ok(Low(word))
  }

  function DecodeAddress(word: Word): Result<Pubkey, CallDataError>
  {
    if exists i :: 0 <= i < 12 && word[i] != 0 then Err(InvalidAddress) else Ok(word)
  }

  method DecodeAddressLoop(word: Word) returns (r: Result<Pubkey, CallDataError>)
    ensures r == DecodeAddress(word)
  {
    for i := 0 to 12
      invariant forall j :: 0 <= j < i ==> word[j] == 0
    {
      if word[i] != 0 {
        return Err(InvalidAddress);
      }
    }
    r := Ok(word);
  }

  lemma SplitBound(high: nat, low: nat, base: nat, bound: nat)
    requires low < base && bound < base
    ensures high * base + low <= bound <==> high == 0 && low <= bound
  {
    if high > 0 {
      assert high * base >= base;
    }
  }

  /** The two halves together hold the 256-bit value: it is small exactly when the high one is zero. */
  lemma Halves(word: Word, bound: nat)
    requires bound <= U64_MAX
    ensures FromBE(word) <= bound <==> High(word) == 0 && Low(word) <= bound
    ensures High(word) == 0 ==> FromBE(word) == Low(word)
  {
    assert word == word[..16] + word[16..];
    FromBEAppend(word[..16], word[16..]);
    BEOfFromBE(word[16..]);
    Pow256Grows(8, 16);
    Pow256Values();
    SplitBound(High(word), Low(word), Pow256(16), bound);
  }

  lemma {:induction false} Pow256Grows(j: nat, k: nat)
    requires j <= k
    ensures Pow256(j) <= Pow256(k)
  {
    if j < k {
      Pow256Grows(j, k - 1);
    }
  }

  /** A word decodes exactly when its value is in range, and then to that value. */
  lemma DecodesInRange(word: Word)
    ensures DecodeBool(word).Ok? <==> FromBE(word) <= 1
    ensures DecodeBool(word).Ok? ==> DecodeBool(word).value == (FromBE(word) == 1)
    ensures DecodeUint32(word).Ok? <==> FromBE(word) <= U32_MAX
    ensures DecodeUint32(word).Ok? ==> DecodeUint32(word).value == FromBE(word)
    ensures DecodeUint64(word).Ok? <==> FromBE(word) <= U64_MAX
    ensures DecodeUint64(word).Ok? ==> DecodeUint64(word).value == FromBE(word)
  {
    Halves(word, 1);
    Halves(word, U32_MAX);
    Halves(word, U64_MAX);
  }

  // ---------- Translation ----------

  function BorshBool(b: bool): Bytes
  {
    if b then [1] else [0]
  }

  function TranslateBool(prefix: Bytes, data: Bytes): Result<Bytes, CallDataError>
  {
    var word :- GetArg(data, 0);
    var flag :- DecodeBool(word);
    Ok(prefix + BorshBool(flag))
  }

  function TranslateAddress(prefix: Bytes, data: Bytes): Result<Bytes, CallDataError>
  {
    var word :- GetArg(data, 0);
    var address :- DecodeAddress(word);
    Ok(prefix + address)
  }

  function TranslateRoute(prefix: Bytes, data: Bytes): Result<Bytes, CallDataError>
  {
    var originToken :- GetArg(data, 0);
    var chainWord :- GetArg(data, 1);
    var destinationChainId :- DecodeUint64(chainWord);
    var enabledWord :- GetArg(data, 2);
    var enabled :- DecodeBool(enabledWord);
    Ok(prefix + (originToken + LE(destinationChainId, 8) + BorshBool(enabled)))
  }

  function TranslateRoots(prefix: Bytes, data: Bytes): Result<Bytes, CallDataError>
  {
    var relayerRefundRoot :- GetArg(data, 0);
    var slowRelayRoot :- GetArg(data, 1);
    Ok(prefix + (relayerRefundRoot + slowRelayRoot))
  }

  function TranslateId(prefix: Bytes, data: Bytes): Result<Bytes, CallDataError>
  {
    var word :- GetArg(data, 0);
    var rootBundleId :- DecodeUint32(word);
    Ok(prefix + LE(rootBundleId, 4))
  }

  /** The arm of the match for call number i. */
  function TranslateArm(tags: Table, i: nat, data: Bytes): Result<Bytes, CallDataError>
    requires i < 6
  {
    var prefix := Discriminator(tags, i);
    if i <= 1 then TranslateBool(prefix, data)
    else if i == 2 then TranslateAddress(prefix, data)
    else if i == 3 then TranslateRoute(prefix, data)
    else if i == 4 then TranslateRoots(prefix, data)
    else TranslateId(prefix, data)
  }

  /** The first arm whose selector matches. */
  function Translate(tags: Table, data: Bytes): Result<Bytes, CallDataError>
  {
    var s :- GetSelector(data);
    if s == Selector(tags, 0) then TranslateArm(tags, 0, data)
    else if s == Selector(tags, 1) then TranslateArm(tags, 1, data)
    else if s == Selector(tags, 2) then TranslateArm(tags, 2, data)
    else if s == Selector(tags, 3) then TranslateArm(tags, 3, data)
    else if s == Selector(tags, 4) then TranslateArm(tags, 4, data)
    else if s == Selector(tags, 5) then TranslateArm(tags, 5, data)
    else Err(UnsupportedSelector)
  }

  lemma SelectorDecides(tags: Table, i: nat, data: Bytes)
    requires Distinct(tags) && i < 6 && |data| >= 4 && data[..4] == Selector(tags, i)
    ensures Translate(tags, data) == TranslateArm(tags, i, data)
  {
  }

  // ---------- The two encodings of a call ----------

  function Index(call: AdminCall): (i: nat)
    ensures i < 6
  {
    match call
    case PauseDeposits(_) => 0
    case PauseFills(_) => 1
    case SetCrossDomainAdmin(_) => 2
    case SetEnableRoute(_, _, _) => 3
    case RelayRootBundle(_, _) => 4
    case EmergencyDeleteRootBundle(_) => 5
  }

  /** A call is told apart by the hashes of its Solidity signature and of its Anchor instruction name. */
  lemma CallsByName(keccak: Hasher, sha256: Hasher, call: AdminCall)
    ensures var names := match call
              case PauseDeposits(_) => ("pauseDeposits(bool)", "global:pause_deposits")
              case PauseFills(_) => ("pauseFills(bool)", "global:pause_fills")
              case SetCrossDomainAdmin(_) => ("setCrossDomainAdmin(address)", "global:set_cross_domain_admin")
              case SetEnableRoute(_, _, _) => ("setEnableRoute(bytes32,uint64,bool)", "global:set_enable_route")
              case RelayRootBundle(_, _) => ("relayRootBundle(bytes32,bytes32)", "global:relay_root_bundle")
              case EmergencyDeleteRootBundle(_) =>
                ("emergencyDeleteRootBundle(uint256)", "global:emergency_delete_root_bundle");
            && Selector(TableOf(keccak, sha256), Index(call)) == keccak(Ascii(names.0))[..4]
            && Discriminator(TableOf(keccak, sha256), Index(call)) == sha256(Ascii(names.1))[..8]
  {
  }

  function AbiBool(b: bool): Word
  {
    BE(if b then 1 else 0, 32)
  }

  function AbiArgs(call: AdminCall): (args: seq<Word>)
  {
    match call
    case PauseDeposits(pause) => [AbiBool(pause)]
    case PauseFills(pause) => [AbiBool(pause)]
    case SetCrossDomainAdmin(admin) => [admin]
    case SetEnableRoute(token, chain, enabled) => [token, BE(chain, 32), AbiBool(enabled)]
    case RelayRootBundle(refund, slow) => [refund, slow]
    case EmergencyDeleteRootBundle(id) => [BE(id, 32)]
  }

  /** Call data as the Contract ABI Specification encodes it: the selector, then one word per argument. */
  function AbiEncode(tags: Table, call: AdminCall): Bytes
  {
    Selector(tags, Index(call)) + Concat(AbiArgs(call))
  }

  /** An ABI address is twenty bytes, so its word starts with twelve zeros. */
  predicate AbiEncodable(call: AdminCall)
  {
    call.SetCrossDomainAdmin? ==> forall i :: 0 <= i < 12 ==> call.admin[i] == 0
  }

  function BorshArgs(call: AdminCall): Bytes
  {
    match call
    case PauseDeposits(pause) => BorshBool(pause)
    case PauseFills(pause) => BorshBool(pause)
    case SetCrossDomainAdmin(admin) => admin
    case SetEnableRoute(token, chain, enabled) => token + LE(chain, 8) + BorshBool(enabled)
    case RelayRootBundle(refund, slow) => refund + slow
    case EmergencyDeleteRootBundle(id) => LE(id, 4)
  }

  function AnchorData(tags: Table, call: AdminCall): Bytes
  {
    Discriminator(tags, Index(call)) + BorshArgs(call)
  }

  function ReadBool(data: Bytes, offset: nat): Option<bool>
  {
    if |data| <= offset || data[offset] > 1 then None else Some(data[offset] == 1)
  }

  function ReadBytes(data: Bytes, offset: nat, n: nat): (r: Option<Bytes>)
    ensures r.Some? ==> |r.value| == n
  {
    if |data| < offset + n then None else Some(data[offset..offset + n])
  }

  /** What the program's entry point makes of instruction data: the discriminator, then Borsh arguments. */
  function Dispatch(tags: Table, data: Bytes): Option<AdminCall>
  {
    Pow256Values();
    if |data| < 8 then None
    else if data[..8] == Discriminator(tags, 0) then
      var pause :- ReadBool(data, 8);
      Some(PauseDeposits(pause))
    else if data[..8] == Discriminator(tags, 1) then
      var pause :- ReadBool(data, 8);
      Some(PauseFills(pause))
    else if data[..8] == Discriminator(tags, 2) then
      var admin :- ReadBytes(data, 8, 32);
      Some(SetCrossDomainAdmin(admin))
    else if data[..8] == Discriminator(tags, 3) then
      var token :- ReadBytes(data, 8, 32);
      var chain :- ReadBytes(data, 40, 8);
      var enabled :- ReadBool(data, 48);
      LEOfFromLE(chain);
      Some(SetEnableRoute(token, FromLE(chain), enabled))
    else if data[..8] == Discriminator(tags, 4) then
      var refund :- ReadBytes(data, 8, 32);
      var slow :- ReadBytes(data, 40, 32);
      Some(RelayRootBundle(refund, slow))
    else if data[..8] == Discriminator(tags, 5) then
      var id :- ReadBytes(data, 8, 4);
      LEOfFromLE(id);
      Some(EmergencyDeleteRootBundle(FromLE(id)))
    else None
  }

  // ---------- Exactness ----------

  lemma {:induction false} ConcatWord(words: seq<Word>, i: nat)
    requires i < |words|
    ensures |Concat(words)| == 32 * |words|
    ensures Concat(words)[32 * i..32 * i + 32] == words[i]
  {
    ConcatUniform(words, 32);
    if i > 0 {
      ConcatWord(words[1..], i - 1);
      var c, rest := Concat(words), Concat(words[1..]);
      assert c == words[0] + rest;
      assert c[32 * i..32 * i + 32] == rest[32 * (i - 1)..32 * (i - 1) + 32];
    }
  }

  /** The arguments are where the program looks for them, whatever follows. */
  lemma ArgOfAbi(tags: Table, call: AdminCall, suffix: Bytes, i: nat)
    requires i < |AbiArgs(call)|
    ensures GetArg(AbiEncode(tags, call) + suffix, i) == Ok(AbiArgs(call)[i])
  {
    var words, data := AbiArgs(call), AbiEncode(tags, call) + suffix;
    ConcatWord(words, i);
    assert 32 * i + 32 <= 32 * |words|;
    assert data[4 + 32 * i..4 + 32 * i + 32] == Concat(words)[32 * i..32 * i + 32];
  }

  lemma DecodeOfBE(n: nat)
    requires n <= U64_MAX
    ensures FromBE(BE(n, 32)) == n
  {
    Pow256Values();
    Pow256Grows(8, 32);
    FromBEOfBE(n, 32);
  }

  lemma AbiBoolDecodes(b: bool)
    ensures DecodeBool(AbiBool(b)) == Ok(b)
  {
    DecodeOfBE(if b then 1 else 0);
    DecodesInRange(AbiBool(b));
  }

  /** Every encodable call, followed by anything, is translated to the Anchor data of the same call. */
  lemma TranslateComplete(tags: Table, call: AdminCall, suffix: Bytes)
    requires Distinct(tags) && AbiEncodable(call)
    ensures Translate(tags, AbiEncode(tags, call) + suffix) == Ok(AnchorData(tags, call))
  {
    var data, prefix := AbiEncode(tags, call) + suffix, Discriminator(tags, Index(call));
    SelectorDecides(tags, Index(call), data);
    ArgOfAbi(tags, call, suffix, 0);
    match call
    case PauseDeposits(pause) => AbiBoolDecodes(pause);
    case PauseFills(pause) => AbiBoolDecodes(pause);
    case SetCrossDomainAdmin(_) =>
    case SetEnableRoute(_, chain, enabled) =>
      ArgOfAbi(tags, call, suffix, 1);
      ArgOfAbi(tags, call, suffix, 2);
      DecodeOfBE(chain);
      DecodesInRange(BE(chain, 32));
      AbiBoolDecodes(enabled);
    case RelayRootBundle(_, _) => ArgOfAbi(tags, call, suffix, 1);
    case EmergencyDeleteRootBundle(id) =>
      DecodeOfBE(id);
      DecodesInRange(BE(id, 32));
  }

  lemma BoolWord(word: Word)
    requires DecodeBool(word).Ok?
    ensures AbiBool(DecodeBool(word).value) == word
  {
    DecodesInRange(word);
    BEOfFromBE(word);
  }

  /** The arguments the program finds are the data after the selector. */
  lemma {:induction false} PrefixOfArgs(data: Bytes, words: seq<Word>)
    requires forall i :: 0 <= i < |words| ==> GetArg(data, i) == Ok(words[i])
    requires |data| >= 4
    ensures |data| >= 4 + 32 * |words| && Concat(words) == data[4..4 + 32 * |words|]
  {
    if words != [] {
      var n := |words| - 1;
      PrefixOfArgs(data, words[..n]);
      assert GetArg(data, n) == Ok(words[n]);
      assert words == words[..n] + [words[n]];
      ConcatSnoc(words[..n], words[n]);
      assert data[4..4 + 32 * n] + data[4 + 32 * n..4 + 32 * n + 32] == data[4..4 + 32 * n + 32];
    }
  }

  /** The call that accepted data encodes. */
  function CallIn(tags: Table, data: Bytes): AdminCall
    requires Translate(tags, data).Ok?
  {
    var s := data[..4];
    if s == Selector(tags, 0) then PauseDeposits(DecodeBool(GetArg(data, 0).value).value)
    else if s == Selector(tags, 1) then PauseFills(DecodeBool(GetArg(data, 0).value).value)
    else if s == Selector(tags, 2) then SetCrossDomainAdmin(GetArg(data, 0).value)
    else if s == Selector(tags, 3) then
      SetEnableRoute(GetArg(data, 0).value, DecodeUint64(GetArg(data, 1).value).value,
                     DecodeBool(GetArg(data, 2).value).value)
    else if s == Selector(tags, 4) then RelayRootBundle(GetArg(data, 0).value, GetArg(data, 1).value)
    else EmergencyDeleteRootBundle(DecodeUint32(GetArg(data, 0).value).value)
  }

  lemma UintWord(word: Word, n: nat)
    requires FromBE(word) == n
    ensures BE(n, 32) == word
  {
    BEOfFromBE(word);
  }

  lemma CallInArgs(tags: Table, data: Bytes, i: nat)
    requires Translate(tags, data).Ok?
    requires i < |AbiArgs(CallIn(tags, data))|
    ensures GetArg(data, i) == Ok(AbiArgs(CallIn(tags, data))[i])
  {
    var call := CallIn(tags, data);
    var word := GetArg(data, i).value;
    DecodesInRange(word);
    if DecodeBool(word).Ok? {
      BoolWord(word);
    }
    if FromBE(word) <= U64_MAX {
      UintWord(word, FromBE(word));
    }
  }

  lemma TranslatedCall(tags: Table, data: Bytes)
    requires Translate(tags, data).Ok?
    ensures var call := CallIn(tags, data);
            AbiEncodable(call) && Translate(tags, data).value == AnchorData(tags, call)
  {
  }

  lemma TranslatedPrefix(tags: Table, data: Bytes)
    requires Translate(tags, data).Ok?
    ensures AbiEncode(tags, CallIn(tags, data)) <= data
  {
    var args := AbiArgs(CallIn(tags, data));
    forall i | 0 <= i < |args|
      ensures GetArg(data, i) == Ok(args[i])
    {
      CallInArgs(tags, data, i);
    }
    PrefixOfArgs(data, args);
    SelectedCall(tags, data);
    assert data == data[..4] + data[4..];
  }

  lemma SelectedCall(tags: Table, data: Bytes)
    requires Translate(tags, data).Ok?
    ensures data[..4] == Selector(tags, Index(CallIn(tags, data)))
  {
  }

  /** Whatever is translated starts with the ABI encoding of the call it is translated to. */
  lemma TranslateSound(tags: Table, data: Bytes)
    requires Translate(tags, data).Ok?
    ensures var call := CallIn(tags, data);
            && AbiEncodable(call)
            && AbiEncode(tags, call) <= data
            && Translate(tags, data).value == AnchorData(tags, call)
  {
    TranslatedCall(tags, data);
    TranslatedPrefix(tags, data);
  }

  /** Exactness: data is accepted if and only if it starts with the ABI encoding of some call. */
  lemma TranslateExact(tags: Table, data: Bytes)
    requires Distinct(tags)
    ensures Translate(tags, data).Ok? <==> exists call :: AbiEncodable(call) && AbiEncode(tags, call) <= data
  {
    if Translate(tags, data).Ok? {
      TranslateSound(tags, data);
    }
    if exists call :: AbiEncodable(call) && AbiEncode(tags, call) <= data {
      var call :| AbiEncodable(call) && AbiEncode(tags, call) <= data;
      var encoded := AbiEncode(tags, call);
      assert data == encoded + data[|encoded|..];
      TranslateComplete(tags, call, data[|encoded|..]);
    }
  }

  lemma DispatchOfRoute(tags: Table, call: AdminCall)
    requires Distinct(tags) && call.SetEnableRoute?
    ensures Dispatch(tags, AnchorData(tags, call)) == Some(call)
  {
    var data := AnchorData(tags, call);
    Pow256Values();
    assert data[..8] == Discriminator(tags, 3);
    assert data[8..40] == call.originToken && data[40..48] == LE(call.destinationChainId, 8);
    assert data[48] == BorshBool(call.enabled)[0];
    FromLEOfLE(call.destinationChainId, 8);
  }

  lemma DispatchOfDeletion(tags: Table, call: AdminCall)
    requires Distinct(tags) && call.EmergencyDeleteRootBundle?
    ensures Dispatch(tags, AnchorData(tags, call)) == Some(call)
  {
    var data := AnchorData(tags, call);
    Pow256Values();
    assert data[..8] == Discriminator(tags, 5);
    assert data[8..12] == LE(call.rootBundleId, 4);
    FromLEOfLE(call.rootBundleId, 4);
  }

  lemma DispatchOfPause(tags: Table, call: AdminCall)
    requires Distinct(tags) && (call.PauseDeposits? || call.PauseFills?)
    ensures Dispatch(tags, AnchorData(tags, call)) == Some(call)
  {
    var data := AnchorData(tags, call);
    assert data[..8] == Discriminator(tags, Index(call)) && data[8..] == BorshBool(call.pause);
  }

  lemma DispatchOfAdmin(tags: Table, call: AdminCall)
    requires Distinct(tags) && call.SetCrossDomainAdmin?
    ensures Dispatch(tags, AnchorData(tags, call)) == Some(call)
  {
    var data := AnchorData(tags, call);
    assert data[..8] == Discriminator(tags, 2) && data[8..40] == call.admin;
  }

  lemma DispatchOfRoots(tags: Table, call: AdminCall)
    requires Distinct(tags) && call.RelayRootBundle?
    ensures Dispatch(tags, AnchorData(tags, call)) == Some(call)
  {
    var data := AnchorData(tags, call);
    assert data[..8] == Discriminator(tags, 4);
    assert data[8..40] == call.relayerRefundRoot && data[40..72] == call.slowRelayRoot;
  }

  /** Anchor data is dispatched to the call it encodes. */
  lemma DispatchOfAnchorData(tags: Table, call: AdminCall)
    requires Distinct(tags)
    ensures Dispatch(tags, AnchorData(tags, call)) == Some(call)
  {
    if call.SetEnableRoute? {
      DispatchOfRoute(tags, call);
    } else if call.EmergencyDeleteRootBundle? {
      DispatchOfDeletion(tags, call);
    } else if call.SetCrossDomainAdmin? {
      DispatchOfAdmin(tags, call);
    } else if call.RelayRootBundle? {
      DispatchOfRoots(tags, call);
    } else {
      DispatchOfPause(tags, call);
    }
  }

  // ---------- The self-invoked instruction ----------

  datatype AccountMeta = AccountMeta(key: Pubkey, isSigner: bool, isWritable: bool)

  /** invoke_self puts the program's own authority first, as the only signer it adds. */
  method SelfInvocationAccounts(selfAuthority: Pubkey, remaining: seq<AccountMeta>) returns (accounts: seq<AccountMeta>)
    ensures accounts == [AccountMeta(selfAuthority, true, false)] + remaining
  {
    accounts := [AccountMeta(selfAuthority, true, false)];
    for i := 0 to |remaining|
      invariant accounts == [AccountMeta(selfAuthority, true, false)] + remaining[..i]
    {
      var acc := remaining[i];
      if acc.isWritable {
        accounts := accounts + [AccountMeta(acc.key, acc.isSigner, true)];
      } else {
        accounts := accounts + [AccountMeta(acc.key, acc.isSigner, false)];
      }
    }
  }
}
