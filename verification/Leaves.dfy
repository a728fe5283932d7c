/** The byte encodings that are hashed: relay data, slow-fill leaves and relayer-refund leaves. */
module Leaves {
  import opened Binary
  import opened Results

  /** Borsh stores a message length in four bytes. */
  type Message = m: Bytes | |m| <= U32_MAX witness []

  datatype RelayData = RelayData(
    depositor: Pubkey, recipient: Pubkey, exclusiveRelayer: Pubkey, inputToken: Pubkey, outputToken: Pubkey,
    inputAmount: u64, outputAmount: u64, originChainId: u64,
    depositId: u32, fillDeadline: u32, exclusivityDeadline: u32,
    message: Message)

  datatype RefundLeaf = RefundLeaf(
    amountToReturn: u64, chainId: u64, refundAmounts: seq<u64>,
    leafId: u32, mint: Pubkey, refundAccounts: seq<Pubkey>)

  function Keys(rd: RelayData): seq<Bytes>
  {
    [rd.depositor, rd.recipient, rd.exclusiveRelayer, rd.inputToken, rd.outputToken]
  }

  function Amounts(rd: RelayData): seq<Bytes>
  {
    [LE(rd.inputAmount, 8), LE(rd.outputAmount, 8), LE(rd.originChainId, 8)]
  }

  function Times(rd: RelayData): seq<Bytes>
  {
    [LE(rd.depositId, 4), LE(rd.fillDeadline, 4), LE(rd.exclusivityDeadline, 4)]
  }

  /** The fields before the message, in declaration order. */
  function Header(rd: RelayData): seq<Bytes>
  {
    Keys(rd) + Amounts(rd) + Times(rd)
  }

  /** What get_v3_relay_hash hashes: the Borsh relay data, then the chain id. */
  function RelayPreimage(rd: RelayData, chainId: u64): Bytes
  {
    Concat(Header(rd) + [LE(|rd.message|, 4), rd.message, LE(chainId, 8)])
  }

  /** What V3SlowFill::to_bytes returns: the message has no length prefix. */
  function SlowFillBytes(rd: RelayData, chainId: u64, updatedOutputAmount: u64): Bytes
  {
    Concat(Header(rd) + [rd.message, LE(chainId, 8), LE(updatedOutputAmount, 8)])
  }

  function AmountParts(amounts: seq<u64>): (parts: seq<Bytes>)
    ensures |parts| == |amounts|
  {
    seq(|amounts|, i requires 0 <= i < |amounts| => LE(amounts[i], 8))
  }

  function RefundLeafParts(leaf: RefundLeaf): seq<Bytes>
  {
    [LE(leaf.amountToReturn, 8), LE(leaf.chainId, 8)]
    + AmountParts(leaf.refundAmounts)
    + [LE(leaf.leafId, 4), leaf.mint]
    + leaf.refundAccounts
  }

  /** What RelayerRefundLeaf::to_bytes returns: neither array has a length prefix. */
  function RefundLeafBytes(leaf: RefundLeaf): Bytes
  {
    Concat(RefundLeafParts(leaf))
  }

  // ---------- Sizes ----------

  lemma Concat2(a: Bytes, b: Bytes)
    ensures Concat([a, b]) == a + b
  {
    assert [a, b] == [a] + [b];
    ConcatSnoc([a], b);
    ConcatSnoc([], a);
  }

  lemma HeaderSize(rd: RelayData)
    ensures |Concat(Header(rd))| == 196
  {
    ConcatAppend(Keys(rd) + Amounts(rd), Times(rd));
    ConcatAppend(Keys(rd), Amounts(rd));
    ConcatUniform(Keys(rd), 32);
    ConcatUniform(Amounts(rd), 8);
    ConcatUniform(Times(rd), 4);
  }

  lemma ThreeParts(p: seq<Bytes>, a: Bytes, b: Bytes, c: Bytes)
    ensures Concat(p + [a, b, c]) == Concat(p) + a + b + c
  {
    assert p + [a, b, c] == p + [a] + [b] + [c];
    ConcatSnoc(p, a);
    ConcatSnoc(p + [a], b);
    ConcatSnoc(p + [a] + [b], c);
  }

  lemma RelayPreimageSize(rd: RelayData, chainId: u64)
    ensures |RelayPreimage(rd, chainId)| == 208 + |rd.message|
  {
    HeaderSize(rd);
    ThreeParts(Header(rd), LE(|rd.message|, 4), rd.message, LE(chainId, 8));
  }

  lemma SlowFillSize(rd: RelayData, chainId: u64, updatedOutputAmount: u64)
    ensures |SlowFillBytes(rd, chainId, updatedOutputAmount)| == 212 + |rd.message|
  {
    HeaderSize(rd);
    ThreeParts(Header(rd), rd.message, LE(chainId, 8), LE(updatedOutputAmount, 8));
  }

  lemma RefundLeafSize(leaf: RefundLeaf)
    ensures |RefundLeafBytes(leaf)| == 52 + 8 * |leaf.refundAmounts| + 32 * |leaf.refundAccounts|
  {
    var front, middle := [LE(leaf.amountToReturn, 8), LE(leaf.chainId, 8)], [LE(leaf.leafId, 4), leaf.mint];
    var amounts := AmountParts(leaf.refundAmounts);
    ConcatAppend(front + amounts + middle, leaf.refundAccounts);
    ConcatAppend(front + amounts, middle);
    ConcatAppend(front, amounts);
    Concat2(front[0], front[1]);
    Concat2(middle[0], middle[1]);
    ConcatUniform(amounts, 8);
    ConcatUniform(leaf.refundAccounts, 32);
  }

  // ---------- Injectivity ----------

  lemma HeaderInjective(a: RelayData, b: RelayData)
    requires Header(a) == Header(b)
    ensures a.(message := []) == b.(message := [])
  {
    Pow256Values();
    var p, q := Header(a), Header(b);
    assert Keys(a) == p[..5] == q[..5] == Keys(b);
    assert Amounts(a) == p[5..8] == q[5..8] == Amounts(b);
    assert Times(a) == p[8..] == q[8..] == Times(b);
    assert forall i :: 0 <= i < 5 ==> Keys(a)[i] == Keys(b)[i];
    assert forall i :: 0 <= i < 3 ==> Amounts(a)[i] == Amounts(b)[i] && Times(a)[i] == Times(b)[i];
    LEInjective(a.inputAmount, b.inputAmount, 8);
    LEInjective(a.outputAmount, b.outputAmount, 8);
    LEInjective(a.originChainId, b.originChainId, 8);
    LEInjective(a.depositId, b.depositId, 4);
    LEInjective(a.fillDeadline, b.fillDeadline, 4);
    LEInjective(a.exclusivityDeadline, b.exclusivityDeadline, 4);
  }

  lemma RelayPreimageInjective(a: RelayData, b: RelayData, chainA: u64, chainB: u64)
    requires RelayPreimage(a, chainA) == RelayPreimage(b, chainB)
    ensures a == b && chainA == chainB
  {
    RelayPreimageSize(a, chainA);
    RelayPreimageSize(b, chainB);
    var p := Header(a) + [LE(|a.message|, 4), a.message, LE(chainA, 8)];
    var q := Header(b) + [LE(|b.message|, 4), b.message, LE(chainB, 8)];
    ConcatInjective(p, q);
    assert Header(a) == p[..11] == q[..11] == Header(b);
    assert p[12] == q[12] && p[13] == q[13];
    HeaderInjective(a, b);
    Pow256Values();
    LEInjective(chainA, chainB, 8);
  }

  /** The total length fixes the message, although nothing in the bytes delimits it. */
  lemma SlowFillInjective(a: RelayData, b: RelayData, chainA: u64, chainB: u64, outA: u64, outB: u64)
    requires SlowFillBytes(a, chainA, outA) == SlowFillBytes(b, chainB, outB)
    ensures a == b && chainA == chainB && outA == outB
  {
    SlowFillSize(a, chainA, outA);
    SlowFillSize(b, chainB, outB);
    var p := Header(a) + [a.message, LE(chainA, 8), LE(outA, 8)];
    var q := Header(b) + [b.message, LE(chainB, 8), LE(outB, 8)];
    ConcatInjective(p, q);
    assert Header(a) == p[..11] == q[..11] == Header(b);
    assert p[11] == q[11] && p[12] == q[12] && p[13] == q[13];
    HeaderInjective(a, b);
    Pow256Values();
    LEInjective(chainA, chainB, 8);
    LEInjective(outA, outB, 8);
  }

  lemma AmountPartsInjective(a: seq<u64>, b: seq<u64>)
    requires AmountParts(a) == AmountParts(b)
    ensures a == b
  {
    assert |a| == |AmountParts(a)| == |b|;
    forall i | 0 <= i < |a|
      ensures a[i] == b[i]
    {
      Pow256Values();
      assert AmountParts(a)[i] == AmountParts(b)[i];
      LEInjective(a[i], b[i], 8);
    }
  }

  /** Two refund leaves with the same bytes are the same leaf exactly when they have equally many amounts. */
  lemma RefundLeafInjective(a: RefundLeaf, b: RefundLeaf)
    requires RefundLeafBytes(a) == RefundLeafBytes(b)
    ensures a == b <==> |a.refundAmounts| == |b.refundAmounts|
  {
    if |a.refundAmounts| == |b.refundAmounts| {
      RefundLeafSize(a);
      RefundLeafSize(b);
      var p, q, n := RefundLeafParts(a), RefundLeafParts(b), |a.refundAmounts|;
      ConcatInjective(p, q);
      assert p[0] == q[0] && p[1] == q[1] && p[n + 2] == q[n + 2] && p[n + 3] == q[n + 3];
      assert AmountParts(a.refundAmounts) == p[2..n + 2] == q[2..n + 2] == AmountParts(b.refundAmounts);
      assert a.refundAccounts == p[n + 4..] == q[n + 4..] == b.refundAccounts;
      AmountPartsInjective(a.refundAmounts, b.refundAmounts);
      Pow256Values();
      LEInjective(a.amountToReturn, b.amountToReturn, 8);
      LEInjective(a.chainId, b.chainId, 8);
      LEInjective(a.leafId, b.leafId, 4);
    }
  }

  /** The handler's own length check. */
  predicate EqualLengths(leaf: RefundLeaf)
  {
    |leaf.refundAccounts| == |leaf.refundAmounts|
  }

  /** On leaves that pass the handler's length check the bytes determine the leaf. */
  lemma EqualLengthLeafInjective(a: RefundLeaf, b: RefundLeaf)
    requires EqualLengths(a) && EqualLengths(b)
    requires RefundLeafBytes(a) == RefundLeafBytes(b)
    ensures a == b
  {
    RefundLeafSize(a);
    RefundLeafSize(b);
    RefundLeafInjective(a, b);
  }

  predicate AllZero(b: Bytes)
  {
    forall i :: 0 <= i < |b| ==> b[i] == 0
  }

  lemma {:induction false} ConcatZero(parts: seq<Bytes>)
    requires forall i :: 0 <= i < |parts| ==> AllZero(parts[i])
    ensures AllZero(Concat(parts))
  {
    if parts != [] {
      ConcatZero(parts[1..]);
    }
  }

  lemma {:induction false} LEZero(k: nat)
    ensures AllZero(LE(0, k))
  {
    if k > 0 {
      LEZero(k - 1);
    }
  }

  /** Without that check the encoding is ambiguous: four amounts weigh as much as one account. */
  lemma UnequalLengthsAreAmbiguous(zero: Pubkey)
    requires AllZero(zero)
    ensures var a := RefundLeaf(0, 0, [0, 0, 0, 0], 0, zero, []);
            var b := RefundLeaf(0, 0, [], 0, zero, [zero]);
            a != b && RefundLeafBytes(a) == RefundLeafBytes(b) && !EqualLengths(a) && !EqualLengths(b)
  {
    var a, b := RefundLeaf(0, 0, [0, 0, 0, 0], 0, zero, []), RefundLeaf(0, 0, [], 0, zero, [zero]);
    LEZero(4);
    LEZero(8);
    ConcatZero(RefundLeafParts(a));
    ConcatZero(RefundLeafParts(b));
    RefundLeafSize(a);
    RefundLeafSize(b);
  }

  // ---------- The leaves of a mixed bundle tree ----------

  type Uint256 = n: nat | n < Pow256(32) witness 0

  /** A refund leaf for an EVM chain; an address is its 160-bit value. */
  datatype EvmRefundLeaf = EvmRefundLeaf(
    amountToReturn: Uint256, chainId: Uint256, refundAmounts: seq<Uint256>,
    leafId: Uint256, l2TokenAddress: Uint256, refundAddresses: seq<Uint256>)

  function AbiWords(values: seq<nat>): (words: seq<Bytes>)
    ensures |words| == |values|
    ensures forall i :: 0 <= i < |words| ==> |words[i]| == 32
  {
    seq(|values|, i requires 0 <= i < |values| => BE(values[i], 32))
  }

  /** The words of the one dynamic tuple: its offset, six head words and the two arrays. */
  function EvmLeafWords(leaf: EvmRefundLeaf): (words: seq<nat>)
    ensures |words| == 9 + |leaf.refundAmounts| + |leaf.refundAddresses|
  {
    var amountsTail := 32 + 32 * |leaf.refundAmounts|;
    [32, leaf.amountToReturn, leaf.chainId, 192, leaf.leafId, leaf.l2TokenAddress, 192 + amountsTail]
    + [|leaf.refundAmounts|] + leaf.refundAmounts
    + [|leaf.refundAddresses|] + leaf.refundAddresses
  }

  /** The array that starts at a word: its length and then its elements. */
  function ArrayAt(words: seq<nat>, at: nat): Option<seq<nat>>
  {
    if at < |words| && at + 1 + words[at] <= |words| then Some(words[at + 1..at + 1 + words[at]]) else None
  }

  /** Read as the Contract ABI Specification has it, offsets in bytes from the tuple's head, the fields come back. */
  lemma EvmLeafReadsBack(leaf: EvmRefundLeaf)
    ensures var words := EvmLeafWords(leaf);
            var head := words[0] / 32;
            && |words| >= head + 6
            && words[head] == leaf.amountToReturn && words[head + 1] == leaf.chainId
            && ArrayAt(words, head + words[head + 2] / 32) == Some(leaf.refundAmounts)
            && words[head + 3] == leaf.leafId && words[head + 4] == leaf.l2TokenAddress
            && ArrayAt(words, head + words[head + 5] / 32) == Some(leaf.refundAddresses)
  {
    var words, n, m := EvmLeafWords(leaf), |leaf.refundAmounts|, |leaf.refundAddresses|;
    assert words[6] == 32 * (7 + n) && (32 * (7 + n)) / 32 == 7 + n;
    assert words[7] == n && words[8..8 + n] == leaf.refundAmounts;
    assert words[8 + n] == m && words[9 + n..9 + n + m] == leaf.refundAddresses;
  }

  function EvmLeafBytes(leaf: EvmRefundLeaf): Bytes
  {
    Concat(AbiWords(EvmLeafWords(leaf)))
  }

  datatype BundleLeaf = SolanaLeaf(solana: RefundLeaf) | EvmLeaf(evm: EvmRefundLeaf)

  function BundleLeafBytes(leaf: BundleLeaf): Bytes
  {
    match leaf
    case SolanaLeaf(solana) => RefundLeafBytes(solana)
    case EvmLeaf(evm) => EvmLeafBytes(evm)
  }

  lemma EvmLeafSize(leaf: EvmRefundLeaf)
    ensures |EvmLeafBytes(leaf)| == 32 * (9 + |leaf.refundAmounts| + |leaf.refundAddresses|)
  {
    ConcatUniform(AbiWords(EvmLeafWords(leaf)), 32);
  }

  lemma SizesApart(n: nat, m: nat)
    ensures (52 + 8 * n + 32 * m) % 8 == 4
    ensures (32 * (9 + n + m)) % 8 == 0 && 32 * (9 + n + m) > 64
  {
    assert 52 + 8 * n + 32 * m == 8 * (6 + n + 4 * m) + 4;
    assert 32 * (9 + n + m) == 8 * (4 * (9 + n + m));
  }

  /** Inner nodes hash 64 bytes; no leaf of any kind is that long, and the kinds differ modulo 8. */
  lemma DomainSeparation(leaf: BundleLeaf)
    ensures |BundleLeafBytes(leaf)| != 64
    ensures |BundleLeafBytes(leaf)| % 8 == if leaf.SolanaLeaf? then 4 else 0
  {
    match leaf
    case SolanaLeaf(solana) =>
      RefundLeafSize(solana);
      SizesApart(|solana.refundAmounts|, |solana.refundAccounts|);
    case EvmLeaf(evm) =>
      EvmLeafSize(evm);
      SizesApart(|evm.refundAmounts|, |evm.refundAddresses|);
  }
}
