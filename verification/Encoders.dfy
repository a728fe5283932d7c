/** The on-chain encoders, which append to a buffer, and the client's, which concatenate checked fields. */
module Encoders {
  import opened Binary
  import opened Leaves
  import opened Results

  // ---------- On chain ----------

  /** A growing byte vector; parts remembers what was appended. */
  class ByteBuffer {
    var bytes: Bytes
    ghost var parts: seq<Bytes>

    ghost predicate Valid()
      reads this
    {
      bytes == Concat(parts)
    }

    constructor ()
      ensures Valid() && parts == []
    {
      bytes, parts := [], [];
    }

    method ExtendFromSlice(slice: Bytes)
      requires Valid()
      modifies this
      ensures Valid() && parts == old(parts) + [slice]
    {
      ConcatSnoc(parts, slice);
      bytes := bytes + slice;
      parts := parts + [slice];
    }
  }

  method RefundLeafToBytes(leaf: RefundLeaf) returns (bytes: Bytes)
    ensures bytes == RefundLeafBytes(leaf)
  {
    var buffer := new ByteBuffer();
    buffer.ExtendFromSlice(LE(leaf.amountToReturn, 8));
    buffer.ExtendFromSlice(LE(leaf.chainId, 8));
    ghost var front := buffer.parts;
    ghost var amounts := AmountParts(leaf.refundAmounts);
    for i := 0 to |leaf.refundAmounts|
      invariant buffer.Valid() && buffer.parts == front + amounts[..i]
    {
      buffer.ExtendFromSlice(LE(leaf.refundAmounts[i], 8));
      assert amounts[..i + 1] == amounts[..i] + [amounts[i]];
    }
    assert amounts[..|amounts|] == amounts;
    buffer.ExtendFromSlice(LE(leaf.leafId, 4));
    buffer.ExtendFromSlice(leaf.mint);
    ghost var middle := buffer.parts;
    for i := 0 to |leaf.refundAccounts|
      invariant buffer.Valid() && buffer.parts == middle + leaf.refundAccounts[..i]
    {
      buffer.ExtendFromSlice(leaf.refundAccounts[i]);
      assert leaf.refundAccounts[..i + 1] == leaf.refundAccounts[..i] + [leaf.refundAccounts[i]];
    }
    assert leaf.refundAccounts[..|leaf.refundAccounts|] == leaf.refundAccounts;
    assert buffer.parts == RefundLeafParts(leaf);
    bytes := buffer.bytes;
  }

  method AppendHeader(buffer: ByteBuffer, rd: RelayData)
    requires buffer.Valid() && buffer.parts == []
    modifies buffer
    ensures buffer.Valid() && buffer.parts == Header(rd)
  {
    buffer.ExtendFromSlice(rd.depositor);
    buffer.ExtendFromSlice(rd.recipient);
    buffer.ExtendFromSlice(rd.exclusiveRelayer);
    buffer.ExtendFromSlice(rd.inputToken);
    buffer.ExtendFromSlice(rd.outputToken);
    buffer.ExtendFromSlice(LE(rd.inputAmount, 8));
    buffer.ExtendFromSlice(LE(rd.outputAmount, 8));
    buffer.ExtendFromSlice(LE(rd.originChainId, 8));
    buffer.ExtendFromSlice(LE(rd.depositId, 4));
    buffer.ExtendFromSlice(LE(rd.fillDeadline, 4));
    buffer.ExtendFromSlice(LE(rd.exclusivityDeadline, 4));
    assert buffer.parts == Header(rd);
  }

  method SlowFillToBytes(rd: RelayData, chainId: u64, updatedOutputAmount: u64) returns (bytes: Bytes)
    ensures bytes == SlowFillBytes(rd, chainId, updatedOutputAmount)
  {
    var buffer := new ByteBuffer();
    AppendHeader(buffer, rd);
    buffer.ExtendFromSlice(rd.message);
    buffer.ExtendFromSlice(LE(chainId, 8));
    buffer.ExtendFromSlice(LE(updatedOutputAmount, 8));
    assert buffer.parts == Header(rd) + [rd.message, LE(chainId, 8), LE(updatedOutputAmount, 8)];
    bytes := buffer.bytes;
  }

  method GetV3RelayHash(h: Hasher, rd: RelayData, chainId: u64) returns (hash: Hash)
    ensures hash == h(RelayPreimage(rd, chainId))
  {
    var buffer := new ByteBuffer();
    AppendHeader(buffer, rd);
    buffer.ExtendFromSlice(LE(|rd.message|, 4));
    buffer.ExtendFromSlice(rd.message);
    buffer.ExtendFromSlice(LE(chainId, 8));
    assert buffer.parts == Header(rd) + [LE(|rd.message|, 4), rd.message, LE(chainId, 8)];
    hash := h(buffer.bytes);
  }

  // ---------- Off chain ----------

  /** The client's numbers are unbounded; conversion to a buffer throws when they do not fit. */
  datatype ClientRelayData = ClientRelayData(
    keys: RelayData, // only its five keys are read
    inputAmount: nat, outputAmount: nat, originChainId: nat,
    depositId: nat, fillDeadline: nat, exclusivityDeadline: nat,
    message: Bytes)

  datatype ClientRefundLeaf = ClientRefundLeaf(
    amountToReturn: nat, chainId: nat, refundAmounts: seq<nat>,
    leafId: nat, mint: Pubkey, refundAccounts: seq<Pubkey>)

  function ToArrayLikeLE(n: nat, k: nat): Option<Bytes>
  {
    if n < Pow256(k) then Some(LE(n, k)) else None
  }

  /** Buffer.concat over the converted amounts. */
  function ClientAmounts(amounts: seq<nat>): Option<Bytes>
  {
    if amounts == [] then Some([])
    else
      var first :- ToArrayLikeLE(amounts[0], 8);
      var rest :- ClientAmounts(amounts[1..]);
      Some(first + rest)
  }

  function ClientRefundLeafBytes(leaf: ClientRefundLeaf): Option<Bytes>
  {
    var amounts :- ClientAmounts(leaf.refundAmounts);
    var accounts := Concat(leaf.refundAccounts);
    var amountToReturn :- ToArrayLikeLE(leaf.amountToReturn, 8);
    var chainId :- ToArrayLikeLE(leaf.chainId, 8);
    var leafId :- ToArrayLikeLE(leaf.leafId, 4);
    Some(Concat([amountToReturn, chainId, amounts, leafId, leaf.mint, accounts]))
  }

  predicate RefundLeafInRange(leaf: ClientRefundLeaf)
  {
    && leaf.amountToReturn <= U64_MAX && leaf.chainId <= U64_MAX && leaf.leafId <= U32_MAX
    && forall i :: 0 <= i < |leaf.refundAmounts| ==> leaf.refundAmounts[i] <= U64_MAX
  }

  function OnChainAmounts(amounts: seq<nat>): (r: seq<u64>)
    requires forall i :: 0 <= i < |amounts| ==> amounts[i] <= U64_MAX
  {
    seq(|amounts|, i requires 0 <= i < |amounts| => amounts[i])
  }

  function OnChainLeaf(leaf: ClientRefundLeaf): RefundLeaf
    requires RefundLeafInRange(leaf)
  {
    RefundLeaf(leaf.amountToReturn, leaf.chainId, OnChainAmounts(leaf.refundAmounts), leaf.leafId, leaf.mint,
               leaf.refundAccounts)
  }

  lemma {:induction false} ClientAmountsAgree(amounts: seq<nat>)
    ensures ClientAmounts(amounts).Some? <==> forall i :: 0 <= i < |amounts| ==> amounts[i] <= U64_MAX
    ensures ClientAmounts(amounts).Some? ==>
              ClientAmounts(amounts).value == Concat(AmountParts(OnChainAmounts(amounts)))
  {
    Pow256Values();
    if amounts != [] {
      ClientAmountsAgree(amounts[1..]);
      if ClientAmounts(amounts).Some? {
        assert forall i :: 0 <= i < |amounts[1..]| ==> amounts[1..][i] == amounts[i + 1];
        assert AmountParts(OnChainAmounts(amounts))[1..] == AmountParts(OnChainAmounts(amounts[1..]));
      } else {
        assert amounts[0] > U64_MAX || exists i :: 0 <= i < |amounts[1..]| && amounts[1..][i] > U64_MAX;
        assert forall i :: 0 <= i < |amounts[1..]| ==> amounts[1..][i] == amounts[i + 1];
      }
      assert forall i :: 1 <= i < |amounts| ==> amounts[i] == amounts[1..][i - 1];
    }
  }

  /** The client encodes a leaf exactly when every field fits, and then byte for byte as the program does. */
  lemma ClientRefundLeafAgrees(leaf: ClientRefundLeaf)
    ensures ClientRefundLeafBytes(leaf).Some? <==> RefundLeafInRange(leaf)
    ensures RefundLeafInRange(leaf) ==>
              ClientRefundLeafBytes(leaf) == Some(RefundLeafBytes(OnChainLeaf(leaf)))
  {
    Pow256Values();
    ClientAmountsAgree(leaf.refundAmounts);
    if RefundLeafInRange(leaf) {
      var l := OnChainLeaf(leaf);
      var front, middle := [LE(l.amountToReturn, 8), LE(l.chainId, 8)], [LE(l.leafId, 4), l.mint];
      var amounts := AmountParts(l.refundAmounts);
      ConcatAppend(front + amounts + middle, l.refundAccounts);
      ConcatAppend(front + amounts, middle);
      ConcatAppend(front, amounts);
      var nested := front + [Concat(amounts)] + middle + [Concat(l.refundAccounts)];
      ConcatSnoc(front + [Concat(amounts)] + middle, Concat(l.refundAccounts));
      ConcatAppend(front + [Concat(amounts)], middle);
      ConcatSnoc(front, Concat(amounts));
      assert nested == [LE(l.amountToReturn, 8), LE(l.chainId, 8), Concat(amounts), LE(l.leafId, 4), l.mint,
                        Concat(l.refundAccounts)];
    }
  }

  predicate RelayDataInRange(rd: ClientRelayData)
  {
    && rd.inputAmount <= U64_MAX && rd.outputAmount <= U64_MAX && rd.originChainId <= U64_MAX
    && rd.depositId <= U32_MAX && rd.fillDeadline <= U32_MAX && rd.exclusivityDeadline <= U32_MAX
  }

  function OnChainRelayData(rd: ClientRelayData): RelayData
    requires RelayDataInRange(rd) && |rd.message| <= U32_MAX
  {
    rd.keys.(inputAmount := rd.inputAmount, outputAmount := rd.outputAmount, originChainId := rd.originChainId,
             depositId := rd.depositId, fillDeadline := rd.fillDeadline,
             exclusivityDeadline := rd.exclusivityDeadline, message := rd.message)
  }

  /** The eleven fields both clients put before the message. */
  function ClientHeader(rd: ClientRelayData): Option<seq<Bytes>>
  {
    var inputAmount :- ToArrayLikeLE(rd.inputAmount, 8);
    var outputAmount :- ToArrayLikeLE(rd.outputAmount, 8);
    var originChainId :- ToArrayLikeLE(rd.originChainId, 8);
    var depositId :- ToArrayLikeLE(rd.depositId, 4);
    var fillDeadline :- ToArrayLikeLE(rd.fillDeadline, 4);
    var exclusivityDeadline :- ToArrayLikeLE(rd.exclusivityDeadline, 4);
    Some([rd.keys.depositor, rd.keys.recipient, rd.keys.exclusiveRelayer, rd.keys.inputToken, rd.keys.outputToken,
          inputAmount, outputAmount, originChainId, depositId, fillDeadline, exclusivityDeadline])
  }

  /** calculateRelayHashUint8Array, up to the hash. */
  function ClientRelayPreimage(rd: ClientRelayData, chainId: nat): Option<Bytes>
  {
    var messageLength :- ToArrayLikeLE(|rd.message|, 4);
    var header :- ClientHeader(rd);
    var chain :- ToArrayLikeLE(chainId, 8);
    Some(Concat(header + [messageLength, rd.message, chain]))
  }

  /** slowFillHashFn, up to the hash. */
  function ClientSlowFillBytes(rd: ClientRelayData, chainId: nat, updatedOutputAmount: nat): Option<Bytes>
  {
    var header :- ClientHeader(rd);
    var chain :- ToArrayLikeLE(chainId, 8);
    var updated :- ToArrayLikeLE(updatedOutputAmount, 8);
    Some(Concat(header + [rd.message, chain, updated]))
  }

  lemma ClientHeaderAgrees(rd: ClientRelayData)
    ensures ClientHeader(rd).Some? <==> RelayDataInRange(rd)
    ensures RelayDataInRange(rd) && |rd.message| <= U32_MAX ==>
              ClientHeader(rd) == Some(Header(OnChainRelayData(rd)))
  {
    Pow256Values();
    if RelayDataInRange(rd) && |rd.message| <= U32_MAX {
      assert ClientHeader(rd).value == Header(OnChainRelayData(rd));
    }
  }

  lemma ClientRelayDataAgrees(rd: ClientRelayData, chainId: nat, updatedOutputAmount: nat)
    ensures ClientRelayPreimage(rd, chainId).Some?
            <==> RelayDataInRange(rd) && |rd.message| <= U32_MAX && chainId <= U64_MAX
    ensures ClientRelayPreimage(rd, chainId).Some? ==>
              ClientRelayPreimage(rd, chainId).value == RelayPreimage(OnChainRelayData(rd), chainId)
    ensures ClientSlowFillBytes(rd, chainId, updatedOutputAmount).Some?
            <==> RelayDataInRange(rd) && chainId <= U64_MAX && updatedOutputAmount <= U64_MAX
    ensures ClientSlowFillBytes(rd, chainId, updatedOutputAmount).Some? && |rd.message| <= U32_MAX ==>
              ClientSlowFillBytes(rd, chainId, updatedOutputAmount).value
              == SlowFillBytes(OnChainRelayData(rd), chainId, updatedOutputAmount)
  {
    Pow256Values();
    ClientHeaderAgrees(rd);
  }
}
