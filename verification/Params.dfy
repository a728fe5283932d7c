/**
 The account in which a caller prepares the parameters of a refund execution: written in raw fragments,
 then read back by the program as one Borsh value.
 */
module Params {
  import opened Binary
  import opened Leaves
  import opened Results

  // ---------- Fragments ----------

  datatype Fragment = Fragment(offset: u32, bytes: Bytes)

  predicate Fits(data: Bytes, f: Fragment)
  {
    f.offset + |f.bytes| <= |data|
  }

  /** The account data after one write; a fragment that does not fit is refused whole. */
  function Write(data: Bytes, f: Fragment): (r: Bytes)
    ensures |r| == |data|
  {
    if Fits(data, f) then data[..f.offset] + f.bytes + data[f.offset + |f.bytes|..] else data
  }

  function WriteAll(data: Bytes, fragments: seq<Fragment>): (r: Bytes)
    ensures |r| == |data|
    decreases |fragments|
  {
    if fragments == [] then data else WriteAll(Write(data, fragments[0]), fragments[1..])
  }

  method WriteFragment(data: array<byte>, offset: u32, fragment: Bytes) returns (ok: bool)
    modifies data
    ensures ok <==> Fits(old(data[..]), Fragment(offset, fragment))
    ensures data[..] == Write(old(data[..]), Fragment(offset, fragment))
  {
    var end := offset + |fragment|;
    if end > data.Length {
      return false;
    }
    for i := 0 to |fragment|
      invariant forall k :: 0 <= k < data.Length ==>
        data[k] == if offset <= k < offset + i then fragment[k - offset] else old(data[k])
    {
      data[offset + i] := fragment[i];
    }
    ok := true;
  }

  /** The fragment says about its range what the target says. */
  predicate Agrees(target: Bytes, f: Fragment)
  {
    Fits(target, f) ==> target[f.offset..f.offset + |f.bytes|] == f.bytes
  }

  /** Some fragment that fits a buffer of this size writes byte k. */
  predicate Covered(size: nat, fragments: seq<Fragment>, k: nat)
    decreases |fragments|
  {
    && fragments != []
    && var f := fragments[0];
    || f.offset <= k < f.offset + |f.bytes| <= size
    || Covered(size, fragments[1..], k)
  }

  lemma WriteAgreeing(data: Bytes, target: Bytes, f: Fragment, k: nat)
    requires |data| == |target| && k < |target| && Agrees(target, f)
    ensures Write(data, f)[k] ==
            if f.offset <= k < f.offset + |f.bytes| <= |target| then target[k] else data[k]
  {
    if Fits(target, f) && f.offset <= k < f.offset + |f.bytes| {
      assert target[f.offset..f.offset + |f.bytes|][k - f.offset] == target[k];
    }
  }

  /** Agreeing fragments of any size, in any order, with any overlap, write the target exactly where they reach. */
  lemma {:induction false} FragmentsWriteTarget(data: Bytes, target: Bytes, fragments: seq<Fragment>, k: nat)
    requires |data| == |target| && k < |target|
    requires forall f :: f in fragments ==> Agrees(target, f)
    ensures WriteAll(data, fragments)[k] == if Covered(|target|, fragments, k) then target[k] else data[k]
    decreases |fragments|
  {
    if fragments != [] {
      WriteAgreeing(data, target, fragments[0], k);
      FragmentsWriteTarget(Write(data, fragments[0]), target, fragments[1..], k);
    }
  }

  /** The buffer ends up equal to the target exactly when every byte was written or was right already. */
  lemma FragmentsReassemble(data: Bytes, target: Bytes, fragments: seq<Fragment>)
    requires |data| == |target|
    requires forall f :: f in fragments ==> Agrees(target, f)
    ensures WriteAll(data, fragments) == target
            <==> forall k :: 0 <= k < |target| && data[k] != target[k] ==> Covered(|target|, fragments, k)
  {
    forall k: nat | k < |target|
      ensures WriteAll(data, fragments)[k] == if Covered(|target|, fragments, k) then target[k] else data[k]
    {
      FragmentsWriteTarget(data, target, fragments, k);
    }
  }

  const MAX_FRAGMENT := 900

  /** The client's upload loop. */
  method Upload(account: array<byte>, params: Bytes)
    requires account.Length == |params| <= U32_MAX
    modifies account
    ensures account[..] == params
  {
    var i := 0;
    while i < |params|
      invariant forall k :: 0 <= k < |params| && k < i ==> account[k] == params[k]
    {
      var end := if i + MAX_FRAGMENT < |params| then i + MAX_FRAGMENT else |params|;
      var before := account[..];
      var ok := WriteFragment(account, i, params[i..end]);
      assert ok;
      assert forall k :: 0 <= k < end ==> account[..][k] == params[k];
      i := i + MAX_FRAGMENT;
    }
  }

  // ---------- The Borsh value in the account ----------

  datatype ExecuteParams = ExecuteParams(rootBundleId: u32, leaf: RefundLeaf, proof: seq<Hash>)

  /** Borsh vectors carry a four-byte length. */
  predicate Encodable(p: ExecuteParams)
  {
    |p.leaf.refundAmounts| <= U32_MAX && |p.leaf.refundAccounts| <= U32_MAX && |p.proof| <= U32_MAX
  }

  /** The leaf's Borsh fields, in order, followed by rest. */
  function LeafThen(leaf: RefundLeaf, rest: Bytes): Bytes
  {
    LE(leaf.amountToReturn, 8)
    + (LE(leaf.chainId, 8)
       + (LE(|leaf.refundAmounts|, 4)
          + (Concat(AmountParts(leaf.refundAmounts))
             + TargetsThen(leaf, rest))))
  }

  function TargetsThen(leaf: RefundLeaf, rest: Bytes): Bytes
  {
    LE(leaf.leafId, 4)
    + (leaf.mint
       + (LE(|leaf.refundAccounts|, 4)
          + (Concat(leaf.refundAccounts)
             + rest)))
  }

  /** The client's account encoding: the discriminator, then the Borsh fields; trailing bytes may follow. */
  function Serialize(discriminator: Bytes, p: ExecuteParams, trailing: Bytes): Bytes
  {
    discriminator
    + (LE(p.rootBundleId, 4)
       + LeafThen(p.leaf, LE(|p.proof|, 4) + (Concat(p.proof) + trailing)))
  }

  /** A value read from the front of the data, and what is left. */
  datatype Read<T> = Read(value: T, rest: Bytes)

  function Take(data: Bytes, n: nat): (r: Option<Read<Bytes>>)
    ensures r.Some? ==> |r.value.value| == n
  {
    if |data| < n then None else Some(Read(data[..n], data[n..]))
  }

  function TakeUint(data: Bytes, n: nat): (r: Option<Read<nat>>)
    ensures r.Some? ==> r.value.value < Pow256(n)
  {
    var bytes :- Take(data, n);
    LEOfFromLE(bytes.value);
    Some(Read(FromLE(bytes.value), bytes.rest))
  }

  function TakeParts(data: Bytes, count: nat, size: nat): (r: Option<Read<seq<Bytes>>>)
    ensures r.Some? ==> |r.value.value| == count
    ensures r.Some? ==> forall i :: 0 <= i < count ==> |r.value.value[i]| == size
    decreases count
  {
    if count == 0 then Some(Read([], data))
    else
      var first :- Take(data, size);
      var others :- TakeParts(first.rest, count - 1, size);
      Some(Read([first.value] + others.value, others.rest))
  }

  function U64s(parts: seq<Bytes>): (r: seq<u64>)
    requires forall i :: 0 <= i < |parts| ==> |parts[i]| == 8
    ensures |r| == |parts|
  {
    seq(|parts|, i requires 0 <= i < |parts| => Value64(parts[i]))
  }

  function Value64(part: Bytes): u64
    requires |part| == 8
  {
    LEOfFromLE(part);
    Pow256Values();
    FromLE(part)
  }

  function Words(parts: seq<Bytes>): (r: seq<Word>)
    requires forall i :: 0 <= i < |parts| ==> |parts[i]| == 32
    ensures r == parts
  {
    seq(|parts|, i requires 0 <= i < |parts| => parts[i])
  }

  /** The fields after the amounts. */
  datatype Targets = Targets(leafId: u32, mint: Pubkey, accounts: seq<Pubkey>)

  function TakeTargets(data: Bytes): Option<Read<Targets>>
  {
    Pow256Values();
    var leafId :- TakeUint(data, 4);
    var mint :- Take(leafId.rest, 32);
    var count :- TakeUint(mint.rest, 4);
    var accounts :- TakeParts(count.rest, count.value, 32);
    Some(Read(Targets(leafId.value, mint.value, Words(accounts.value)), accounts.rest))
  }

  function TakeLeaf(data: Bytes): Option<Read<RefundLeaf>>
  {
    Pow256Values();
    var amountToReturn :- TakeUint(data, 8);
    var chainId :- TakeUint(amountToReturn.rest, 8);
    var count :- TakeUint(chainId.rest, 4);
    var amounts :- TakeParts(count.rest, count.value, 8);
    var targets :- TakeTargets(amounts.rest);
    Some(Read(RefundLeaf(amountToReturn.value, chainId.value, U64s(amounts.value),
                         targets.value.leafId, targets.value.mint, targets.value.accounts),
              targets.rest))
  }

  /** Anchor's account deserialization: the discriminator, then the fields in order; what follows is ignored. */
  function Deserialize(discriminator: Bytes, data: Bytes): Option<ExecuteParams>
  {
    Pow256Values();
    var tag :- Take(data, |discriminator|);
    if tag.value != discriminator then None
    else
      var rootBundleId :- TakeUint(tag.rest, 4);
      var leaf :- TakeLeaf(rootBundleId.rest);
      var count :- TakeUint(leaf.rest, 4);
      var proof :- TakeParts(count.rest, count.value, 32);
      Some(ExecuteParams(rootBundleId.value, leaf.value, Words(proof.value)))
  }

  lemma TakeFront(a: Bytes, b: Bytes)
    ensures Take(a + b, |a|) == Some(Read(a, b))
  {
  }

  lemma TakeUintFront(n: nat, k: nat, b: Bytes)
    requires n < Pow256(k)
    ensures TakeUint(LE(n, k) + b, k) == Some(Read(n, b))
  {
    TakeFront(LE(n, k), b);
    FromLEOfLE(n, k);
  }

  lemma {:induction false} TakePartsFront(parts: seq<Bytes>, size: nat, b: Bytes)
    requires forall i :: 0 <= i < |parts| ==> |parts[i]| == size
    ensures TakeParts(Concat(parts) + b, |parts|, size) == Some(Read(parts, b))
  {
    if parts == [] {
      assert Concat(parts) + b == b;
    } else {
      TakePartsFront(parts[1..], size, b);
      assert Concat(parts) + b == parts[0] + (Concat(parts[1..]) + b);
      TakeFront(parts[0], Concat(parts[1..]) + b);
      assert parts == [parts[0]] + parts[1..];
    }
  }

  lemma U64sOfAmountParts(amounts: seq<u64>)
    ensures U64s(AmountParts(amounts)) == amounts
  {
    forall i | 0 <= i < |amounts|
      ensures Value64(AmountParts(amounts)[i]) == amounts[i]
    {
      Pow256Values();
      FromLEOfLE(amounts[i], 8);
    }
  }

  lemma TakeTargetsFront(leaf: RefundLeaf, rest: Bytes)
    requires |leaf.refundAccounts| <= U32_MAX
    ensures TakeTargets(TargetsThen(leaf, rest))
            == Some(Read(Targets(leaf.leafId, leaf.mint, leaf.refundAccounts), rest))
  {
    Pow256Values();
    var s3 := Concat(leaf.refundAccounts) + rest;
    var s2 := LE(|leaf.refundAccounts|, 4) + s3;
    var s1 := leaf.mint + s2;
    TakeUintFront(leaf.leafId, 4, s1);
    TakeFront(leaf.mint, s2);
    TakeUintFront(|leaf.refundAccounts|, 4, s3);
    TakePartsFront(leaf.refundAccounts, 32, rest);
  }

  lemma TakeLeafFront(leaf: RefundLeaf, rest: Bytes)
    requires |leaf.refundAmounts| <= U32_MAX && |leaf.refundAccounts| <= U32_MAX
    ensures TakeLeaf(LeafThen(leaf, rest)) == Some(Read(leaf, rest))
  {
    Pow256Values();
    var amounts := AmountParts(leaf.refundAmounts);
    var s4 := TargetsThen(leaf, rest);
    var s3 := Concat(amounts) + s4;
    var s2 := LE(|leaf.refundAmounts|, 4) + s3;
    var s1 := LE(leaf.chainId, 8) + s2;
    TakeUintFront(leaf.amountToReturn, 8, s1);
    TakeUintFront(leaf.chainId, 8, s2);
    TakeUintFront(|leaf.refundAmounts|, 4, s3);
    TakePartsFront(amounts, 8, s4);
    U64sOfAmountParts(leaf.refundAmounts);
    TakeTargetsFront(leaf, rest);
  }

  /** What the program reads is what the client serialized, whatever bytes follow it in the account. */
  lemma DeserializeOfSerialize(discriminator: Bytes, p: ExecuteParams, trailing: Bytes)
    requires Encodable(p)
    ensures Deserialize(discriminator, Serialize(discriminator, p, trailing)) == Some(p)
  {
    Pow256Values();
    var s3 := Concat(p.proof) + trailing;
    var s2 := LE(|p.proof|, 4) + s3;
    var s1 := LeafThen(p.leaf, s2);
    TakeFront(discriminator, LE(p.rootBundleId, 4) + s1);
    TakeUintFront(p.rootBundleId, 4, s1);
    TakeLeafFront(p.leaf, s2);
    TakeUintFront(|p.proof|, 4, s3);
    TakePartsFront(p.proof, 32, trailing);
  }

  /** Serialized, uploaded in fragments and deserialized: the program executes the prepared parameters. */
  method PrepareAndLoad(discriminator: Bytes, p: ExecuteParams) returns (loaded: Option<ExecuteParams>)
    requires Encodable(p) && |Serialize(discriminator, p, [])| <= U32_MAX
    ensures loaded == Some(p)
  {
    var bytes := Serialize(discriminator, p, []);
    var account := new byte[|bytes|](_ => 0);
    Upload(account, bytes);
    DeserializeOfSerialize(discriminator, p, []);
    loaded := Deserialize(discriminator, account[..]);
  }
}
