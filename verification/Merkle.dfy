/**
 Sorted-pair Merkle trees, over a hash about which nothing is assumed. Soundness therefore says:
 the leaf is in the tree, or here is an explicit pair of distinct byte strings with equal hash.
 */
module Merkle {
  import opened Binary

  /** A binary tree of any shape; leaves carry the bytes that are hashed. */
  datatype Tree = Leaf(data: Bytes) | Node(left: Tree, right: Tree)

  /** The 64 bytes hashed for an inner node: the smaller child hash first. */
  function PairBytes(a: Hash, b: Hash): (r: Bytes)
    ensures |r| == 64
  {
    if Less(a, b) then a + b else b + a
  }

  function CommutativeKeccak(h: Hasher, a: Hash, b: Hash): Hash
  {
    h(PairBytes(a, b))
  }

  lemma PairBytesSymmetric(a: Hash, b: Hash)
    ensures PairBytes(a, b) == PairBytes(b, a)
  {
    LessTrichotomy(a, b);
  }

  /** The child hash that is the smaller number comes first, whichever way the children are given. */
  lemma PairBytesSorted(a: Hash, b: Hash)
    requires FromBE(a) <= FromBE(b)
    ensures PairBytes(a, b) == a + b && PairBytes(b, a) == a + b
  {
    LessIsNumeric(a, b);
    LessIsNumeric(b, a);
    if FromBE(a) == FromBE(b) {
      BEOfFromBE(a);
      BEOfFromBE(b);
    }
  }

  lemma PairBytesInjective(a: Hash, b: Hash, c: Hash, d: Hash)
    requires PairBytes(a, b) == PairBytes(c, d)
    ensures (a == c && b == d) || (a == d && b == c)
  {
    var x, y := PairBytes(a, b), PairBytes(c, d);
    assert (x[..32] == a && x[32..] == b) || (x[..32] == b && x[32..] == a);
    assert (y[..32] == c && y[32..] == d) || (y[..32] == d && y[32..] == c);
  }

  function Root(h: Hasher, t: Tree): Hash
  {
    match t
    case Leaf(data) => h(data)
    case Node(l, r) => CommutativeKeccak(h, Root(h, l), Root(h, r))
  }

  function Leaves(t: Tree): seq<Bytes>
  {
    match t
    case Leaf(data) => [data]
    case Node(l, r) => Leaves(l) + Leaves(r)
  }

  /** Every byte string hashed while building the tree. */
  function TreePreimages(h: Hasher, t: Tree): set<Bytes>
  {
    match t
    case Leaf(data) => {data}
    case Node(l, r) => {PairBytes(Root(h, l), Root(h, r))} + TreePreimages(h, l) + TreePreimages(h, r)
  }

  /** The hash a proof folds a leaf hash to; the last proof element is the one nearest the root. */
  function ProcessProof(h: Hasher, leaf: Hash, proof: seq<Hash>): Hash
  {
    if proof == [] then leaf
    else
      var last := |proof| - 1;
      CommutativeKeccak(h, ProcessProof(h, leaf, proof[..last]), proof[last])
  }

  /** A proof element is hashed with what is below it, the smaller number first. */
  lemma ProofStep(h: Hasher, leaf: Hash, proof: seq<Hash>, sibling: Hash)
    ensures ProcessProof(h, leaf, []) == leaf
    ensures var below := ProcessProof(h, leaf, proof);
            ProcessProof(h, leaf, proof + [sibling])
            == if FromBE(below) <= FromBE(sibling) then h(below + sibling) else h(sibling + below)
  {
    var below := ProcessProof(h, leaf, proof);
    assert (proof + [sibling])[..|proof|] == proof;
    if FromBE(below) <= FromBE(sibling) {
      PairBytesSorted(below, sibling);
    } else {
      PairBytesSorted(sibling, below);
    }
  }

  /** The root of two children hashes them with the smaller number first. */
  lemma RootOfNode(h: Hasher, l: Tree, r: Tree)
    ensures Root(h, Node(l, r)) == if FromBE(Root(h, l)) <= FromBE(Root(h, r)) then h(Root(h, l) + Root(h, r))
                                   else h(Root(h, r) + Root(h, l))
  {
    if FromBE(Root(h, l)) <= FromBE(Root(h, r)) {
      PairBytesSorted(Root(h, l), Root(h, r));
    } else {
      PairBytesSorted(Root(h, r), Root(h, l));
    }
  }

  method ProcessProofLoop(h: Hasher, proof: seq<Hash>, leaf: Hash) returns (computed: Hash)
    ensures computed == ProcessProof(h, leaf, proof)
  {
    computed := leaf;
    for i := 0 to |proof|
      invariant computed == ProcessProof(h, leaf, proof[..i])
    {
      assert proof[..i + 1][..i] == proof[..i];
      computed := CommutativeKeccak(h, computed, proof[i]);
    }
    assert proof[..|proof|] == proof;
  }

  /** Every byte string hashed while checking a proof for the leaf bytes x. */
  function ProofPreimages(h: Hasher, x: Bytes, proof: seq<Hash>): set<Bytes>
  {
    if proof == [] then {x}
    else
      var last := |proof| - 1;
      {PairBytes(ProcessProof(h, h(x), proof[..last]), proof[last])} + ProofPreimages(h, x, proof[..last])
  }

  /** What the extractor finds in a tree and an accepted proof. */
  datatype Finding = Member | Collides(x: Bytes, y: Bytes)

  /** Walks the tree and the proof down from the root, in step, until they part. */
  function Extract(h: Hasher, t: Tree, x: Bytes, proof: seq<Hash>): Finding
  {
    var mine := if proof == [] then x
                else PairBytes(ProcessProof(h, h(x), proof[..|proof| - 1]), proof[|proof| - 1]);
    match t
    case Leaf(data) => if proof == [] && data == x then Member else Collides(mine, data)
    case Node(l, r) =>
      var node := PairBytes(Root(h, l), Root(h, r));
      if proof == [] || mine != node then Collides(mine, node)
      else if ProcessProof(h, h(x), proof[..|proof| - 1]) == Root(h, l)
      then Extract(h, l, x, proof[..|proof| - 1])
      else Extract(h, r, x, proof[..|proof| - 1])
  }

  /** Soundness with domain separation: leaves are never 64 bytes long, so no inner node passes as a leaf. */
  lemma {:induction false} Soundness(h: Hasher, t: Tree, x: Bytes, proof: seq<Hash>)
    requires ProcessProof(h, h(x), proof) == Root(h, t)
    requires |x| != 64
    requires forall d :: d in Leaves(t) ==> |d| != 64
    ensures match Extract(h, t, x, proof)
            case Member => x in Leaves(t)
            case Collides(u, v) =>
              && Collision(h, u, v)
              && u in ProofPreimages(h, x, proof)
              && v in TreePreimages(h, t)
  {
    if t.Node? && proof != [] {
      var rest := proof[..|proof| - 1];
      var below := ProcessProof(h, h(x), rest);
      var l, r := Root(h, t.left), Root(h, t.right);
      if PairBytes(below, proof[|proof| - 1]) == PairBytes(l, r) {
        PairBytesInjective(below, proof[|proof| - 1], l, r);
        Soundness(h, if below == l then t.left else t.right, x, rest);
      }
    } else if t.Leaf? {
      assert t.data in Leaves(t);
    }
  }

  /** If nothing hashed in the tree or for the proof collides, an accepted leaf is one of the tree's. */
  lemma AcceptedIsMember(h: Hasher, t: Tree, x: Bytes, proof: seq<Hash>, hashed: set<Bytes>)
    requires ProcessProof(h, h(x), proof) == Root(h, t)
    requires |x| != 64
    requires forall d :: d in Leaves(t) ==> |d| != 64
    requires ProofPreimages(h, x, proof) + TreePreimages(h, t) <= hashed
    requires CollisionFree(h, hashed)
    ensures x in Leaves(t)
  {
    Soundness(h, t, x, proof);
  }

  /** A leaf of t together with its list of siblings, nearest the root last. */
  predicate Proves(h: Hasher, t: Tree, x: Bytes, proof: seq<Hash>)
  {
    match t
    case Leaf(data) => data == x && proof == []
    case Node(l, r) =>
      && proof != []
      && var rest, last := proof[..|proof| - 1], proof[|proof| - 1];
      || (last == Root(h, r) && Proves(h, l, x, rest))
      || (last == Root(h, l) && Proves(h, r, x, rest))
  }

  lemma {:induction false} ProvesFolds(h: Hasher, t: Tree, x: Bytes, proof: seq<Hash>)
    requires Proves(h, t, x, proof)
    ensures ProcessProof(h, h(x), proof) == Root(h, t)
  {
    if t.Node? {
      var rest, last := proof[..|proof| - 1], proof[|proof| - 1];
      PairBytesSymmetric(Root(h, t.left), Root(h, t.right));
      if last == Root(h, t.right) && Proves(h, t.left, x, rest) {
        ProvesFolds(h, t.left, x, rest);
      } else {
        ProvesFolds(h, t.right, x, rest);
      }
    }
  }

  /** The siblings of the leaf numbered i from the left. */
  function ProofOf(h: Hasher, t: Tree, i: nat): seq<Hash>
    requires i < |Leaves(t)|
  {
    match t
    case Leaf(_) => []
    case Node(l, r) =>
      if i < |Leaves(l)| then ProofOf(h, l, i) + [Root(h, r)]
      else ProofOf(h, r, i - |Leaves(l)|) + [Root(h, l)]
  }

  /** Completeness: every leaf of every tree has a proof that the program accepts. */
  lemma {:induction false} Completeness(h: Hasher, t: Tree, i: nat)
    requires i < |Leaves(t)|
    ensures Proves(h, t, Leaves(t)[i], ProofOf(h, t, i))
    ensures ProcessProof(h, h(Leaves(t)[i]), ProofOf(h, t, i)) == Root(h, t)
  {
    if t.Node? {
      var p := ProofOf(h, t, i);
      if i < |Leaves(t.left)| {
        Completeness(h, t.left, i);
        assert p[..|p| - 1] == ProofOf(h, t.left, i);
      } else {
        Completeness(h, t.right, i - |Leaves(t.left)|);
        assert p[..|p| - 1] == ProofOf(h, t.right, i - |Leaves(t.left)|);
      }
    }
    ProvesFolds(h, t, Leaves(t)[i], ProofOf(h, t, i));
  }

  /** The tree with the children of the node at the end of a path exchanged; true goes left. */
  function SwapAt(t: Tree, path: seq<bool>): Tree
  {
    match t
    case Leaf(_) => t
    case Node(l, r) =>
      if path == [] then Node(r, l)
      else if path[0] then Node(SwapAt(l, path[1..]), r)
      else Node(l, SwapAt(r, path[1..]))
  }

  lemma {:induction false} SwapKeepsRoot(h: Hasher, t: Tree, path: seq<bool>)
    ensures Root(h, SwapAt(t, path)) == Root(h, t)
  {
    if t.Node? {
      if path == [] {
        PairBytesSymmetric(Root(h, t.left), Root(h, t.right));
      } else {
        SwapKeepsRoot(h, if path[0] then t.left else t.right, path[1..]);
      }
    }
  }

  /** Exchanging siblings anywhere leaves the root and exactly the same proofs. */
  lemma {:induction false} SwapKeepsProofs(h: Hasher, t: Tree, path: seq<bool>, x: Bytes, proof: seq<Hash>)
    ensures Root(h, SwapAt(t, path)) == Root(h, t)
    ensures Proves(h, SwapAt(t, path), x, proof) <==> Proves(h, t, x, proof)
  {
    SwapKeepsRoot(h, t, path);
    if t.Node? && proof != [] && path != [] {
      var rest := proof[..|proof| - 1];
      SwapKeepsRoot(h, if path[0] then t.left else t.right, path[1..]);
      SwapKeepsProofs(h, if path[0] then t.left else t.right, path[1..], x, rest);
    }
  }
}
