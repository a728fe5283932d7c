/** Bytes, fixed-width integers and the two byte orders the program and its clients use. */
module Binary {

  newtype byte = x: int | 0 <= x < 256

  type Bytes = seq<byte>

  const U32_MAX := 0xFFFF_FFFF
  const U64_MAX := 0xFFFF_FFFF_FFFF_FFFF

  type u32 = x: int | 0 <= x <= 0xFFFF_FFFF
  type u64 = x: int | 0 <= x <= 0xFFFF_FFFF_FFFF_FFFF

  /** A 32-byte word: hashes, public keys and ABI arguments. */
  type Word = b: Bytes | |b| == 32 witness seq(32, _ => 0)

  type Hash = Word
  type Pubkey = Word

  /** A hash function on byte strings; nothing is assumed about it. */
  type Hasher = Bytes -> Hash

  function Zeros(n: nat): (b: Bytes)
    ensures |b| == n
  {
    if n == 0 then [] else [0] + Zeros(n - 1)
  }

  function Pow256(k: nat): (p: nat)
    ensures p > 0
  {
    if k == 0 then 1 else 256 * Pow256(k - 1)
  }

  lemma Pow256Values()
    ensures Pow256(4) == U32_MAX + 1
    ensures Pow256(8) == U64_MAX + 1
  {
    assert Pow256(4) == 256 * Pow256(3);
    assert Pow256(8) == 256 * (256 * (256 * (256 * Pow256(4))));
  }

  /** The k low-order bytes of n, least significant first. */
  function LE(n: nat, k: nat): (b: Bytes)
    ensures |b| == k
  {
    if k == 0 then [] else [(n % 256) as byte] + LE(n / 256, k - 1)
  }

  function FromLE(b: Bytes): nat
  {
    if b == [] then 0 else b[0] as nat + 256 * FromLE(b[1..])
  }

  lemma {:induction false} FromLEOfLE(n: nat, k: nat)
    requires n < Pow256(k)
    ensures FromLE(LE(n, k)) == n
  {
    if k > 0 {
      FromLEOfLE(n / 256, k - 1);
      assert LE(n, k)[1..] == LE(n / 256, k - 1);
    }
  }

  lemma {:induction false} LEOfFromLE(b: Bytes)
    ensures FromLE(b) < Pow256(|b|)
    ensures LE(FromLE(b), |b|) == b
  {
    if b != [] {
      LEOfFromLE(b[1..]);
      assert FromLE(b) / 256 == FromLE(b[1..]);
      assert b == [b[0]] + b[1..];
    }
  }

  lemma LEInjective(m: nat, n: nat, k: nat)
    requires m < Pow256(k) && n < Pow256(k)
    requires LE(m, k) == LE(n, k)
    ensures m == n
  {
    FromLEOfLE(m, k);
    FromLEOfLE(n, k);
  }

  /** The k low-order bytes of n, most significant first. */
  function BE(n: nat, k: nat): (b: Bytes)
    ensures |b| == k
  {
    if k == 0 then [] else BE(n / 256, k - 1) + [(n % 256) as byte]
  }

  function FromBE(b: Bytes): nat
  {
    if b == [] then 0 else 256 * FromBE(b[..|b| - 1]) + b[|b| - 1] as nat
  }

  lemma {:induction false} FromBEOfBE(n: nat, k: nat)
    requires n < Pow256(k)
    ensures FromBE(BE(n, k)) == n
  {
    if k > 0 {
      FromBEOfBE(n / 256, k - 1);
      assert BE(n, k)[..k - 1] == BE(n / 256, k - 1);
    }
  }

  lemma {:induction false} BEOfFromBE(b: Bytes)
    ensures FromBE(b) < Pow256(|b|)
    ensures BE(FromBE(b), |b|) == b
  {
    if b != [] {
      BEOfFromBE(b[..|b| - 1]);
      assert FromBE(b) / 256 == FromBE(b[..|b| - 1]);
      assert b == b[..|b| - 1] + [b[|b| - 1]];
    }
  }

  lemma {:induction false} FromBEAppend(a: Bytes, b: Bytes)
    ensures FromBE(a + b) == FromBE(a) * Pow256(|b|) + FromBE(b)
  {
    if b == [] {
      assert a + b == a;
    } else {
      FromBEAppend(a, b[..|b| - 1]);
      assert (a + b)[..|a + b| - 1] == a + b[..|b| - 1];
      ShiftByte(FromBE(a), Pow256(|b| - 1), FromBE(b[..|b| - 1]), b[|b| - 1] as nat);
    }
  }

  lemma ShiftByte(x: nat, y: nat, z: nat, digit: nat)
    ensures 256 * (x * y + z) + digit == x * (256 * y) + (256 * z + digit)
  {
  }

  /** Concatenation of a list of byte strings, in order. */
  function Concat(parts: seq<Bytes>): Bytes
  {
    if parts == [] then [] else parts[0] + Concat(parts[1..])
  }

  lemma {:induction false} ConcatAppend(p: seq<Bytes>, q: seq<Bytes>)
    ensures Concat(p + q) == Concat(p) + Concat(q)
  {
    if p == [] {
      assert p + q == q;
    } else {
      ConcatAppend(p[1..], q);
      assert (p + q)[0] == p[0] && (p + q)[1..] == p[1..] + q;
      var rest := Concat(p[1..]);
      assert p[0] + (rest + Concat(q)) == (p[0] + rest) + Concat(q);
    }
  }

  /** Equal concatenations of parts with pairwise equal sizes have equal parts. */
  lemma {:induction false} ConcatInjective(p: seq<Bytes>, q: seq<Bytes>)
    requires |p| == |q|
    requires forall i :: 0 <= i < |p| ==> |p[i]| == |q[i]|
    requires Concat(p) == Concat(q)
    ensures p == q
  {
    if p != [] {
      var a, b := Concat(p), Concat(q);
      assert p[0] == a[..|p[0]|] == q[0];
      assert Concat(p[1..]) == a[|p[0]|..] == Concat(q[1..]);
      ConcatInjective(p[1..], q[1..]);
      assert p == [p[0]] + p[1..] == [q[0]] + q[1..];
    }
  }

  /** The total size of equally sized parts. */
  lemma {:induction false} ConcatUniform(p: seq<Bytes>, k: nat)
    requires forall i :: 0 <= i < |p| ==> |p[i]| == k
    ensures |Concat(p)| == k * |p|
  {
    if p != [] {
      ConcatUniform(p[1..], k);
      assert k * |p| == k + k * (|p| - 1);
    }
  }

  /** Inserting a part between two lists of parts. */
  lemma ConcatSnoc(p: seq<Bytes>, b: Bytes)
    ensures Concat(p + [b]) == Concat(p) + b
  {
    ConcatAppend(p, [b]);
    assert Concat([b]) == b + Concat([]);
  }

  /** Lexicographic strict order on byte strings, as on Rust arrays. */
  predicate Less(a: Bytes, b: Bytes)
  {
    b != [] && (a == [] || a[0] < b[0] || (a[0] == b[0] && Less(a[1..], b[1..])))
  }

  /** The order is total and antisymmetric: exactly one of the three cases holds. */
  lemma {:induction false} LessTrichotomy(a: Bytes, b: Bytes)
    ensures a == b ==> !Less(a, b) && !Less(b, a)
    ensures a != b ==> Less(a, b) != Less(b, a)
  {
    if a != [] && b != [] && a[0] == b[0] {
      LessTrichotomy(a[1..], b[1..]);
      if a[1..] == b[1..] {
        assert a == [a[0]] + a[1..] == b;
      }
    }
  }

  /** The first byte is the most significant. */
  lemma FromBEHead(b: Bytes)
    requires b != []
    ensures FromBE(b) == b[0] as nat * Pow256(|b| - 1) + FromBE(b[1..])
    ensures FromBE(b[1..]) < Pow256(|b| - 1)
  {
    assert b == [b[0]] + b[1..];
    FromBEAppend([b[0]], b[1..]);
    BEOfFromBE(b[1..]);
    assert [b[0]][..0] == [] && FromBE([b[0]]) == b[0] as nat;
  }

  lemma LeadingDigitDecides(a: nat, b: nat, x: nat, y: nat, base: nat)
    requires x < base && y < base && a < b
    ensures a * base + x < b * base + y
  {
    assert (a + 1) * base <= b * base;
  }

  /** On strings of one length the order is the order of the numbers they stand for, most significant byte first. */
  lemma {:induction false} LessIsNumeric(a: Bytes, b: Bytes)
    requires |a| == |b|
    ensures Less(a, b) <==> FromBE(a) < FromBE(b)
  {
    if a != [] {
      FromBEHead(a);
      FromBEHead(b);
      LessIsNumeric(a[1..], b[1..]);
      var x, y, base := FromBE(a[1..]), FromBE(b[1..]), Pow256(|a| - 1);
      if a[0] < b[0] {
        LeadingDigitDecides(a[0] as nat, b[0] as nat, x, y, base);
      } else if b[0] < a[0] {
        LeadingDigitDecides(b[0] as nat, a[0] as nat, y, x, base);
      }
    }
  }

  /** x and y are distinct byte strings with the same hash. */
  ghost predicate Collision(h: Hasher, x: Bytes, y: Bytes)
  {
    x != y && h(x) == h(y)
  }

  /** No two of the byte strings in s collide. */
  ghost predicate CollisionFree(h: Hasher, s: set<Bytes>)
  {
    forall x, y :: x in s && y in s ==> !Collision(h, x, y)
  }
}
