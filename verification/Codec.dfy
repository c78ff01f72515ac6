/** Byte order of keys and the fixed-width integers of the file formats. */
module Codec {
  import opened Ops

  // ------------------------------------------------------------ key comparison

  /** The result of `bytes.Compare`: lexicographic, a proper prefix first. */
  function Compare(a: Bytes, b: Bytes): int {
    if a == [] then (if b == [] then 0 else -1)
    else if b == [] then 1
    else if a[0] < b[0] then -1
    else if a[0] > b[0] then 1
    else Compare(a[1..], b[1..])
  }

  predicate Less(a: Bytes, b: Bytes) { Compare(a, b) < 0 }

  lemma {:induction false} CompareEq(a: Bytes, b: Bytes)
    ensures Compare(a, b) == 0 <==> a == b
  {
    if a != [] && b != [] && a[0] == b[0] {
      CompareEq(a[1..], b[1..]);
      assert a == [a[0]] + a[1..] && b == [b[0]] + b[1..];
    }
  }

  lemma {:induction false} CompareFlip(a: Bytes, b: Bytes)
    ensures Compare(a, b) == -Compare(b, a)
  {
    if a != [] && b != [] && a[0] == b[0] {
      CompareFlip(a[1..], b[1..]);
    }
  }

  lemma {:induction false} LessTrans(a: Bytes, b: Bytes, c: Bytes)
    requires Less(a, b) && Less(b, c)
    ensures Less(a, c)
  {
    if a != [] && b != [] && c != [] && a[0] == b[0] == c[0] {
      LessTrans(a[1..], b[1..], c[1..]);
    }
  }

  /** The order is total and strict. */
  lemma Trichotomy(a: Bytes, b: Bytes)
    ensures Less(a, b) <==> !Less(b, a) && a != b
  {
    CompareEq(a, b);
    CompareFlip(a, b);
  }

  // ------------------------------------------------------------ integers

  const U32 := 0x1_0000_0000
  const U64 := 0x1_0000_0000_0000_0000

  function Pow256(w: nat): (p: nat)
    ensures p > 0
  {
    if w == 0 then 1 else 256 * Pow256(w - 1)
  }

  lemma Powers()
    ensures Pow256(4) == U32 && Pow256(8) == U64
  {
    assert Pow256(2) == 65536;
    assert Pow256(4) == U32;
    assert Pow256(6) == U32 * 65536;
  }

  /** `binary.LittleEndian.PutUintN` of the low `w` bytes. */
  function LE(n: nat, w: nat): (s: Bytes)
    ensures |s| == w
  {
    if w == 0 then [] else [(n % 256) as byte] + LE(n / 256, w - 1)
  }

  function FromLE(s: Bytes): nat {
    if s == [] then 0 else s[0] as nat + 256 * FromLE(s[1..])
  }

  /** `binary.BigEndian.PutUintN` of the low `w` bytes. */
  function BE(n: nat, w: nat): (s: Bytes)
    ensures |s| == w
  {
    if w == 0 then [] else BE(n / 256, w - 1) + [(n % 256) as byte]
  }

  function FromBE(s: Bytes): nat {
    if s == [] then 0 else 256 * FromBE(s[..|s| - 1]) + s[|s| - 1] as nat
  }

  lemma {:induction false} FromToLE(n: nat, w: nat)
    requires n < Pow256(w)
    ensures FromLE(LE(n, w)) == n
  {
    if w > 0 {
      FromToLE(n / 256, w - 1);
      assert LE(n, w)[1..] == LE(n / 256, w - 1);
    }
  }

  lemma {:induction false} FromToBE(n: nat, w: nat)
    requires n < Pow256(w)
    ensures FromBE(BE(n, w)) == n
  {
    if w > 0 {
      FromToBE(n / 256, w - 1);
      assert BE(n, w)[..w - 1] == BE(n / 256, w - 1);
    }
  }

  /** A 4-byte field holds `n` modulo 2^32, so it reads back `n` below that. */
  lemma U32LE(n: nat)
    requires n < U32
    ensures FromLE(LE(n % U32, 4)) == n
  {
    Powers();
    hide Pow256, LE, FromLE, BE, FromBE;
    FromToLE(n, 4);
  }

  lemma U64LE(n: nat)
    requires n < U64
    ensures FromLE(LE(n % U64, 8)) == n
  {
    Powers();
    hide Pow256, LE, FromLE, BE, FromBE;
    FromToLE(n, 8);
  }

  lemma U32BE(n: nat)
    requires n < U32
    ensures FromBE(BE(n % U32, 4)) == n
  {
    Powers();
    hide Pow256, LE, FromLE, BE, FromBE;
    FromToBE(n, 4);
  }

  // --------------------------------------------- the same, byte by byte

  /** Four bytes, most significant first. */
  function Big32(s: Bytes): nat
    requires |s| == 4
  {
    0x100_0000 * s[0] as nat + 0x1_0000 * s[1] as nat + 0x100 * s[2] as nat + s[3] as nat
  }

  /** Four bytes, least significant first. */
  function Little32(s: Bytes): nat
    requires |s| == 4
  {
    s[0] as nat + 0x100 * s[1] as nat + 0x1_0000 * s[2] as nat + 0x100_0000 * s[3] as nat
  }

  function Little64(s: Bytes): nat
    requires |s| == 8
  {
    Little32(s[..4]) + 0x1_0000_0000 * Little32(s[4..])
  }

  /** What the readers make of a field is what its bytes mean. */
  lemma FromBEIs(s: Bytes)
    requires |s| == 4
    ensures FromBE(s) == Big32(s)
  {
    var a, b, c := s[..3], s[..2], s[..1];
    assert a[..2] == b && b[..1] == c && c[..0] == [];
    assert FromBE(c) == s[0] as nat;
    assert FromBE(b) == 256 * FromBE(c) + s[1] as nat;
    assert FromBE(a) == 256 * FromBE(b) + s[2] as nat;
  }

  lemma FromLEIs(s: Bytes)
    requires |s| == 4
    ensures FromLE(s) == Little32(s)
  {
    var a, b, c := s[1..], s[2..], s[3..];
    assert a[1..] == b && b[1..] == c && c[1..] == [];
    assert FromLE(c) == s[3] as nat;
    assert FromLE(b) == s[2] as nat + 256 * FromLE(c);
    assert FromLE(a) == s[1] as nat + 256 * FromLE(b);
  }

  lemma FromLE64Is(s: Bytes)
    requires |s| == 8
    ensures FromLE(s) == Little64(s)
  {
    var a, b, c, d := s[1..], s[2..], s[3..], s[4..];
    assert a[1..] == b && b[1..] == c && c[1..] == d;
    assert FromLE(c) == s[3] as nat + 256 * FromLE(d);
    assert FromLE(b) == s[2] as nat + 256 * FromLE(c);
    assert FromLE(a) == s[1] as nat + 256 * FromLE(b);
    FromLEIs(d);
  }

  /** What the writers put there means the number, modulo the width of the field. */
  lemma WritesBig32(n: nat)
    ensures Big32(BE(n % U32, 4)) == n % 0x1_0000_0000
  {
    hide BE, FromBE;
    FromBEIs(BE(n % U32, 4));
    U32BE(n % U32);
  }

  lemma WritesLittle32(n: nat)
    ensures Little32(LE(n % U32, 4)) == n % 0x1_0000_0000
  {
    hide LE, FromLE;
    FromLEIs(LE(n % U32, 4));
    U32LE(n % U32);
  }

  lemma WritesLittle64(n: nat)
    ensures Little64(LE(n % U64, 8)) == n % 0x1_0000_0000_0000_0000
  {
    hide LE, FromLE;
    FromLE64Is(LE(n % U64, 8));
    U64LE(n % U64);
  }

  /** `bytes.Compare` is the order of the first byte that differs, a proper prefix being less. */
  lemma {:induction false} LessIs(a: Bytes, b: Bytes)
    ensures Less(a, b) <==> FirstDifference(a, b)
  {
    if a != [] && b != [] && a[0] == b[0] {
      LessIs(a[1..], b[1..]);
      if FirstDifference(a, b) {
        var k :| 0 <= k <= |a| && DiffersAt(a, b, k);
        assert DiffersAt(a[1..], b[1..], k - 1);
      }
      if FirstDifference(a[1..], b[1..]) {
        var k :| 0 <= k <= |a[1..]| && DiffersAt(a[1..], b[1..], k);
        assert a[..k + 1] == [a[0]] + a[1..][..k] && b[..k + 1] == [b[0]] + b[1..][..k];
        assert DiffersAt(a, b, k + 1);
      }
    } else {
      assert DiffersAt(a, b, 0) <==> Less(a, b);
      if FirstDifference(a, b) {
        var k :| 0 <= k <= |a| && DiffersAt(a, b, k);
        SameFirst(a, b, k);
      }
    }
  }

  lemma SameFirst(a: Bytes, b: Bytes, k: nat)
    requires DiffersAt(a, b, k)
    ensures k == 0 || (a != [] && b != [] && a[0] == b[0])
  {
    if k > 0 {
      assert a[0] == a[..k][0] && b[0] == b[..k][0];
    }
  }

  /** Equal before `k`, where `a` has ended or has the smaller byte. */
  ghost predicate DiffersAt(a: Bytes, b: Bytes, k: nat) {
    k <= |a| && k < |b| && a[..k] == b[..k] && (k == |a| || a[k] < b[k])
  }

  ghost predicate FirstDifference(a: Bytes, b: Bytes) {
    exists k :: 0 <= k <= |a| && DiffersAt(a, b, k)
  }
}
