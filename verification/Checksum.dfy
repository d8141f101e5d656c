/** Bytes, little-endian fields and the 32-bit FNV-1a checksum. */
module Checksum {
  import opened Common

  const FNV_PRIME := 16777619
  const FNV_OFFSET_BASIS := 2166136261
  const TWO_32 := 0x1_0000_0000

  // ----- exclusive or -----

  function Xor(a: nat, b: nat): nat
    decreases a + b
  {
    if a == 0 && b == 0 then 0
    else 2 * Xor(a / 2, b / 2) + if a % 2 == b % 2 then 0 else 1
  }

  lemma {:induction false} XorUndo(a: nat, b: nat)
    ensures Xor(Xor(a, b), b) == a
    decreases a + b
  {
    if a > 0 || b > 0 {
      XorUndo(a / 2, b / 2);
      var x := Xor(a, b);
      assert x / 2 == Xor(a / 2, b / 2) && x % 2 == if a % 2 == b % 2 then 0 else 1;
    }
  }

  lemma {:induction false} XorCommutes(a: nat, b: nat)
    ensures Xor(a, b) == Xor(b, a)
    decreases a + b
  {
    if a > 0 || b > 0 {
      XorCommutes(a / 2, b / 2);
    }
  }

  /** The exclusive or of two numbers of at most n bits has at most n bits. */
  lemma {:induction false} XorBound(a: nat, b: nat, bound: nat)
    requires a < bound && b < bound && Doubling(bound)
    ensures Xor(a, b) < bound
    decreases bound
  {
    if bound > 1 {
      XorBound(a / 2, b / 2, bound / 2);
    }
  }

  ghost predicate Doubling(n: nat) {
    n == 1 || (n > 1 && n % 2 == 0 && Doubling(n / 2))
  }

  lemma DoublingTwice(n: nat)
    requires n == 1 || Doubling(n)
    ensures Doubling(2 * n) && Doubling(4 * n)
  {
    assert 2 * n / 2 == n && 4 * n / 2 == 2 * n;
    assert Doubling(2 * n);
  }

  lemma DoublingByte(n: nat)
    requires n == 1 || Doubling(n)
    ensures Doubling(0x100 * n)
  {
    hide Doubling;
    DoublingTwice(n);
    DoublingTwice(4 * n);
    DoublingTwice(16 * n);
    DoublingTwice(64 * n);
  }

  lemma Doubling32()
    ensures Doubling(TWO_32)
  {
    hide Doubling;
    DoublingByte(0x1);
    DoublingByte(0x100);
    DoublingByte(0x1_0000);
    DoublingByte(0x100_0000);
  }

  // ----- the hash -----

  function HashStep(hash: U32, b: Byte): U32 {
    (Xor(hash, b) * FNV_PRIME) % TWO_32
  }

  function HashFrom(hash: U32, data: seq<Byte>): U32
    decreases |data|
  {
    if data == [] then hash else HashFrom(HashStep(hash, data[0]), data[1..])
  }

  function Checksum32(data: seq<Byte>): U32 {
    HashFrom(FNV_OFFSET_BASIS, data)
  }

  /** The checksum as the loop computes it. */
  method ComputeChecksum32(data: seq<Byte>) returns (hash: U32)
    ensures hash == Checksum32(data)
  {
    hash := FNV_OFFSET_BASIS;
    assert data[0..] == data;
    for i := 0 to |data|
      invariant HashFrom(hash, data[i..]) == Checksum32(data)
    {
      assert data[i..][1..] == data[i + 1..];
      hash := (Xor(hash, data[i]) * FNV_PRIME) % TWO_32;
    }
  }

  /** Multiplication by the prime is injective modulo 2^32: the prime has an inverse. */
  lemma MultiplyInjective(x: U32, y: U32)
    requires (x * FNV_PRIME) % TWO_32 == (y * FNV_PRIME) % TWO_32
    ensures x == y
  {
    var i, j := (x * FNV_PRIME) / TWO_32, (y * FNV_PRIME) / TWO_32;
    assert x * FNV_PRIME == i * TWO_32 + (x * FNV_PRIME) % TWO_32;
    assert y * FNV_PRIME == j * TWO_32 + (y * FNV_PRIME) % TWO_32;
    OnlyZeroVanishes(x - y, i - j);
  }

  /** 16777619 times its inverse 899433627 is 3513497 * 2^32 + 1. */
  lemma OnlyZeroVanishes(d: int, e: int)
    requires 16777619 * d == 4294967296 * e && -4294967296 < d < 4294967296
    ensures d == 0
  {
    var m := 899433627 * e - 3513497 * d;
    assert d == 4294967296 * m;
  }

  lemma HashStepInjectiveInByte(hash: U32, a: Byte, b: Byte)
    requires HashStep(hash, a) == HashStep(hash, b)
    ensures a == b
  {
    Doubling32();
    XorBound(hash, a, TWO_32);
    XorBound(hash, b, TWO_32);
    MultiplyInjective(Xor(hash, a), Xor(hash, b));
    XorCommutes(hash, a);
    XorCommutes(hash, b);
    XorUndo(a, hash);
    XorUndo(b, hash);
  }

  lemma HashStepInjectiveInHash(g: U32, h: U32, b: Byte)
    requires HashStep(g, b) == HashStep(h, b)
    ensures g == h
  {
    Doubling32();
    XorBound(g, b, TWO_32);
    XorBound(h, b, TWO_32);
    MultiplyInjective(Xor(g, b), Xor(h, b));
    XorUndo(g, b);
    XorUndo(h, b);
  }

  /** Different hashes stay different over the same bytes. */
  lemma {:induction false} HashKeepsDifference(g: U32, h: U32, data: seq<Byte>)
    requires g != h
    ensures HashFrom(g, data) != HashFrom(h, data)
    decreases |data|
  {
    hide HashStep;
    if data != [] {
      if HashStep(g, data[0]) == HashStep(h, data[0]) {
        HashStepInjectiveInHash(g, h, data[0]);
      }
      HashKeepsDifference(HashStep(g, data[0]), HashStep(h, data[0]), data[1..]);
    }
  }

  lemma {:induction false} ChangedByteChangesHash(hash: U32, data: seq<Byte>, k: nat, b: Byte)
    requires k < |data| && data[k] != b
    ensures HashFrom(hash, data[k := b]) != HashFrom(hash, data)
    decreases |data|
  {
    var changed := data[k := b];
    if k == 0 {
      assert changed[1..] == data[1..];
      if HashStep(hash, b) == HashStep(hash, data[0]) {
        HashStepInjectiveInByte(hash, b, data[0]);
      }
      HashKeepsDifference(HashStep(hash, b), HashStep(hash, data[0]), data[1..]);
    } else {
      assert changed[1..] == data[1..][k - 1 := b];
      ChangedByteChangesHash(HashStep(hash, data[0]), data[1..], k - 1, b);
    }
  }

  /** Any change of a single byte changes the checksum. */
  lemma SingleByteDetected(data: seq<Byte>, k: nat, b: Byte)
    requires k < |data| && data[k] != b
    ensures Checksum32(data[k := b]) != Checksum32(data)
  {
    ChangedByteChangesHash(FNV_OFFSET_BASIS, data, k, b);
  }

  // ----- little-endian fields -----

  function Power256(n: nat): nat
    ensures Power256(n) > 0
  {
    if n == 0 then 1 else 256 * Power256(n - 1)
  }

  /** The n low bytes of x, least significant first. */
  function ToBytes(x: nat, n: nat): (r: seq<Byte>)
    ensures |r| == n
  {
    if n == 0 then [] else [x % 256] + ToBytes(x / 256, n - 1)
  }

  function FromBytes(s: seq<Byte>): nat {
    if s == [] then 0 else s[0] + 256 * FromBytes(s[1..])
  }

  lemma {:induction false} BytesRoundTrip(x: nat, n: nat)
    requires x < Power256(n)
    ensures FromBytes(ToBytes(x, n)) == x
  {
    if n > 0 {
      BytesRoundTrip(x / 256, n - 1);
      assert ToBytes(x, n)[1..] == ToBytes(x / 256, n - 1);
    }
  }

  lemma Widths()
    ensures Power256(2) == 0x1_0000
    ensures Power256(4) == 0x1_0000_0000
    ensures Power256(8) == 0x1_0000_0000_0000_0000
  {
    assert Power256(1) == 256;
    assert Power256(3) == 256 * Power256(2);
    assert Power256(5) == 256 * Power256(4);
    assert Power256(6) == 256 * Power256(5);
    assert Power256(7) == 256 * Power256(6);
  }

  /** A number shifted right by i bytes. */
  function Shifted(x: nat, i: nat): nat {
    if i == 0 then x else Shifted(x / 256, i - 1)
  }

  /** Byte i of a field is the lowest byte of the number shifted right by i bytes. */
  lemma {:induction false} LittleEndian(x: nat, n: nat, i: nat)
    requires i < n
    ensures ToBytes(x, n)[i] == Shifted(x, i) % 256
  {
    if i > 0 {
      LittleEndian(x / 256, n - 1, i - 1);
    }
  }

  function Bit(x: nat, k: nat): nat {
    if k == 0 then x % 2 else Bit(x / 2, k - 1)
  }

  /** A bit of the exclusive or is set exactly when the two bits differ. */
  lemma {:induction false} XorIsBitwise(a: nat, b: nat, k: nat)
    ensures Bit(Xor(a, b), k) == if Bit(a, k) != Bit(b, k) then 1 else 0
  {
    if a == 0 && b == 0 {
      ZeroBits(k);
    } else if k > 0 {
      XorIsBitwise(a / 2, b / 2, k - 1);
    }
  }

  lemma {:induction false} ZeroBits(k: nat)
    ensures Bit(0, k) == 0
  {
    if k > 0 {
      ZeroBits(k - 1);
    }
  }

  lemma XorStep(a: nat, b: nat)
    ensures Xor(a, b) == 2 * Xor(a / 2, b / 2) + if a % 2 == b % 2 then 0 else 1
  {
  }

  lemma {:induction false} XorZero(a: nat)
    ensures Xor(a, 0) == a
  {
    if a > 0 {
      XorZero(a / 2);
    }
  }

  /** Known values of 32-bit FNV-1a: of nothing, and of the letter a. */
  lemma KnownValues()
    ensures Checksum32([]) == 0x811c9dc5
    ensures Checksum32([0x61]) == 0xe40c292c
  {
    hide Xor;
    LetterA();
    assert HashStep(FNV_OFFSET_BASIS, 0x61) == 0xe40c292c;
    assert [0x61][1..] == [];
  }

  lemma LetterA()
    ensures Xor(0x811c9dc5, 0x61) == 0x811c9da4
  {
    hide Xor;
    XorStep(2166136261, 97);
    XorStep(1083068130, 48);
    XorStep(541534065, 24);
    XorStep(270767032, 12);
    XorStep(135383516, 6);
    XorStep(67691758, 3);
    XorStep(33845879, 1);
    XorZero(16922939);
  }
}
