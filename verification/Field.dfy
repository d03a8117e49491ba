/** 32-byte blocks and the scalar field they stand for. */
module Field {

  type Byte = x: int | 0 <= x < 256

  type Bytes = seq<Byte>

  /** The BN254 scalar modulus. */
  const MODULUS: nat := 21888242871839275222246405745257275088548364400416034343698204186575808495617

  type Block = b: Bytes | |b| == 32 witness Zeros(32)

  type Element = n: nat | n < MODULUS

  function Zeros(n: nat): (b: Bytes)
    ensures |b| == n && forall i :: 0 <= i < n ==> b[i] == 0
  {
    if n == 0 then [] else [0] + Zeros(n - 1)
  }

  const ZERO: Block := Zeros(32)

  /** Left-pads to 32 bytes, or keeps the first 32. */
  function PadTo32(data: Bytes): (b: Block)
    ensures |data| >= 32 ==> b == data[..32]
    ensures |data| < 32 ==> b[32 - |data|..] == data && forall i :: 0 <= i < 32 - |data| ==> b[i] == 0
    ensures |data| == 32 ==> b == data
  {
    if |data| >= 32 then data[..32] else Zeros(32 - |data|) + data
  }

  /** The number a byte string spells, most significant byte first. */
  function BigEndian(b: Bytes): nat {
    if b == [] then 0 else 256 * BigEndian(b[..|b| - 1]) + b[|b| - 1]
  }

  lemma {:induction false} ZerosSpell(n: nat)
    ensures BigEndian(Zeros(n)) == 0
  {
    if n > 0 {
      assert Zeros(n)[..n - 1] == Zeros(n - 1);
      ZerosSpell(n - 1);
    }
  }

  /** Padding on the left keeps the value. */
  lemma {:induction false} PadKeepsValue(n: nat, data: Bytes)
    ensures BigEndian(Zeros(n) + data) == BigEndian(data)
    decreases |data|
  {
    if data == [] {
      assert Zeros(n) + data == Zeros(n);
      ZerosSpell(n);
    } else {
      var last := |data| - 1;
      PadKeepsValue(n, data[..last]);
      assert (Zeros(n) + data)[..n + last] == Zeros(n) + data[..last];
    }
  }

  /** The last `len` base-256 digits of `n`. */
  function Digits(n: nat, len: nat): (b: Bytes)
    ensures |b| == len
  {
    if len == 0 then [] else Digits(n / 256, len - 1) + [n % 256]
  }

  function Power256(len: nat): (p: nat)
    ensures 0 < p
  {
    if len == 0 then 1 else 256 * Power256(len - 1)
  }

  lemma {:induction false} DigitsSpell(n: nat, len: nat)
    requires n < Power256(len)
    ensures BigEndian(Digits(n, len)) == n
  {
    if len > 0 {
      DigitsSpell(n / 256, len - 1);
      assert Digits(n, len)[..len - 1] == Digits(n / 256, len - 1);
    }
  }

  lemma {:induction false} SpellDigits(b: Bytes)
    ensures Digits(BigEndian(b), |b|) == b
  {
    if b != [] {
      SpellDigits(b[..|b| - 1]);
      assert b == b[..|b| - 1] + [b[|b| - 1]];
    }
  }

  /** Two blocks that spell the same number are the same block. */
  lemma BlockByValue(a: Block, b: Block)
    requires BigEndian(a) == BigEndian(b)
    ensures a == b
  {
    SpellDigits(a);
    SpellDigits(b);
  }

  lemma FitsIn32()
    ensures MODULUS + 1 < Power256(32)
  {
    assert Power256(4) == 0x1_0000_0000;
    assert Power256(8) == 0x1_0000_0000 * Power256(4);
    assert Power256(12) == 0x1_0000_0000 * Power256(8);
    assert Power256(16) == 0x1_0000_0000 * Power256(12);
    assert Power256(20) == 0x1_0000_0000 * Power256(16);
    assert Power256(24) == 0x1_0000_0000 * Power256(20);
    assert Power256(28) == 0x1_0000_0000 * Power256(24);
    assert Power256(32) == 0x1_0000_0000 * Power256(28);
  }

  /** The 32-byte form of a field element. */
  function ToBlock(e: Element): Block { Digits(e, 32) }

  predicate IsCanonical(b: Bytes) { BigEndian(b) < MODULUS }

  lemma ToBlockSpells(n: nat)
    requires n <= MODULUS + 1
    ensures BigEndian(Digits(n, 32)) == n
  {
    FitsIn32();
    DigitsSpell(n, 32);
  }
}
