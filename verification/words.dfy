/**
 * Fixed-width unsigned machine words as bounded integers.  The C types
 * BYTE, WORD/USHORT, DWORD/ULONG/UINT and ULONG64 of the sources map to
 * u8, u16, u32 and u64; wrap-around is written out where the source has it.
 */
module Words {
  const BYTE_RANGE: int := 0x100
  const WORD_RANGE: int := 0x1_0000
  const DWORD_RANGE: int := 0x1_0000_0000
  const QWORD_RANGE: int := 0x1_0000_0000_0000_0000

  type u8 = x: int | 0 <= x < BYTE_RANGE
  type u16 = x: int | 0 <= x < WORD_RANGE
  type u32 = x: int | 0 <= x < DWORD_RANGE
  type u64 = x: int | 0 <= x < QWORD_RANGE

  /** 2 to the power n. */
  function Pow2(n: nat): (r: nat)
    ensures r >= 1
  {
    if n == 0 then 1 else 2 * Pow2(n - 1)
  }

  /** x is 1, 2, 4, 8, ... */
  predicate IsPowerOfTwo(x: nat)
  {
    x == 1 || (x >= 2 && x % 2 == 0 && IsPowerOfTwo(x / 2))
  }

  /** Bitwise AND of two naturals, one binary digit at a time. */
  function BitAnd(a: nat, b: nat): nat
  {
    if a == 0 || b == 0 then 0 else 2 * BitAnd(a / 2, b / 2) + (a % 2) * (b % 2)
  }

  lemma {:induction false} BitAndSelf(a: nat)
    ensures BitAnd(a, a) == a
  {
    if a != 0 {
      BitAndSelf(a / 2);
    }
  }

  lemma {:induction false} Pow2IsPowerOfTwo(n: nat)
    ensures IsPowerOfTwo(Pow2(n))
  {
    if n > 0 {
      Pow2IsPowerOfTwo(n - 1);
    }
  }

  lemma {:induction false} Pow2Add(a: nat, b: nat)
    ensures Pow2(a + b) == Pow2(a) * Pow2(b)
  {
    if a > 0 {
      Pow2Add(a - 1, b);
    }
  }

  /** The powers of two that bound the machine word types. */
  lemma Pow2WordSizes()
    ensures Pow2(8) == BYTE_RANGE && Pow2(16) == WORD_RANGE
    ensures Pow2(31) == 0x8000_0000 && Pow2(32) == DWORD_RANGE
  {
    assert Pow2(4) == 16;
    Pow2Add(4, 4);
    Pow2Add(8, 8);
    Pow2Add(16, 8);
    Pow2Add(24, 4);
    Pow2Add(28, 3);
    assert Pow2(3) == 8;
    Pow2Add(16, 16);
  }

  /** Multiplication by a natural is monotone. */
  lemma {:induction false} MulMonotone(a: nat, b: nat, m: nat)
    requires a <= b
    ensures a * m <= b * m
  {
    if a < b {
      MulMonotone(a, b - 1, m);
      assert b * m == (b - 1) * m + m;
    }
  }

  /** The converse of monotonicity for strict inequality. */
  lemma MulCancelLess(a: nat, b: nat, m: nat)
    ensures a * m < b * m ==> a < b
  {
    if b <= a {
      MulMonotone(b, a, m);
    }
  }

  /** Division is determined by any quotient-remainder decomposition. */
  lemma DivUnique(d: nat, k: nat, q: nat, r: nat)
    requires k >= 1 && d == q * k + r && r < k
    ensures d / k == q
  {
    var q' := d / k;
    assert d == q' * k + d % k;
    assert (q + 1) * k == q * k + k;
    assert (q' + 1) * k == q' * k + k;
    MulCancelLess(q, q' + 1, k);
    MulCancelLess(q', q + 1, k);
  }

  /** Halving a quotient divides by twice the divisor. */
  lemma DivDivIsDivProduct(d: nat, p: nat)
    requires p >= 1
    ensures d / p / 2 == d / (p * 2)
  {
    var q := d / p;
    var r := d % p;
    var q2 := q / 2;
    var b := q % 2;
    assert d == q * p + r;
    assert q == 2 * q2 + b;
    assert q * p == q2 * (p * 2) + b * p;
    assert b * p + r < p * 2;
    DivUnique(d, p * 2, q2, b * p + r);
  }

  /** memcpy(buf + at, data, |data|): writes data at `at` and keeps every other byte. */
  method CopyInto(buf: array<u8>, at: nat, data: seq<u8>)
    requires at + |data| <= buf.Length
    modifies buf
    ensures buf[..at] == old(buf[..at])
    ensures buf[at..at + |data|] == data
    ensures buf[..at + |data|] == old(buf[..at]) + data
    ensures buf[..] == old(buf[..at]) + data + old(buf[at + |data|..])
  {
    var j := 0;
    while j < |data|
      invariant 0 <= j <= |data|
      invariant buf[..at] == old(buf[..at])
      invariant buf[at..at + j] == data[..j]
      invariant buf[at + j..] == old(buf[at + j..])
      decreases |data| - j
    {
      buf[at + j] := data[j];
      j := j + 1;
    }
    assert buf[..at + |data|] == buf[..at] + buf[at..at + |data|];
    assert buf[..] == buf[..at + |data|] + buf[at + |data|..];
  }
}
