/** Fixed-width little-endian integers, as the storage files hold them. */
module StorageBytes {

  /** One byte; C++ integer narrowing keeps the value modulo 256. */
  function ByteOf(n: nat): char { (n % 256) as char }

  function ValueOf(c: char): nat { c as int % 256 }

  function LittleEndian(n: nat, width: nat): (s: string)
    ensures |s| == width
    decreases width
  {
    if width == 0 then [] else [ByteOf(n)] + LittleEndian(n / 256, width - 1)
  }

  function FromLittleEndian(s: string): nat
  {
    if s == [] then 0 else ValueOf(s[0]) + 256 * FromLittleEndian(s[1..])
  }

  function Pow256(k: nat): (p: nat)
    ensures p > 0
  {
    if k == 0 then 1 else 256 * Pow256(k - 1)
  }

  /** Reading back what was written gives the value modulo the width. */
  lemma {:induction false} LittleEndianRoundTrip(n: nat, width: nat)
    ensures FromLittleEndian(LittleEndian(n, width)) == n % Pow256(width)
    decreases width
  {
    if width > 0 {
      LittleEndianRoundTrip(n / 256, width - 1);
      assert LittleEndian(n, width)[1..] == LittleEndian(n / 256, width - 1);
      DivMod(n, Pow256(width - 1));
    }
  }

  lemma DivMod(n: nat, p: nat)
    requires p > 0
    ensures n % 256 + 256 * ((n / 256) % p) == n % (256 * p)
  {
    var q := n / 256;
    var r := n % 256 + 256 * (q % p);
    assert n == 256 * q + n % 256;
    assert q == p * (q / p) + q % p;
    assert n == (256 * p) * (q / p) + r by {
      assert 256 * q == 256 * (p * (q / p)) + 256 * (q % p);
      assert 256 * (p * (q / p)) == (256 * p) * (q / p);
    }
    assert 0 <= r < 256 * p;
    UniqueRemainder(n, 256 * p, q / p, r);
  }

  lemma Multiples(m: nat, d: int)
    ensures d >= 1 ==> m * d >= m
    ensures d <= -1 ==> m * d + m <= 0
  {
  }

  lemma UniqueRemainder(n: nat, m: nat, q: nat, r: nat)
    requires m > 0 && n == m * q + r && r < m
    ensures n % m == r
  {
    var d := n / m - q;
    assert n == m * (n / m) + n % m;
    assert m * (n / m) - m * q == m * d by {
      assert m * (n / m - q) == m * (n / m) - m * q;
    }
    assert m * d == r - n % m;
    Multiples(m, d);
  }

  const U32: nat := 0x1_0000_0000
  const U64: nat := 0x1_0000_0000_0000_0000

  lemma Widths()
    ensures Pow256(4) == U32 && Pow256(8) == U64
  {
    assert Pow256(1) == 256 * Pow256(0);
    assert Pow256(2) == 256 * Pow256(1);
    assert Pow256(3) == 256 * Pow256(2);
    assert Pow256(4) == 256 * Pow256(3);
    assert Pow256(5) == 256 * Pow256(4);
    assert Pow256(6) == 256 * Pow256(5);
    assert Pow256(7) == 256 * Pow256(6);
    assert Pow256(8) == 256 * Pow256(7);
  }

  function PutU32(n: nat): (s: string)
    ensures |s| == 4
  {
    LittleEndian(n, 4)
  }

  function PutU64(n: nat): (s: string)
    ensures |s| == 8
  {
    LittleEndian(n, 8)
  }

  /** The four bytes at a position. */
  function GetU32(file: string, at: nat): nat
    requires at + 4 <= |file|
  {
    FromLittleEndian(file[at..at + 4])
  }

  function GetU64(file: string, at: nat): nat
    requires at + 8 <= |file|
  {
    FromLittleEndian(file[at..at + 8])
  }

  lemma U32RoundTrip(n: nat)
    requires n < U32
    ensures FromLittleEndian(PutU32(n)) == n
  {
    LittleEndianRoundTrip(n, 4);
    Widths();
    assert n % U32 == n;
  }

  lemma U64RoundTrip(n: nat)
    requires n < U64
    ensures FromLittleEndian(PutU64(n)) == n
  {
    LittleEndianRoundTrip(n, 8);
    Widths();
    assert n % U64 == n;
  }

  /** `part` lies in the file at this position. */
  predicate HoldsAt(file: string, at: nat, part: string) {
    at + |part| <= |file| && file[at..at + |part|] == part
  }

  lemma GetWithin(file: string, start: nat, size: nat, at: nat)
    requires start + size <= |file| && at + 4 <= size
    ensures GetU32(file[start..start + size], at) == GetU32(file, start + at)
  {
    hide FromLittleEndian;
    SliceOfSlice(file, start, start + size, at, at + 4);
  }

  lemma SliceOfSlice(s: string, a: nat, b: nat, c: nat, d: nat)
    requires a <= b <= |s| && c <= d <= b - a
    ensures s[a..b][c..d] == s[a + c..a + d]
  {
    forall i | 0 <= i < d - c
      ensures s[a..b][c..d][i] == s[a + c..a + d][i]
    {
    }
  }

  lemma HoldsU32(file: string, at: nat, n: nat)
    requires HoldsAt(file, at, PutU32(n)) && n < U32
    ensures GetU32(file, at) == n
  {
    U32RoundTrip(n);
  }

  lemma HoldsU64(file: string, at: nat, n: nat)
    requires HoldsAt(file, at, PutU64(n)) && n < U64
    ensures GetU64(file, at) == n
  {
    U64RoundTrip(n);
  }

  lemma HoldsSplit(file: string, at: nat, a: string, b: string)
    requires HoldsAt(file, at, a + b)
    ensures HoldsAt(file, at, a) && HoldsAt(file, at + |a|, b)
  {
    assert file[at..at + |a|] == (a + b)[..|a|];
    assert file[at + |a|..at + |a| + |b|] == (a + b)[|a|..];
  }

  lemma HoldsInConcat(before: string, part: string, after: string)
    ensures HoldsAt(before + (part + after), |before|, part)
  {
  }

  lemma HoldsFirst(part: string, after: string)
    ensures HoldsAt(part + after, 0, part)
  {
  }

  lemma HoldsLast(before: string, part: string)
    ensures HoldsAt(before + part, |before|, part)
  {
  }
}
