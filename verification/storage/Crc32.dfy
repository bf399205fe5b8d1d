/**
 The CRC-32 checksum of section 3.2.9 of IEEE 802.3, in its reflected form: the table-driven
 computation against the one that feeds a message bit by bit, and what it detects.
 */
module StorageCrc32 {
  import opened StorageBytes

  const POLYNOMIAL: bv32 := 0xEDB8_8320

  // Word operations, named so that inductive proofs need not look inside them.
  function Xor(a: bv32, b: bv32): bv32 { a ^ b }
  function Half(a: bv32): bv32 { a >> 1 }
  function Odd(a: bv32): bool { a & 1 == 1 }
  function LowByte(a: bv32): bv32 { a & 0xFF }
  function HighBytes(a: bv32): bv32 { a & 0xFFFF_FF00 }
  function DropByte(a: bv32): bv32 { a >> 8 }
  function LiftByte(a: bv32): bv32 { a << 8 }
  function Double(a: bv32): bv32 { a << 1 }
  function Flag(b: bool): bv32 { if b then 1 else 0 }
  function NatOf(a: bv32): (n: nat) ensures n < U32 { a as nat }
  function WordOf(n: nat): bv32 requires n < U32 { n as bv32 }

  /** The low k bits of n, least significant first. */
  function BitsOf(n: nat, k: nat): (bits: seq<bool>)
    ensures |bits| == k
    decreases k
  {
    if k == 0 then [] else [n % 2 == 1] + BitsOf(n / 2, k - 1)
  }

  /** The same bits as a word. */
  function Word(n: nat, k: nat): bv32
    decreases k
  {
    if k == 0 then 0 else Xor(Flag(n % 2 == 1), Double(Word(n / 2, k - 1)))
  }

  function Lift(c: char): bv32 { Word(ValueOf(c), 8) }

  /** One step of the shift register. */
  function BitStep(c: bv32): bv32 {
    if Odd(c) then Xor(POLYNOMIAL, Half(c)) else Half(c)
  }

  function Steps(c: bv32, n: nat): bv32
    decreases n
  {
    if n == 0 then c else Steps(BitStep(c), n - 1)
  }

  // ------------------------------------------------------------------------------------------
  // The bit-at-a-time definition
  // ------------------------------------------------------------------------------------------

  /** Feed one message bit. */
  function FeedBit(crc: bv32, bit: bool): bv32 {
    if Odd(crc) != bit then Xor(POLYNOMIAL, Half(crc)) else Half(crc)
  }

  function FeedBits(crc: bv32, bits: seq<bool>): bv32
    decreases |bits|
  {
    if bits == [] then crc else FeedBits(FeedBit(crc, bits[0]), bits[1..])
  }

  function MessageBits(s: string): seq<bool> {
    if s == [] then [] else BitsOf(ValueOf(s[0]), 8) + MessageBits(s[1..])
  }

  /** The checksum as the standard defines it, in reflected bit order. */
  function ReferenceCrc(s: string): bv32 { Xor(FeedBits(0xFFFF_FFFF, MessageBits(s)), 0xFFFF_FFFF) }

  // ------------------------------------------------------------------------------------------
  // The byte-at-a-time definition
  // ------------------------------------------------------------------------------------------

  function Feed(crc: bv32, s: string): bv32
    decreases |s|
  {
    if s == [] then crc else Feed(Steps(Xor(crc, Lift(s[0])), 8), s[1..])
  }

  function Crc(s: string): bv32 { Xor(Feed(0xFFFF_FFFF, s), 0xFFFF_FFFF) }

  lemma FeedBitIsStep(crc: bv32, x: bv32)
    ensures Xor(FeedBit(crc, Odd(x)), Half(x)) == BitStep(Xor(crc, x))
  {
    hide Xor, Half, Odd;
    XorHalf(crc, x);
    XorOdd(crc, x);
    XorAlgebra(POLYNOMIAL, Half(crc), Half(x));
  }

  // A word with a zero top bit, doubled, and given a new low bit.

  lemma PushBit(b: bool, p: bv32)
    requires p < 0x8000_0000
    ensures Odd(Xor(Flag(b), Double(p))) == b && Half(Xor(Flag(b), Double(p))) == p
  {
  }

  function TwoTo(k: nat): bv32
    requires k <= 8
  {
    if k == 0 then 1 else if k == 1 then 2 else if k == 2 then 4 else if k == 3 then 8 else if k == 4 then 16
    else if k == 5 then 32 else if k == 6 then 64 else if k == 7 then 128 else 256
  }

  lemma PushGrows(b: bool, p: bv32, k: nat)
    requires k < 8 && p < TwoTo(k)
    ensures Xor(Flag(b), Double(p)) < TwoTo(k + 1)
  {
  }

  lemma TwoToSmall(k: nat)
    requires k <= 8
    ensures TwoTo(k) <= 256
  {
  }

  lemma {:induction false} WordBound(n: nat, k: nat)
    requires k <= 8
    ensures Word(n, k) < TwoTo(k) <= 256
    decreases k
  {
    hide Xor, Flag, Double;
    TwoToSmall(k);
    if k > 0 {
      WordBound(n / 2, k - 1);
      PushGrows(n % 2 == 1, Word(n / 2, k - 1), k - 1);
    }
  }

  lemma LiftSmall(c: char)
    ensures Lift(c) < 256
  {
    WordBound(ValueOf(c), 8);
  }

  lemma WordPops(n: nat, k: nat)
    requires 0 < k <= 8
    ensures Odd(Word(n, k)) == (n % 2 == 1) && Half(Word(n, k)) == Word(n / 2, k - 1)
  {
    hide Xor, Flag, Double, Odd, Half, TwoTo;
    WordBound(n / 2, k - 1);
    PushBit(n % 2 == 1, Word(n / 2, k - 1));
  }

  /** Feeding the bits of a number one by one equals stepping with the number mixed in beforehand. */
  lemma {:induction false} FeedWord(crc: bv32, n: nat, k: nat)
    requires k <= 8
    ensures FeedBits(crc, BitsOf(n, k)) == Steps(Xor(crc, Word(n, k)), k)
    decreases k
  {
    hide FeedBit, BitStep, Xor, Half, Odd, Word;
    if k == 0 {
      WordEmpty(n);
      XorZero(crc);
    } else {
      var x := Word(n, k);
      WordPops(n, k);
      FeedBitIsStep(crc, x);
      FeedWord(FeedBit(crc, Odd(x)), n / 2, k - 1);
      assert BitsOf(n, k)[1..] == BitsOf(n / 2, k - 1);
    }
  }

  lemma WordEmpty(n: nat)
    ensures Word(n, 0) == 0
  {
  }

  lemma XorZero(x: bv32)
    ensures Xor(x, 0) == x
  {
  }

  lemma {:induction false} FeedBitsConcat(crc: bv32, a: seq<bool>, b: seq<bool>)
    ensures FeedBits(crc, a + b) == FeedBits(FeedBits(crc, a), b)
    decreases |a|
  {
    hide FeedBit;
    if a == [] {
      assert a + b == b;
    } else {
      FeedBitsConcat(FeedBit(crc, a[0]), a[1..], b);
      assert (a + b)[1..] == a[1..] + b;
    }
  }

  lemma {:induction false} FeedIsReference(crc: bv32, s: string)
    ensures Feed(crc, s) == FeedBits(crc, MessageBits(s))
    decreases |s|
  {
    hide FeedBit, BitStep, Xor, BitsOf, Word, Steps, ValueOf;
    if s != [] {
      FeedWord(crc, ValueOf(s[0]), 8);
      FeedBitsConcat(crc, BitsOf(ValueOf(s[0]), 8), MessageBits(s[1..]));
      FeedIsReference(Steps(Xor(crc, Lift(s[0])), 8), s[1..]);
    }
  }

  /** Processing whole bytes computes the standard's checksum. */
  lemma CrcIsReference(s: string)
    ensures Crc(s) == ReferenceCrc(s)
  {
    hide Feed, FeedBits, MessageBits, Xor;
    FeedIsReference(0xFFFF_FFFF, s);
  }

  // ------------------------------------------------------------------------------------------
  // The table
  // ------------------------------------------------------------------------------------------

  lemma XorHalf(x: bv32, y: bv32)
    ensures Half(Xor(x, y)) == Xor(Half(x), Half(y))
  {
  }

  lemma XorOdd(x: bv32, y: bv32)
    ensures Odd(Xor(x, y)) == (Odd(x) != Odd(y))
  {
  }

  lemma XorAssociative(a: bv32, b: bv32, c: bv32)
    ensures Xor(a, Xor(b, c)) == Xor(Xor(a, b), c)
  {
  }

  lemma XorCommutes(a: bv32, b: bv32)
    ensures Xor(a, b) == Xor(b, a)
  {
  }

  lemma XorSelf(a: bv32)
    ensures Xor(a, a) == 0
  {
  }

  lemma XorAlgebra(p: bv32, a: bv32, b: bv32)
    ensures Xor(Xor(p, a), Xor(p, b)) == Xor(a, b)
    ensures Xor(p, Xor(a, b)) == Xor(Xor(p, a), b)
    ensures Xor(p, Xor(a, b)) == Xor(a, Xor(p, b))
  {
    hide Xor;
    XorAssociative(p, a, b);
    XorCommutes(p, a);
    XorAssociative(a, p, b);
    XorAssociative(Xor(a, p), p, b);
    XorAssociative(a, p, p);
    XorSelf(p);
    XorZero(a);
  }

  lemma BitStepLinear(x: bv32, y: bv32)
    ensures BitStep(Xor(x, y)) == Xor(BitStep(x), BitStep(y))
  {
    hide Xor, Half, Odd;
    XorHalf(x, y);
    XorOdd(x, y);
    XorAlgebra(POLYNOMIAL, Half(x), Half(y));
  }

  lemma {:induction false} StepsLinear(x: bv32, y: bv32, n: nat)
    ensures Steps(Xor(x, y), n) == Xor(Steps(x, n), Steps(y, n))
    decreases n
  {
    hide BitStep, Xor;
    if n > 0 {
      BitStepLinear(x, y);
      StepsLinear(BitStep(x), BitStep(y), n - 1);
    }
  }

  lemma Unroll8(y: bv32)
    ensures Steps(y, 8) == BitStep(BitStep(BitStep(BitStep(BitStep(BitStep(BitStep(BitStep(y))))))))
  {
    hide BitStep;
    assert Steps(y, 8) == Steps(BitStep(y), 7) == Steps(BitStep(BitStep(y)), 6);
    var y2 := BitStep(BitStep(y));
    assert Steps(y2, 6) == Steps(BitStep(y2), 5) == Steps(BitStep(BitStep(y2)), 4);
    var y4 := BitStep(BitStep(y2));
    assert Steps(y4, 4) == Steps(BitStep(y4), 3) == Steps(BitStep(BitStep(y4)), 2);
    var y6 := BitStep(BitStep(y4));
    assert Steps(y6, 2) == Steps(BitStep(y6), 1) == Steps(BitStep(BitStep(y6)), 0);
  }

  lemma EvenStep(y: bv32)
    ensures !Odd(y) ==> BitStep(y) == Half(y)
  {
  }

  lemma Halves(y: bv32)
    ensures Half(Half(Half(Half(y)))) == y >> 4
    ensures Half(Half(Half(Half(y >> 4)))) == DropByte(y)
  {
  }

  lemma LowZeros(y: bv32)
    requires y & 0xF == 0
    ensures !Odd(y) && !Odd(Half(y)) && !Odd(Half(Half(y))) && !Odd(Half(Half(Half(y))))
  {
  }

  lemma LowByteZero(y: bv32)
    requires LowByte(y) == 0
    ensures y & 0xF == 0 && (y >> 4) & 0xF == 0
  {
  }

  /** Eight steps only shift a word whose low byte is zero. */
  lemma StepsHigh(y: bv32)
    requires LowByte(y) == 0
    ensures Steps(y, 8) == DropByte(y)
  {
    hide Steps, BitStep, Half, Odd, LowByte, DropByte;
    Unroll8(y);
    LowByteZero(y);
    Halves(y);
    FourEvenSteps(y);
    FourEvenSteps(y >> 4);
  }

  lemma FourEvenSteps(y: bv32)
    requires y & 0xF == 0
    ensures BitStep(BitStep(BitStep(BitStep(y)))) == Half(Half(Half(Half(y))))
  {
    hide BitStep, Half, Odd;
    LowZeros(y);
    EvenStep(y);
    EvenStep(Half(y));
    EvenStep(Half(Half(y)));
    EvenStep(Half(Half(Half(y))));
  }

  lemma SplitWord(c: bv32)
    ensures Xor(LowByte(c), HighBytes(c)) == c
    ensures LowByte(HighBytes(c)) == 0
    ensures DropByte(HighBytes(c)) == DropByte(c)
  {
  }

  lemma DropIgnoresByte(crc: bv32, x: bv32)
    requires x < 256
    ensures DropByte(Xor(crc, x)) == DropByte(crc)
  {
  }

  /** The table lookup does the work of eight steps. */
  lemma TableStep(crc: bv32, x: bv32)
    requires x < 256
    ensures Xor(Steps(LowByte(Xor(crc, x)), 8), DropByte(crc)) == Steps(Xor(crc, x), 8)
  {
    hide Steps, Xor, LowByte, HighBytes, DropByte;
    var c := Xor(crc, x);
    SplitWord(c);
    StepsLinear(LowByte(c), HighBytes(c), 8);
    StepsHigh(HighBytes(c));
    DropIgnoresByte(crc, x);
  }

  method ComputeTableEntry(n: bv32) returns (c: bv32)
    ensures c == Steps(n, 8)
  {
    hide Xor, Half, Odd;
    c := n;
    var k := 0;
    while k < 8
      invariant 0 <= k <= 8
      invariant Steps(c, 8 - k) == Steps(n, 8)
    {
      c := BitStep(c);
      k := k + 1;
    }
  }

  ghost predicate IsTable(t: seq<bv32>) {
    |t| == 256 && forall n :: 0 <= n < 256 ==> t[n] == Steps(n as bv32, 8)
  }

  method MakeTable() returns (t: array<bv32>)
    ensures fresh(t) && IsTable(t[..])
  {
    hide Steps;
    t := new bv32[256];
    var n := 0;
    while n < 256
      invariant 0 <= n <= 256
      invariant forall k :: 0 <= k < n ==> t[k] == Steps(k as bv32, 8)
    {
      t[n] := ComputeTableEntry(n as bv32);
      n := n + 1;
    }
  }

  lemma LowByteIndex(c: bv32)
    ensures LowByte(c) as nat < 256 && (LowByte(c) as nat) as bv32 == LowByte(c)
  {
  }

  lemma {:induction false} FeedConcat(crc: bv32, a: string, b: string)
    ensures Feed(crc, a + b) == Feed(Feed(crc, a), b)
    decreases |a|
  {
    hide Steps, Xor, Lift;
    if a == [] {
      assert a + b == b;
    } else {
      FeedConcat(Steps(Xor(crc, Lift(a[0])), 8), a[1..], b);
      assert (a + b)[1..] == a[1..] + b;
    }
  }

  /** The checksum as the code computes it, with the table. */
  method ComputeCrc32(table: array<bv32>, data: string) returns (checksum: bv32)
    requires IsTable(table[..])
    ensures checksum == Crc(data) == ReferenceCrc(data)
  {
    hide Steps, Xor, Lift, LowByte, DropByte, ReferenceCrc;
    var crc: bv32 := 0xFFFF_FFFF;
    var i := 0;
    while i < |data|
      invariant 0 <= i <= |data|
      invariant Feed(crc, data[i..]) == Feed(0xFFFF_FFFF, data)
    {
      var x := Lift(data[i]);
      LiftSmall(data[i]);
      LowByteIndex(Xor(crc, x));
      TableStep(crc, x);
      assert data[i..][1..] == data[i + 1..];
      assert table[..][LowByte(Xor(crc, x)) as nat] == Steps(LowByte(Xor(crc, x)), 8);
      crc := Xor(table[LowByte(Xor(crc, x)) as nat], DropByte(crc));
      i := i + 1;
    }
    checksum := Xor(crc, 0xFFFF_FFFF);
    CrcIsReference(data);
  }

  // ------------------------------------------------------------------------------------------
  // What the checksum detects
  // ------------------------------------------------------------------------------------------

  lemma BitStepInjective(x: bv32, y: bv32)
    requires BitStep(x) == BitStep(y)
    ensures x == y
  {
  }

  lemma {:induction false} StepsInjective(x: bv32, y: bv32, n: nat)
    requires Steps(x, n) == Steps(y, n)
    ensures x == y
    decreases n
  {
    hide BitStep;
    if n > 0 {
      StepsInjective(BitStep(x), BitStep(y), n - 1);
      BitStepInjective(x, y);
    }
  }

  lemma XorInjective(a: bv32, b: bv32, x: bv32)
    ensures Xor(a, x) == Xor(b, x) ==> a == b
    ensures Xor(x, a) == Xor(x, b) ==> a == b
  {
  }

  /** Whatever follows, different registers stay different. */
  lemma {:induction false} FeedInjective(x: bv32, y: bv32, s: string)
    requires Feed(x, s) == Feed(y, s)
    ensures x == y
    decreases |s|
  {
    hide Steps, Xor, Lift;
    if s != [] {
      FeedInjective(Steps(Xor(x, Lift(s[0])), 8), Steps(Xor(y, Lift(s[0])), 8), s[1..]);
      StepsInjective(Xor(x, Lift(s[0])), Xor(y, Lift(s[0])), 8);
      XorInjective(x, y, Lift(s[0]));
    }
  }

  /** Up to four bytes packed into a word, first byte lowest. */
  function Pack(s: string): bv32
    decreases |s|
  {
    if s == [] then 0 else Xor(Lift(s[0]), LiftByte(Pack(s[1..])))
  }

  function Bound(n: nat): bv32 {
    if n == 0 then 1 else if n == 1 then 0x100 else if n == 2 then 0x1_0000 else 0x100_0000
  }

  lemma PackGrows(x: bv32, p: bv32, n: nat)
    requires n <= 2 && x < 256 && p < Bound(n)
    ensures Xor(x, LiftByte(p)) < Bound(n + 1)
  {
  }

  lemma {:induction false} PackBound(s: string)
    requires |s| <= 3
    ensures Pack(s) < Bound(|s|)
    decreases |s|
  {
    hide Xor, LiftByte, Lift;
    if s != [] {
      PackBound(s[1..]);
      LiftSmall(s[0]);
      PackGrows(Lift(s[0]), Pack(s[1..]), |s| - 1);
    }
  }

  lemma BoundTop(n: nat)
    ensures Bound(n) <= 0x100_0000
  {
  }

  lemma LiftDrop(p: bv32)
    requires p < 0x100_0000
    ensures DropByte(LiftByte(p)) == p && LowByte(LiftByte(p)) == 0
  {
  }

  lemma LowOfPair(x: bv32, y: bv32, p: bv32, q: bv32)
    requires x < 256 && y < 256 && Xor(x, LiftByte(p)) == Xor(y, LiftByte(q))
    ensures x == y && LiftByte(p) == LiftByte(q)
  {
  }

  lemma {:induction false} WordInjective(n: nat, m: nat, k: nat)
    requires k <= 8 && Word(n, k) == Word(m, k)
    ensures BitsOf(n, k) == BitsOf(m, k)
    decreases k
  {
    hide Word;
    if k > 0 {
      WordPops(n, k);
      WordPops(m, k);
      WordInjective(n / 2, m / 2, k - 1);
    }
  }

  function TwoToNat(k: nat): (p: nat)
    ensures p > 0
  {
    if k == 0 then 1 else 2 * TwoToNat(k - 1)
  }

  lemma {:induction false} BitsInjective(n: nat, m: nat, k: nat)
    requires BitsOf(n, k) == BitsOf(m, k) && n < TwoToNat(k) && m < TwoToNat(k)
    ensures n == m
    decreases k
  {
    if k > 0 {
      assert BitsOf(n, k)[0] == BitsOf(m, k)[0];
      assert BitsOf(n / 2, k - 1) == BitsOf(n, k)[1..] == BitsOf(m, k)[1..] == BitsOf(m / 2, k - 1);
      BitsInjective(n / 2, m / 2, k - 1);
    }
  }

  lemma EightBits()
    ensures TwoToNat(8) == 256
  {
    assert TwoToNat(2) == 4;
    assert TwoToNat(4) == 16;
    assert TwoToNat(6) == 64;
  }

  lemma LiftInjective(c: char, d: char)
    requires Lift(c) == Lift(d)
    ensures ValueOf(c) == ValueOf(d)
  {
    hide Word, BitsOf, TwoToNat;
    WordInjective(ValueOf(c), ValueOf(d), 8);
    EightBits();
    BitsInjective(ValueOf(c), ValueOf(d), 8);
  }

  /** All characters stand for single bytes. */
  predicate IsBytes(s: string) { forall i :: 0 <= i < |s| ==> s[i] as int < 256 }

  lemma {:induction false} PackInjective(s: string, u: string)
    requires |s| == |u| <= 4 && IsBytes(s) && IsBytes(u) && Pack(s) == Pack(u)
    ensures s == u
    decreases |s|
  {
    hide Xor, LiftByte, Lift, DropByte, LowByte;
    if s != [] {
      LiftSmall(s[0]);
      LiftSmall(u[0]);
      LowOfPair(Lift(s[0]), Lift(u[0]), Pack(s[1..]), Pack(u[1..]));
      LiftInjective(s[0], u[0]);
      PackBound(s[1..]);
      PackBound(u[1..]);
      BoundTop(|s| - 1);
      LiftDrop(Pack(s[1..]));
      LiftDrop(Pack(u[1..]));
      PackInjective(s[1..], u[1..]);
      assert s == [s[0]] + s[1..] && u == [u[0]] + u[1..];
    }
  }

  lemma {:induction false} StepsAdd(x: bv32, m: nat, n: nat)
    ensures Steps(x, m + n) == Steps(Steps(x, m), n)
    decreases m
  {
    hide BitStep;
    if m > 0 { StepsAdd(BitStep(x), m - 1, n); }
  }

  /** Mixing a byte in now and the rest eight steps later equals mixing everything in now. */
  lemma MixAhead(crc: bv32, x: bv32, p: bv32)
    requires p < 0x100_0000
    ensures Xor(Steps(Xor(crc, x), 8), p) == Steps(Xor(crc, Xor(x, LiftByte(p))), 8)
  {
    hide Xor, Steps, LiftByte, DropByte, LowByte;
    LiftDrop(p);
    StepsHigh(LiftByte(p));
    StepsLinear(Xor(crc, x), LiftByte(p), 8);
    XorAlgebra(crc, x, LiftByte(p));
  }

  /** Feeding up to four bytes equals mixing them in at once. */
  lemma {:induction false} FeedPacked(crc: bv32, s: string)
    requires |s| <= 4
    ensures Feed(crc, s) == Steps(Xor(crc, Pack(s)), 8 * |s|)
    decreases |s|
  {
    hide Xor, Lift, LiftByte;
    if s == [] {
      XorZero(crc);
    } else {
      var p := Pack(s[1..]);
      PackBound(s[1..]);
      BoundTop(|s| - 1);
      FeedPacked(Steps(Xor(crc, Lift(s[0])), 8), s[1..]);
      MixAhead(crc, Lift(s[0]), p);
      StepsAdd(Xor(crc, Pack(s)), 8, 8 * (|s| - 1));
    }
  }

  lemma FeedWindow(crc: bv32, w: string, u: string)
    requires |w| == |u| <= 4 && IsBytes(w) && IsBytes(u) && Feed(crc, w) == Feed(crc, u)
    ensures w == u
  {
    hide Feed, Steps, Xor, Pack, IsBytes;
    FeedPacked(crc, w);
    FeedPacked(crc, u);
    StepsInjective(Xor(crc, Pack(w)), Xor(crc, Pack(u)), 8 * |w|);
    XorInjective(Pack(w), Pack(u), crc);
    PackInjective(w, u);
  }

  /** Two messages that differ, but only within four consecutive bytes, have different checksums. */
  lemma BurstDetected(before: string, w: string, u: string, after: string)
    requires |w| == |u| <= 4 && w != u && IsBytes(w) && IsBytes(u)
    ensures Crc(before + w + after) != Crc(before + u + after)
  {
    hide Feed, Xor, IsBytes;
    var start := Feed(0xFFFF_FFFF, before);
    FeedConcat(0xFFFF_FFFF, before + w, after);
    FeedConcat(0xFFFF_FFFF, before, w);
    FeedConcat(0xFFFF_FFFF, before + u, after);
    FeedConcat(0xFFFF_FFFF, before, u);
    if Crc(before + w + after) == Crc(before + u + after) {
      XorInjective(Feed(0xFFFF_FFFF, before + w + after), Feed(0xFFFF_FFFF, before + u + after), 0xFFFF_FFFF);
      FeedInjective(Feed(start, w), Feed(start, u), after);
      FeedWindow(start, w, u);
      assert false;
    }
  }

  /** The checksum as the unsigned number stored in a record header. */
  function Checksum(s: string): (n: nat)
    ensures n < U32
  {
    NatOf(Crc(s))
  }

  lemma ChecksumInjective(a: string, b: string)
    requires Checksum(a) == Checksum(b)
    ensures Crc(a) == Crc(b)
  {
    hide Crc, NatOf, WordOf;
    WordRoundTrip(Crc(a));
    WordRoundTrip(Crc(b));
  }

  lemma WordRoundTrip(a: bv32)
    ensures WordOf(NatOf(a)) == a
  {
  }
}
