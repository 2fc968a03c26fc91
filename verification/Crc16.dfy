/** CRC-16/CCITT-FALSE over the Monad register (polynomial 0x1021, initial value 0xFFFF, no
    reflection, no final XOR).  The sender's loop over integers is proved to refine bit-serial
    division, and what the checksum detects is proved there, for bodies of any length. */
module Crc16 {
  import opened Wrappers

  type byte = x: int | 0 <= x < 0x100
  type word = x: int | 0 <= x < 0x1_0000
  type bits = seq<bool>

  datatype Error = NotAnOctet

  // ---- The sender's arithmetic ----

  /** Bitwise exclusive or of non-negative integers. */
  function Xor(a: nat, b: nat): nat {
    if a == 0 && b == 0 then 0
    else 2 * Xor(a / 2, b / 2) + (if a % 2 != b % 2 then 1 else 0)
  }

  lemma {:induction false} XorBounded(a: nat, b: nat, k: nat)
    requires a < Pow2(k) && b < Pow2(k)
    ensures Xor(a, b) < Pow2(k)
  {
    if k > 0 && !(a == 0 && b == 0) {
      XorBounded(a / 2, b / 2, k - 1);
    }
  }

  function Pow2(k: nat): (p: nat)
    ensures p > 0
  {
    if k == 0 then 1 else 2 * Pow2(k - 1)
  }

  lemma Pow2Sixteen()
    ensures Pow2(8) == 0x100 && Pow2(16) == 0x1_0000
  {
    assert Pow2(8) == 16 * Pow2(4) && Pow2(4) == 16;
    assert Pow2(16) == 16 * Pow2(12) && Pow2(12) == 16 * Pow2(8);
  }

  function XorWord(a: word, b: word): word {
    Pow2Sixteen();
    XorBounded(a, b, 16);
    Xor(a, b)
  }

  function Shifted(c: word): word {
    if c / 0x8000 % 2 == 1 then XorWord(2 * c % 0x1_0000, 0x1021) else 2 * c % 0x1_0000
  }

  function ShiftedBy(c: word, n: nat): word {
    if n == 0 then c else Shifted(ShiftedBy(c, n - 1))
  }

  function Mixed(c: word, b: byte): word {
    XorWord(c, b * 0x100)
  }

  function Absorbed(c: word, data: seq<byte>): word {
    if data == [] then c
    else ShiftedBy(Mixed(Absorbed(c, data[..|data| - 1]), data[|data| - 1]), 8)
  }

  function Crc(data: seq<byte>): word {
    Absorbed(0xFFFF, data)
  }

  function BigEndian(c: word): seq<byte> {
    [c / 0x100, c % 0x100]
  }

  method ComputeCrc(data: seq<byte>) returns (crc: word)
    ensures crc == Crc(data)
  {
    crc := 0xFFFF;
    for i := 0 to |data|
      invariant crc == Absorbed(0xFFFF, data[..i])
    {
      crc := Mixed(crc, data[i]);
      ghost var start := crc;
      for j := 0 to 8
        invariant crc == ShiftedBy(start, j)
      {
        crc := Shifted(crc);
      }
      assert data[..i + 1][..i] == data[..i];
    }
    assert data[..|data|] == data;
  }

  // ---- Bit-serial division by x^16 + x^12 + x^5 + 1 ----

  function Poly(i: int): bool {
    i == 3 || i == 10 || i == 15
  }

  function Step(r: bits): (r': bits)
    requires |r| == 16
    ensures |r'| == 16
    ensures forall i :: 0 <= i < 16 ==> (r'[i] <==> ((i < 15 && r[i + 1]) != (r[0] && Poly(i))))
  {
    seq(16, i requires 0 <= i < 16 => (i < 15 && r[i + 1]) != (r[0] && Poly(i)))
  }

  function Steps(r: bits, n: nat): (r': bits)
    requires |r| == 16
    ensures |r'| == 16
  {
    if n == 0 then r else Step(Steps(r, n - 1))
  }

  /** XOR a word into the top of a register. */
  function Xored(r: bits, w: bits): (r': bits)
    ensures |r'| == |r|
    ensures forall i :: 0 <= i < |r| ==> (r'[i] <==> (r[i] != (i < |w| && w[i])))
  {
    seq(|r|, i requires 0 <= i < |r| => r[i] != (i < |w| && w[i]))
  }

  function Serial(r: bits, ds: bits): (r': bits)
    requires |r| == 16
    ensures |r'| == 16
    decreases |ds|
  {
    if ds == [] then r else Serial(Step(Xored(r, [ds[0]])), ds[1..])
  }

  const ONES: bits := seq(16, i => true)
  const ZERO: bits := seq(16, i => false)

  lemma StepInjective(r: bits, s: bits)
    requires |r| == |s| == 16 && Step(r) == Step(s)
    ensures r == s
  {
    assert Step(r)[15] == r[0] && Step(s)[15] == s[0];
    forall i | 1 <= i < 16
      ensures r[i] == s[i]
    {
      assert Step(r)[i - 1] == Step(s)[i - 1];
    }
  }

  lemma {:induction false} StepsInjective(r: bits, s: bits, n: nat)
    requires |r| == |s| == 16 && Steps(r, n) == Steps(s, n)
    ensures r == s
  {
    if n > 0 {
      StepInjective(Steps(r, n - 1), Steps(s, n - 1));
      StepsInjective(r, s, n - 1);
    }
  }

  lemma {:induction false} StepsFirst(r: bits, n: nat)
    requires |r| == 16
    ensures Steps(r, n + 1) == Steps(Step(r), n)
  {
    if n > 0 {
      StepsFirst(r, n - 1);
    }
  }

  lemma {:induction false} StepsZero(n: nat)
    ensures Steps(ZERO, n) == ZERO
  {
    if n > 0 {
      StepsZero(n - 1);
      assert Step(ZERO) == ZERO;
    }
  }

  lemma XorMoves(r: bits, ds: bits)
    requires |r| == 16 && 0 < |ds| <= 16
    ensures Step(Xored(r, ds)) == Xored(Step(Xored(r, [ds[0]])), ds[1..])
  {
  }

  /** Up to sixteen bits in a row are one word XORed into the top of the register. */
  lemma {:induction false} SerialWord(r: bits, ds: bits)
    requires |r| == 16 && |ds| <= 16
    ensures Serial(r, ds) == Steps(Xored(r, ds), |ds|)
    decreases |ds|
  {
    if ds == [] {
      assert Xored(r, ds) == r;
    } else {
      SerialWord(Step(Xored(r, [ds[0]])), ds[1..]);
      XorMoves(r, ds);
      StepsFirst(Xored(r, ds), |ds| - 1);
    }
  }

  lemma {:induction false} SerialConcat(r: bits, xs: bits, ys: bits)
    requires |r| == 16
    ensures Serial(r, xs + ys) == Serial(Serial(r, xs), ys)
    decreases |xs|
  {
    if xs == [] {
      assert xs + ys == ys;
    } else {
      assert (xs + ys)[1..] == xs[1..] + ys;
      SerialConcat(Step(Xored(r, [xs[0]])), xs[1..], ys);
    }
  }

  lemma {:induction false} SerialInjective(r: bits, s: bits, ds: bits)
    requires |r| == |s| == 16 && Serial(r, ds) == Serial(s, ds)
    ensures r == s
    decreases |ds|
  {
    if ds != [] {
      var a, b := Xored(r, [ds[0]]), Xored(s, [ds[0]]);
      SerialInjective(Step(a), Step(b), ds[1..]);
      StepInjective(a, b);
      XoredInjective(r, s, [ds[0]]);
    }
  }

  lemma XoredInjective(r: bits, s: bits, w: bits)
    requires |r| == |s| && Xored(r, w) == Xored(s, w)
    ensures r == s
  {
    forall i | 0 <= i < |r|
      ensures r[i] == s[i]
    {
      assert Xored(r, w)[i] == Xored(s, w)[i];
    }
  }

  /** The remainder of bits followed by sixteen more is zero exactly when those are its remainder. */
  lemma SerialResidue(r: bits, ds: bits, check: bits)
    requires |r| == 16 && |check| == 16
    ensures Serial(r, ds + check) == ZERO <==> check == Serial(r, ds)
  {
    var s := Serial(r, ds);
    SerialConcat(r, ds, check);
    SerialWord(s, check);
    StepsZero(16);
    if check == s {
      assert Xored(s, check) == ZERO;
    }
    if Serial(r, ds + check) == ZERO {
      StepsInjective(Xored(s, check), ZERO, 16);
      forall i | 0 <= i < 16
        ensures check[i] == s[i]
      {
        assert Xored(s, check)[i] == ZERO[i];
      }
    }
  }

  lemma WordInjective(s: bits, w: bits, w': bits)
    requires |s| == 16 && |w| == |w'| <= 16 && Serial(s, w) == Serial(s, w')
    ensures w == w'
  {
    SerialWord(s, w);
    SerialWord(s, w');
    StepsInjective(Xored(s, w), Xored(s, w'), |w|);
    forall i | 0 <= i < |w|
      ensures w[i] == w'[i]
    {
      assert Xored(s, w)[i] == Xored(s, w')[i];
    }
  }

  /** No burst of at most sixteen bits, at any position, leaves the remainder unchanged. */
  lemma SerialBurst(r: bits, pre: bits, w: bits, w': bits, post: bits)
    requires |r| == 16 && |w| == |w'| <= 16
    ensures Serial(r, pre + w + post) == Serial(r, pre + w' + post) <==> w == w'
  {
    var s := Serial(r, pre);
    SerialConcat(r, pre + w, post);
    SerialConcat(r, pre + w', post);
    SerialConcat(r, pre, w);
    SerialConcat(r, pre, w');
    if Serial(r, pre + w + post) == Serial(r, pre + w' + post) {
      SerialInjective(Serial(s, w), Serial(s, w'), post);
      WordInjective(s, w, w');
    }
  }

  /** Cuts two rows of bits around the stretch in which they may differ. */
  lemma AroundBurst(a: bits, b: bits, k: nat) returns (pre: bits, w: bits, w': bits, post: bits)
    requires |a| == |b| && k <= |a| && forall i :: 0 <= i < |a| && !(k <= i < k + 16) ==> a[i] == b[i]
    ensures a == pre + w + post && b == pre + w' + post && |w| == |w'| <= 16
  {
    var z := if k + 16 <= |a| then k + 16 else |a|;
    pre, w, w', post := a[..k], a[k..z], b[k..z], a[z..];
    assert b[..k] == pre && b[z..] == post;
    assert b == b[..k] + b[k..z] + b[z..];
  }

  /** Bits that differ, and only inside sixteen consecutive ones, have different remainders. */
  lemma BurstLeavesTrace(r: bits, a: bits, b: bits, k: nat)
    requires |r| == 16 && |a| == |b| && a != b && k <= |a|
    requires forall i :: 0 <= i < |a| && !(k <= i < k + 16) ==> a[i] == b[i]
    ensures Serial(r, a) != Serial(r, b)
  {
    var pre, w, w', post := AroundBurst(a, b, k);
    SerialBurst(r, pre, w, w', post);
  }

  // ---- Parity: the polynomial has an even number of terms ----

  function Parity(s: bits): bool {
    if s == [] then false else s[0] != Parity(s[1..])
  }

  lemma {:induction false} ParityConcat(xs: bits, ys: bits)
    ensures Parity(xs + ys) == (Parity(xs) != Parity(ys))
  {
    if xs == [] {
      assert xs + ys == ys;
    } else {
      assert (xs + ys)[1..] == xs[1..] + ys;
      ParityConcat(xs[1..], ys);
    }
  }

  lemma {:induction false} ParityFlip(s: bits, i: nat)
    requires i < |s|
    ensures Parity(s[i := !s[i]]) == !Parity(s)
  {
    if i > 0 {
      assert s[i := !s[i]][1..] == s[1..][i - 1 := !s[i]];
      ParityFlip(s[1..], i - 1);
    } else {
      assert s[0 := !s[0]][1..] == s[1..];
    }
  }

  function Flip(s: bits, i: nat): (r: bits)
    requires i < |s|
    ensures |r| == |s|
  {
    s[i := !s[i]]
  }

  lemma StepFlips(r: bits)
    requires |r| == 16
    ensures var moved := r[1..] + [false]; Step(r) == if r[0] then Flip(Flip(Flip(moved, 3), 10), 15) else moved
  {
  }

  lemma ParityStep(r: bits)
    requires |r| == 16
    ensures Parity(Step(r)) == Parity(r)
  {
    var moved := r[1..] + [false];
    StepFlips(r);
    ParityConcat(r[1..], [false]);
    assert Parity([false]) == false;
    ParityFlip(moved, 3);
    ParityFlip(Flip(moved, 3), 10);
    ParityFlip(Flip(Flip(moved, 3), 10), 15);
  }

  lemma {:induction false} SerialParity(r: bits, ds: bits)
    requires |r| == 16
    ensures Parity(Serial(r, ds)) == (Parity(r) != Parity(ds))
    decreases |ds|
  {
    if ds != [] {
      var mixed := Xored(r, [ds[0]]);
      SerialParity(Step(mixed), ds[1..]);
      ParityStep(mixed);
      if ds[0] {
        ParityFlip(r, 0);
        assert mixed == r[0 := !r[0]];
      } else {
        assert mixed == r;
      }
    }
  }

  // ---- The integers refine the bits ----

  /** The k low bits of n, most significant first. */
  function BitsOf(n: nat, k: nat): (r: bits)
    ensures |r| == k
  {
    if k == 0 then [] else BitsOf(n / 2, k - 1) + [n % 2 == 1]
  }

  lemma {:induction false} BitsOfXor(a: nat, b: nat, k: nat)
    ensures BitsOf(Xor(a, b), k) == Xored(BitsOf(a, k), BitsOf(b, k))
  {
    if k > 0 {
      BitsOfXor(a / 2, b / 2, k - 1);
      assert Xor(a, b) / 2 == Xor(a / 2, b / 2);
    }
  }

  lemma {:induction false} BitsOfInjective(a: nat, b: nat, k: nat)
    requires a < Pow2(k) && b < Pow2(k) && BitsOf(a, k) == BitsOf(b, k)
    ensures a == b
  {
    if k > 0 {
      var r, s := BitsOf(a, k), BitsOf(b, k);
      assert r[k - 1] == s[k - 1] && r[..k - 1] == BitsOf(a / 2, k - 1) && s[..k - 1] == BitsOf(b / 2, k - 1);
      BitsOfInjective(a / 2, b / 2, k - 1);
    }
  }

  /** Dropping to the k low bits drops the bits above them. */
  lemma {:induction false} BitsOfMod(n: nat, k: nat)
    ensures BitsOf(n % Pow2(k), k) == BitsOf(n, k)
  {
    if k > 0 {
      ModHalf(n, Pow2(k - 1));
      BitsOfMod(n / 2, k - 1);
    }
  }

  lemma ModHalf(n: nat, p: nat)
    requires p > 0
    ensures n % (2 * p) / 2 == n / 2 % p && n % (2 * p) % 2 == n % 2
  {
    var q, r := n / 2 / p, n / 2 % p;
    assert (2 * p) * q == 2 * (p * q);
    EuclidUnique(2 * p, q, 2 * r + n % 2, n / (2 * p), n % (2 * p));
  }

  lemma EuclidUnique(d: nat, q: int, r: int, q': int, r': int)
    requires d > 0 && 0 <= r < d && 0 <= r' < d && d * q + r == d * q' + r'
    ensures q == q' && r == r'
  {
    if q < q' {
      NextMultiple(d, q, q');
    } else if q > q' {
      NextMultiple(d, q', q);
    }
  }

  lemma NextMultiple(d: nat, a: int, b: int)
    requires a < b
    ensures d * a + d <= d * b
  {
    assert d * (b - a - 1) >= 0;
    assert d * (b - a - 1) == d * b - d * a - d;
  }

  function Halved(n: nat, k: nat): nat {
    if k == 0 then n else Halved(n / 2, k - 1)
  }

  lemma {:induction false} HalvedAdd(n: nat, j: nat, k: nat)
    ensures Halved(n, j + k) == Halved(Halved(n, j), k)
  {
    if j > 0 {
      HalvedAdd(n / 2, j - 1, k);
    }
  }

  lemma HalvedFour(n: nat)
    ensures Halved(n, 3) == n / 8 && Halved(n, 4) == n / 0x10
  {
    assert Halved(n, 3) == Halved(n / 2, 2) == Halved(n / 2 / 2, 1) == n / 2 / 2 / 2;
    assert Halved(n, 4) == Halved(n / 2, 3) == Halved(n / 2 / 2, 2) == Halved(n / 2 / 2 / 2, 1);
  }

  lemma HalvedEight(n: nat)
    ensures Halved(n, 8) == n / 0x100
  {
    HalvedAdd(n, 4, 4);
    HalvedFour(n);
    HalvedFour(n / 0x10);
  }

  lemma HalvedTwelve(n: nat)
    ensures Halved(n, 12) == n / 0x1000
  {
    HalvedAdd(n, 8, 4);
    HalvedEight(n);
    HalvedFour(n / 0x100);
  }

  lemma HalvedFifteen(n: nat)
    ensures Halved(n, 15) == n / 0x8000
  {
    HalvedAdd(n, 12, 3);
    HalvedTwelve(n);
    HalvedFour(n / 0x1000);
  }

  /** The top bits come from the quotient. */
  lemma {:induction false} BitsOfSplit(n: nat, j: nat, k: nat)
    ensures BitsOf(n, j + k) == BitsOf(Halved(n, k), j) + BitsOf(n, k)
  {
    if k > 0 {
      BitsOfSplit(n / 2, j, k - 1);
    } else {
      assert BitsOf(n, j) + [] == BitsOf(n, j);
    }
  }

  function RegBits(c: word): (r: bits)
    ensures |r| == 16
  {
    BitsOf(c, 16)
  }

  function DataBits(data: seq<byte>): (r: bits)
    ensures |r| == 8 * |data|
  {
    if data == [] then [] else DataBits(data[..|data| - 1]) + BitsOf(data[|data| - 1], 8)
  }

  lemma {:induction false} BitAt(n: nat, k: nat, i: nat)
    requires i < k
    ensures BitsOf(n, k)[i] == (Halved(n, k - 1 - i) % 2 == 1)
  {
    if i < k - 1 {
      BitAt(n / 2, k - 1, i);
    }
  }

  lemma TopBit(c: word)
    ensures RegBits(c)[0] == (c / 0x8000 % 2 == 1)
  {
    BitAt(c, 16, 0);
    HalvedFifteen(c);
  }

  lemma RegBitsShift(c: word)
    ensures RegBits(2 * c % 0x1_0000) == RegBits(c)[1..] + [false]
  {
    Pow2Sixteen();
    BitsOfMod(2 * c, 16);
    BitsOfDouble(c);
    BitsOfSplit(c, 1, 15);
  }

  lemma BitsOfDouble(c: nat)
    ensures BitsOf(2 * c, 16) == BitsOf(c, 15) + [false]
  {
  }

  lemma {:induction false} BitsOfZero(k: nat)
    ensures BitsOf(0, k) == seq(k, i => false)
  {
    if k > 0 {
      BitsOfZero(k - 1);
    }
  }

  lemma RegBitsByte(b: byte)
    ensures RegBits(b * 0x100) == BitsOf(b, 8) + seq(8, i => false)
  {
    var c := b * 0x100;
    assert c / 0x100 == b && c % 0x100 == 0;
    TwoBytes(c);
    LowByteZero(c);
  }

  lemma TwoBytes(c: word)
    ensures RegBits(c) == BitsOf(c / 0x100, 8) + BitsOf(c, 8)
  {
    HalvedEight(c);
    BitsOfSplit(c, 8, 8);
  }

  lemma LowByteZero(c: word)
    requires c % 0x100 == 0
    ensures BitsOf(c, 8) == seq(8, i => false)
  {
    Pow2Sixteen();
    BitsOfMod(c, 8);
    BitsOfZero(8);
  }

  lemma {:induction false} BitsOfOnes(k: nat)
    ensures BitsOf(Pow2(k) - 1, k) == seq(k, i => true)
  {
    if k > 0 {
      BitsOfOnes(k - 1);
      assert (Pow2(k) - 1) / 2 == Pow2(k - 1) - 1;
    }
  }

  lemma RegBitsConstants()
    ensures RegBits(0xFFFF) == ONES && RegBits(0) == ZERO
  {
    Pow2Sixteen();
    BitsOfZero(16);
    BitsOfOnes(16);
  }

  function Bit(b: bool): nat {
    if b then 1 else 0
  }

  lemma NextBit(n: nat, q: nat, b: bool, k: nat)
    requires n == 2 * q + Bit(b)
    ensures BitsOf(n, k + 1) == BitsOf(q, k) + [b]
  {
  }

  /** Four bits at the end. */
  lemma NibbleIs(n: nat, q: nat, b3: bool, b2: bool, b1: bool, b0: bool, k: nat)
    requires n == 16 * q + 8 * Bit(b3) + 4 * Bit(b2) + 2 * Bit(b1) + Bit(b0)
    ensures BitsOf(n, k + 4) == BitsOf(q, k) + [b3, b2, b1, b0]
  {
    var n3 := 2 * q + Bit(b3);
    var n2 := 2 * n3 + Bit(b2);
    var n1 := 2 * n2 + Bit(b1);
    NextBit(n3, q, b3, k);
    NextBit(n2, n3, b2, k + 1);
    NextBit(n1, n2, b1, k + 2);
    NextBit(n, n1, b0, k + 3);
    FourMore(BitsOf(q, k), b3, b2, b1, b0);
  }

  lemma FourMore(s: bits, b3: bool, b2: bool, b1: bool, b0: bool)
    ensures s + [b3] + [b2] + [b1] + [b0] == s + [b3, b2, b1, b0]
  {
  }

  lemma TopNibble(a: nat)
    requires a == 1
    ensures BitsOf(a, 4) == [false, false, false, true]
  {
    NibbleIs(a, 0, false, false, false, true, 0);
  }

  lemma TopByte(a: nat, b: nat)
    requires a == 1 && b == 16 * a
    ensures BitsOf(b, 8) == [false, false, false, true] + [false, false, false, false]
  {
    TopNibble(a);
    NibbleIs(b, a, false, false, false, false, 4);
  }

  lemma PolyBits(b: nat, c: nat, n: nat)
    requires c == 16 * b + 2 && n == 16 * c + 1
    ensures BitsOf(n, 16) == BitsOf(b, 8) + [false, false, true, false] + [false, false, false, true]
  {
    NibbleIs(c, b, false, false, true, false, 8);
    NibbleIs(n, c, false, false, false, true, 12);
  }

  lemma RegBitsPoly(n: word)
    requires n == 0x1021
    ensures forall i :: 0 <= i < 16 ==> RegBits(n)[i] == Poly(i)
  {
    TopByte(1, 0x10);
    PolyBits(0x10, 0x102, n);
  }

  lemma ShiftedRefines(c: word)
    ensures RegBits(Shifted(c)) == Step(RegBits(c))
  {
    RegBitsShift(c);
    TopBit(c);
    BitsOfXor(2 * c % 0x1_0000, 0x1021, 16);
    RegBitsPoly(0x1021);
  }

  lemma MixedRefines(c: word, b: byte)
    ensures RegBits(Mixed(c, b)) == Xored(RegBits(c), BitsOf(b, 8))
  {
    BitsOfXor(c, b * 0x100, 16);
    RegBitsByte(b);
  }

  lemma {:induction false} ShiftedByRefines(c: word, n: nat)
    ensures RegBits(ShiftedBy(c, n)) == Steps(RegBits(c), n)
  {
    if n > 0 {
      ShiftedByRefines(c, n - 1);
      ShiftedRefines(ShiftedBy(c, n - 1));
    }
  }

  /** The register after any bytes is the bit-serial remainder of their bits. */
  lemma {:induction false} AbsorbedRefines(c: word, data: seq<byte>)
    ensures RegBits(Absorbed(c, data)) == Serial(RegBits(c), DataBits(data))
  {
    if data != [] {
      var rest, b := data[..|data| - 1], data[|data| - 1];
      var before := Absorbed(c, rest);
      AbsorbedRefines(c, rest);
      MixedRefines(before, b);
      ShiftedByRefines(Mixed(before, b), 8);
      SerialWord(RegBits(before), BitsOf(b, 8));
      SerialConcat(RegBits(c), DataBits(rest), BitsOf(b, 8));
    }
  }

  lemma CrcRefines(data: seq<byte>)
    ensures RegBits(Crc(data)) == Serial(ONES, DataBits(data))
  {
    RegBitsConstants();
    AbsorbedRefines(0xFFFF, data);
  }

  lemma Regroup<T>(a: seq<T>, b: seq<T>, c: seq<T>)
    ensures (a + b) + c == a + (b + c)
  {
  }

  lemma DataBitsNext(data: seq<byte>, b: byte)
    ensures DataBits(data + [b]) == DataBits(data) + BitsOf(b, 8)
  {
    assert (data + [b])[..|data|] == data;
  }

  lemma {:induction false} DataBitsConcat(xs: seq<byte>, ys: seq<byte>)
    ensures DataBits(xs + ys) == DataBits(xs) + DataBits(ys)
  {
    if ys == [] {
      assert xs + ys == xs;
    } else {
      var front, last := ys[..|ys| - 1], ys[|ys| - 1];
      assert ys == front + [last];
      DataBitsConcat(xs, front);
      Regroup(xs, front, [last]);
      DataBitsNext(xs + front, last);
      Regroup(DataBits(xs), DataBits(front), BitsOf(last, 8));
    }
  }

  lemma {:induction false} DataBitsInjective(xs: seq<byte>, ys: seq<byte>)
    requires DataBits(xs) == DataBits(ys)
    ensures xs == ys
  {
    if |xs| > 0 && |ys| > 0 {
      var n := |xs| - 1;
      assert DataBits(xs)[..8 * n] == DataBits(xs[..n]) && DataBits(ys)[..8 * n] == DataBits(ys[..n]);
      assert DataBits(xs)[8 * n..] == BitsOf(xs[n], 8) && DataBits(ys)[8 * n..] == BitsOf(ys[n], 8);
      DataBitsInjective(xs[..n], ys[..n]);
      Pow2Sixteen();
      BitsOfInjective(xs[n], ys[n], 8);
    }
  }

  lemma BigEndianBits(c: word)
    ensures DataBits(BigEndian(c)) == RegBits(c)
  {
    var be := BigEndian(c);
    assert be[..1] == [be[0]] && [be[0]][..0] == [];
    assert DataBits([be[0]]) == BitsOf(be[0], 8);
    Pow2Sixteen();
    HalvedEight(c);
    BitsOfSplit(c, 8, 8);
    BitsOfMod(c, 8);
  }

  // ---- What the receiver can rely on ----

  /** A frame checks (its CRC is zero) exactly when its last two bytes are the CRC of the rest. */
  lemma FrameChecks(body: seq<byte>, tail: seq<byte>)
    requires |tail| == 2
    ensures Crc(body + tail) == 0 <==> tail == BigEndian(Crc(body))
  {
    CrcRefines(body + tail);
    CrcRefines(body);
    DataBitsConcat(body, tail);
    BigEndianBits(Crc(body));
    SerialResidue(ONES, DataBits(body), DataBits(tail));
    RegBitsConstants();
    if Crc(body + tail) != 0 && RegBits(Crc(body + tail)) == ZERO {
      Pow2Sixteen();
      BitsOfInjective(Crc(body + tail), 0, 16);
    }
    if DataBits(tail) == DataBits(BigEndian(Crc(body))) {
      DataBitsInjective(tail, BigEndian(Crc(body)));
    }
  }

  /** Data whose differing bits all lie inside sixteen consecutive ones never share a CRC. */
  lemma BurstDetected(xs: seq<byte>, ys: seq<byte>, k: nat)
    requires |xs| == |ys| && xs != ys && k <= 8 * |xs|
    requires forall i :: 0 <= i < 8 * |xs| && !(k <= i < k + 16) ==> DataBits(xs)[i] == DataBits(ys)[i]
    ensures Crc(xs) != Crc(ys)
  {
    if DataBits(xs) == DataBits(ys) {
      DataBitsInjective(xs, ys);
    }
    BurstLeavesTrace(ONES, DataBits(xs), DataBits(ys), k);
    CrcRefines(xs);
    CrcRefines(ys);
  }

  /** In particular bodies that differ only inside two adjacent bytes. */
  lemma AdjacentBytesDetected(xs: seq<byte>, ys: seq<byte>, j: nat)
    requires |xs| == |ys| && xs != ys && j + 2 <= |xs|
    requires xs[..j] == ys[..j] && xs[j + 2..] == ys[j + 2..]
    ensures Crc(xs) != Crc(ys)
  {
    assert xs == xs[..j] + xs[j..j + 2] + xs[j + 2..];
    assert ys == xs[..j] + ys[j..j + 2] + xs[j + 2..];
    DataBitsConcat(xs[..j] + xs[j..j + 2], xs[j + 2..]);
    DataBitsConcat(xs[..j] + ys[j..j + 2], xs[j + 2..]);
    DataBitsConcat(xs[..j], xs[j..j + 2]);
    DataBitsConcat(xs[..j], ys[j..j + 2]);
    BurstDetected(xs, ys, 8 * j);
  }

  /** Any odd number of flipped bits changes the CRC, wherever they are and however many bytes there are. */
  lemma OddErrorsDetected(xs: seq<byte>, ys: seq<byte>)
    requires Parity(DataBits(xs)) != Parity(DataBits(ys))
    ensures Crc(xs) != Crc(ys)
  {
    CrcRefines(xs);
    CrcRefines(ys);
    SerialParity(ONES, DataBits(xs));
    SerialParity(ONES, DataBits(ys));
  }

  // ---- The Monad register ----

  /** A 32-bit number in network order. */
  function Octets(n: nat): (r: seq<byte>)
    requires n < 0x1_0000_0000
    ensures |r| == 4
  {
    [n / 0x100_0000, n / 0x1_0000 % 0x100, n / 0x100 % 0x100, n % 0x100]
  }

  /** The low octet of the flags with CUSTOM (bit 1) cleared and all else as it is. */
  function NoCustom(flags: int): byte {
    var f := flags % 0x100;
    f / 4 * 4 + f % 2
  }

  lemma QuartersAndRest(q: int, b: int)
    requires 0 <= b < 2
    ensures (q * 4 + b) / 4 == q && (q * 4 + b) / 2 == 2 * q && (q * 4 + b) % 2 == b
  {
  }

  lemma CustomCleared(flags: int)
    ensures var r := NoCustom(flags); r / 4 == flags % 0x100 / 4 && r / 2 % 2 == 0 && r % 2 == flags % 0x100 % 2
  {
    var f := flags % 0x100;
    QuartersAndRest(f / 4, f % 2);
  }

  /** The eighteen octets the checksum covers; service numbers that do not fit an octet are refused.
      Masking is Python's, so the low bits of a negative number are its residue. */
  function RegisterBody(flags: int, src: int, dst: int, hops: int, sequence: int): (r: Result<seq<byte>, Error>)
    ensures r.Success? ==> |r.value| == 18
  {
    if !(0 <= src < 0x100 && 0 <= dst < 0x100) then Failure(NotAnOctet)
    else
      Success([0x01, src, dst, hops % 0x100, 0, 0x00, 0x01, NoCustom(flags), 0, 0, 0x01, 0, 0, 0]
              + Octets(sequence % 0x1_0000_0000))
  }

  function BuildRegister(flags: int, src: int, dst: int, hops: int, sequence: int, badCrc: bool)
    : (r: Result<seq<byte>, Error>)
    ensures r.Success? <==> 0 <= src < 0x100 && 0 <= dst < 0x100
    ensures r.Success? ==> |r.value| == 20
  {
    match RegisterBody(flags, src, dst, hops, sequence)
    case Failure(e) => Failure(e)
    case Success(body) => Success(body + BigEndian(if badCrc then XorWord(Crc(body), 0xFFFF) else Crc(body)))
  }

  /** The register as the other side declares it. */
  datatype Register = Register(
    version: int, src: int, dst: int, hops: int, qos: int, flow: int, circuit: int, flags: int, latency: int,
    ring: int, mesh: int, srcPrefix: int, dstPrefix: int, scratch: int, checksum: int)

  function Number(b: seq<byte>): int {
    if b == [] then 0 else 0x100 * Number(b[..|b| - 1]) + b[|b| - 1]
  }

  function ReadRegister(b: seq<byte>): Register
    requires |b| == 20
  {
    Register(b[0], b[1], b[2], b[3], b[4], b[5], b[6], b[7], Number(b[0x08..0x0A]), b[0x0A], b[0x0B], b[0x0C], b[0x0D],
             Number(b[0x0E..0x12]), Number(b[0x12..0x14]))
  }

  lemma NumberOfTwo(b: seq<byte>)
    requires |b| == 2
    ensures Number(b) == 0x100 * b[0] as int + b[1]
  {
    assert b[..1] == [b[0]];
    assert Number(b[..1]) == b[0] by {
      assert b[..1][..0] == [];
    }
  }

  lemma NumberOfFour(b: seq<byte>)
    requires |b| == 4
    ensures Number(b) == 0x100_0000 * b[0] as int + 0x1_0000 * b[1] as int + 0x100 * b[2] as int + b[3]
  {
    assert b[..3][..2] == b[..2];
    NumberOfTwo(b[..2]);
  }

  lemma OctetsRead(n: nat)
    requires n < 0x1_0000_0000
    ensures Number(Octets(n)) == n
  {
    NumberOfFour(Octets(n));
    assert n / 0x1_0000 == n / 0x100 / 0x100 && n / 0x100_0000 == n / 0x1_0000 / 0x100;
  }

  lemma ReadParts(head: seq<byte>, scratch: seq<byte>, check: seq<byte>)
    requires |head| == 14 && |scratch| == 4 && |check| == 2
    ensures ReadRegister(head + scratch + check)
         == Register(head[0], head[1], head[2], head[3], head[4], head[5], head[6], head[7],
                     0x100 * head[8] as int + head[9], head[10], head[11], head[12], head[13],
                     Number(scratch), Number(check))
  {
    var b := head + scratch + check;
    assert b[0x08..0x0A] == [head[8], head[9]] && b[0x0E..0x12] == scratch && b[0x12..0x14] == check;
    NumberOfTwo(b[0x08..0x0A]);
  }

  lemma BodyReads(flags: int, src: int, dst: int, hops: int, sequence: int, check: seq<byte>)
    requires 0 <= src < 0x100 && 0 <= dst < 0x100 && |check| == 2
    ensures ReadRegister(RegisterBody(flags, src, dst, hops, sequence).value + check)
         == Register(1, src, dst, hops % 0x100, 0, 0, 1, NoCustom(flags), 0, 1, 0, 0, 0, sequence % 0x1_0000_0000,
                     Number(check))
  {
    ReadParts([0x01, src, dst, hops % 0x100, 0, 0x00, 0x01, NoCustom(flags), 0, 0, 0x01, 0, 0, 0],
              Octets(sequence % 0x1_0000_0000), check);
    OctetsRead(sequence % 0x1_0000_0000);
  }

  /** What the other side reads is what was asked for: the services, the hop count and the sequence number, each in
      the width of its field, the flags without CUSTOM (bit 1), and the checksum unless it was to be spoiled. */
  lemma RegisterReads(flags: int, src: int, dst: int, hops: int, sequence: int, badCrc: bool)
    requires 0 <= src < 0x100 && 0 <= dst < 0x100
    ensures var b := BuildRegister(flags, src, dst, hops, sequence, badCrc).value;
      var r := ReadRegister(b);
      && r == Register(1, src, dst, hops % 0x100, 0, 0, 1, r.flags, 0, 1, 0, 0, 0, sequence % 0x1_0000_0000, r.checksum)
      && r.flags / 4 == flags % 0x100 / 4 && r.flags / 2 % 2 == 0 && r.flags % 2 == flags % 0x100 % 2
      && (r.checksum == Crc(b[..18]) <==> !badCrc)
  {
    var body := RegisterBody(flags, src, dst, hops, sequence).value;
    var c := if badCrc then XorWord(Crc(body), 0xFFFF) else Crc(body);
    BodyReads(flags, src, dst, hops, sequence, BigEndian(c));
    CustomCleared(flags);
    NumberOfTwo(BigEndian(c));
    SpoiledDiffers(Crc(body));
    assert (body + BigEndian(c))[..18] == body;
  }

  lemma SpoiledDiffers(c: word)
    ensures BigEndian(XorWord(c, 0xFFFF)) != BigEndian(c)
  {
    var x := XorWord(c, 0xFFFF);
    BitsOfXor(c, 0xFFFF, 16);
    RegBitsConstants();
    assert RegBits(x)[0] != RegBits(c)[0];
    BigEndianBits(x);
    BigEndianBits(c);
  }

  /** The negative test is negative: a register passes the receiver's check exactly when it was not spoiled. */
  lemma RegisterChecks(flags: int, src: int, dst: int, hops: int, sequence: int, badCrc: bool)
    requires 0 <= src < 0x100 && 0 <= dst < 0x100
    ensures Crc(BuildRegister(flags, src, dst, hops, sequence, badCrc).value) == 0 <==> !badCrc
  {
    var body := RegisterBody(flags, src, dst, hops, sequence).value;
    FrameChecks(body, BigEndian(if badCrc then XorWord(Crc(body), 0xFFFF) else Crc(body)));
    SpoiledDiffers(Crc(body));
  }

  /** Whatever a burst of at most sixteen bits, or an odd number of flips, does to a good register is noticed. */
  lemma DamageNoticed(good: seq<byte>, bad: seq<byte>, k: nat)
    requires Crc(good) == 0 && |good| == |bad| && good != bad && k <= 8 * |good|
    requires || (forall i :: 0 <= i < 8 * |good| && !(k <= i < k + 16) ==> DataBits(good)[i] == DataBits(bad)[i])
             || Parity(DataBits(good)) != Parity(DataBits(bad))
    ensures Crc(bad) != 0
  {
    if Parity(DataBits(good)) != Parity(DataBits(bad)) {
      OddErrorsDetected(good, bad);
    } else {
      BurstDetected(good, bad, k);
    }
  }
}
