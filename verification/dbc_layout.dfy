/** Where a signal's bits lie in a frame: the bit-at-a-time walk that writing follows, its closed
    form, the value read along it, and two's complement extension to 64 bits. */
module DbcLayout {
  import opened DbcWords
  import opened Powers

  datatype ValueKind = Integer | Float | Double

  /** What a DBC file declares about a signal. */
  datatype Format = Format(start: nat, size: nat, bigEndian: bool, signed: bool, kind: ValueKind)
  {
    /** The widths of the fields, and the sizes for which the shifts by size - 1 are defined. */
    predicate Legal() {
      start < 0x1_0000 && 1 <= size <= 64
    }
  }

  // ----- the walk -----

  /** The position after src: down inside a byte and then to the top of the next one for big-endian
      signals, straight up for the others. */
  function Step(bigEndian: bool, src: nat): nat {
    if !bigEndian then src + 1 else if src % 8 == 0 then src + 15 else src - 1
  }

  /** The i-th position of the walk. */
  function Path(f: Format, i: nat): nat
    decreases i
  {
    if i == 0 then f.start else Step(f.bigEndian, Path(f, i - 1))
  }

  /** The bit of the raw value that belongs to the i-th position. */
  function RawBit(f: Format, i: nat): nat
    requires i < f.size
  {
    if f.bigEndian then f.size - 1 - i else i
  }

  predicate BufferBit(b: seq<Byte>, p: nat)
    requires p < 8 * |b|
  {
    Bit(b[p / 8], p % 8)
  }

  predicate Fits(f: Format, bytes: nat) {
    forall i :: 0 <= i < f.size ==> Path(f, i) < 8 * bytes
  }

  /** The value assembled from the first n positions, one bit at a time. */
  function Gather(f: Format, b: seq<Byte>, n: nat): nat
    requires n <= f.size && Fits(f, |b|)
  {
    if n == 0 then 0
    else Gather(f, b, n - 1) +
         (if BufferBit(b, Path(f, n - 1)) then Pow2(RawBit(f, n - 1)) else 0)
  }

  // ----- closed form of the walk -----

  /** Numbers the bits of a frame in the order of a big-endian walk; its own inverse. */
  function Line(p: nat): (r: nat)
    ensures r / 8 == p / 8
  {
    8 * (p / 8) + 7 - p % 8
  }

  lemma LineTwice(p: nat)
    ensures Line(Line(p)) == p
  {
  }

  /** The position of bit j of the raw value. */
  function Position(f: Format, j: nat): nat
    requires j < f.size
  {
    if f.bigEndian then Line(Line(f.start) + f.size - 1 - j) else f.start + j
  }

  lemma {:induction false} BigEndianWalk(f: Format, i: nat)
    requires f.bigEndian
    ensures Path(f, i) == Line(Line(f.start) + i)
  {
    if i == 0 {
      LineTwice(f.start);
    } else {
      BigEndianWalk(f, i - 1);
      NextOnLine(Line(f.start) + i - 1);
    }
  }

  lemma NextOnLine(n: nat)
    ensures Step(true, Line(n)) == Line(n + 1)
  {
    var q, r := n / 8, n % 8;
    assert n == 8 * q + r;
    assert Line(n) == 8 * q + (7 - r);
    assert Line(n) % 8 == 7 - r;
    if r == 7 {
      assert (n + 1) / 8 == q + 1 && (n + 1) % 8 == 0;
    } else {
      assert (n + 1) / 8 == q && (n + 1) % 8 == r + 1;
    }
  }

  lemma {:induction false} LittleEndianWalk(f: Format, i: nat)
    requires !f.bigEndian
    ensures Path(f, i) == f.start + i
  {
    if i > 0 { LittleEndianWalk(f, i - 1); }
  }

  /** The walk puts bit j of the raw value at its closed-form position. */
  lemma PathIsPosition(f: Format, i: nat)
    requires i < f.size
    ensures Path(f, i) == Position(f, RawBit(f, i))
  {
    hide Path, Line;
    if f.bigEndian { BigEndianWalk(f, i); } else { LittleEndianWalk(f, i); }
  }

  /** The walk never returns to a position. */
  lemma WalkIsInjective(f: Format, i: nat, k: nat)
    requires i < k < f.size
    ensures Path(f, i) != Path(f, k)
  {
    if f.bigEndian {
      BigEndianWalk(f, i);
      BigEndianWalk(f, k);
      LineTwice(Line(f.start) + i);
      LineTwice(Line(f.start) + k);
    } else {
      LittleEndianWalk(f, i);
      LittleEndianWalk(f, k);
    }
  }

  /** The walk's last byte bounds the whole signal. */
  lemma FitsIff(f: Format, bytes: nat)
    requires f.size >= 1
    ensures Fits(f, bytes) <==> Path(f, f.size - 1) / 8 < bytes
  {
    forall i | 0 <= i < f.size
      ensures Path(f, i) / 8 <= Path(f, f.size - 1) / 8
    {
      if f.bigEndian {
        BigEndianWalk(f, i);
        BigEndianWalk(f, f.size - 1);
      } else {
        LittleEndianWalk(f, i);
        LittleEndianWalk(f, f.size - 1);
      }
    }
  }

  lemma RawBitTwice(f: Format, j: nat)
    requires j < f.size
    ensures RawBit(f, j) < f.size && RawBit(f, RawBit(f, j)) == j
  {
  }

  lemma PositionFits(f: Format, bytes: nat, j: nat)
    requires j < f.size && Fits(f, bytes)
    ensures Position(f, j) == Path(f, RawBit(f, j)) < 8 * bytes
  {
    RawBitTwice(f, j);
    PathIsPosition(f, RawBit(f, j));
  }

  // ----- bits of the gathered value -----

  /** Bit j of a partly gathered value: clear until the walk has passed its position. */
  lemma {:induction false} PartBits(f: Format, b: seq<Byte>, n: nat, j: nat)
    requires n <= f.size && Fits(f, |b|)
    ensures Bit(Gather(f, b, n), j) ==
            (j < f.size && RawBit(f, j) < n && BufferBit(b, Path(f, RawBit(f, j))))
    decreases n
  {
    if n == 0 {
      ZeroBits(j);
    } else {
      var d := RawBit(f, n - 1);
      PartBits(f, b, n - 1, j);
      PartBits(f, b, n - 1, d);
      if BufferBit(b, Path(f, n - 1)) {
        SetBit(Gather(f, b, n - 1), d, j);
      }
    }
  }

  /** Adding a power of two whose digit is clear sets that digit and no other. */
  lemma {:induction false} SetBit(v: nat, d: nat, j: nat)
    requires !Bit(v, d)
    ensures Bit(v + Pow2(d), j) == (j == d || Bit(v, j))
  {
    if d == 0 {
      if j > 0 { assert (v + 1) / 2 == v / 2; }
    } else {
      assert (v + Pow2(d)) / 2 == v / 2 + Pow2(d - 1);
      if j > 0 { SetBit(v / 2, d - 1, j - 1); }
    }
  }

  lemma {:induction false} GatherBound(f: Format, b: seq<Byte>)
    requires Fits(f, |b|)
    ensures Gather(f, b, f.size) < Pow2(f.size)
  {
    var v := Gather(f, b, f.size);
    forall j | j >= f.size
      ensures !Bit(v, j)
    {
      PartBits(f, b, f.size, j);
    }
    LowBitsBound(v, f.size);
  }

  lemma {:induction false} LowBitsBound(v: nat, k: nat)
    requires forall j :: j >= k ==> !Bit(v, j)
    ensures v < Pow2(k)
    decreases v + k
  {
    if k > 0 {
      forall j | j >= k - 1
        ensures !Bit(v / 2, j)
      {
        assert !Bit(v, j + 1);
      }
      LowBitsBound(v / 2, k - 1);
    } else if v > 0 {
      assert !Bit(v, 0);
      forall j | j >= 0
        ensures !Bit(v / 2, j)
      {
        assert !Bit(v, j + 1);
      }
      LowBitsBound(v / 2, 0);
    }
  }

  /** Bit j of the gathered value is the frame's bit at j's position. */
  lemma GatherBits(f: Format, b: seq<Byte>, j: nat)
    requires j < f.size && Fits(f, |b|)
    ensures Position(f, j) < 8 * |b|
    ensures Bit(Gather(f, b, f.size), j) == BufferBit(b, Position(f, j))
  {
    PositionFits(f, |b|, j);
    PartBits(f, b, f.size, j);
  }

  // ----- sign extension -----

  /** The number that n binary digits denote in two's complement. */
  function TwosComplement(v: nat, n: nat): int
    requires n >= 1
  {
    if v >= Pow2(n - 1) then v - Pow2(n) else v
  }

  /** The same number in 64 binary digits. */
  function Extend(v: nat, n: nat): Word
    requires n >= 1
  {
    TwosComplement(v, n) % RANGE
  }

  lemma {:induction false} TopBit(v: nat, n: nat)
    requires n >= 1 && v < Pow2(n)
    ensures Bit(v, n - 1) <==> v >= Pow2(n - 1)
  {
    if n > 1 {
      TopBit(v / 2, n - 1);
    }
  }

  /** Extension keeps the number denoted. */
  lemma ExtendKeepsValue(v: nat, n: nat)
    requires 1 <= n <= 64 && v < Pow2(n)
    ensures TwosComplement(Extend(v, n), 64) == TwosComplement(v, n)
  {
    hide Pow2;
    TopPowers();
    HalfPower(n);
    Pow2Grows(n - 1, 63);
    WrapKeepsValue(v, Pow2(n - 1), Pow2(63));
  }

  lemma WrapKeepsValue(v: nat, half: nat, top: nat)
    requires v < 2 * half && half <= top && top > 0
    ensures var x := if v >= half then v - 2 * half else v;
            var w := x % (2 * top);
            x == if w >= top then w - 2 * top else w
  {
    if v >= half {
      WrapAround(v - 2 * half, 2 * top);
    } else {
      SmallRemainder(v, 2 * top);
    }
  }

  lemma SmallRemainder(x: nat, m: nat)
    requires x < m
    ensures x % m == x
  {
  }

  lemma WrapAround(x: int, m: nat)
    requires -(m as int) <= x < 0 && m > 0
    ensures x % m == x + m
  {
  }

  lemma TopPowers()
    ensures 2 * Pow2(63) == Pow2(64) == RANGE
  {
    Pow2Values();
    HalfPower(64);
  }

  lemma HalfPower(n: nat)
    requires n >= 1
    ensures Pow2(n) == 2 * Pow2(n - 1)
  {
  }

  /** What a decoder must return for a frame: the bits along the walk, extended when the signal is a
      signed integer. */
  function Decoded(f: Format, b: seq<Byte>): Word
    requires f.Legal() && Fits(f, |b|)
  {
    GatherBound(f, b);
    Pow2Values();
    Pow2Grows(f.size, 64);
    var v := Gather(f, b, f.size);
    if f.signed && f.kind == Integer then Extend(v, f.size) else v
  }
}
