/** The DBC signal codec: a constructor that picks an alignment and precomputes masks and shifts, a
    decoder that loads at most nine bytes, and an encoder that walks bit by bit. */
module DbcSignal {
  import opened DbcLayout
  import opened DbcWords
  import opened Powers

  // ----- loads -----

  /** The bytes as a little-endian number. */
  function Number(s: seq<Byte>): nat {
    if s == [] then 0 else s[0] + 256 * Number(s[1..])
  }

  lemma {:induction false} NumberBound(s: seq<Byte>)
    ensures Number(s) < Pow2(8 * |s|)
  {
    if s != [] {
      NumberBound(s[1..]);
      Pow2Adds(8, 8 * |s[1..]|);
      Pow2Values();
    }
  }

  lemma {:induction false} NumberBits(s: seq<Byte>, i: nat)
    requires i < 8 * |s|
    ensures Bit(Number(s), i) == BufferBit(s, i)
  {
    Pow2Values();
    JoinBits(s[0], Number(s[1..]), 8, i);
    if i >= 8 {
      NumberBits(s[1..], i - 8);
      assert s[1..][(i - 8) / 8] == s[i / 8];
    }
  }

  function LoadWord(b: seq<Byte>, at: nat): Word
    requires at + 8 <= |b|
  {
    NumberBound(b[at..at + 8]);
    Pow2Values();
    Number(b[at..at + 8])
  }

  /** The low n bytes of w in the opposite order. */
  function Reversed(w: nat, n: nat): nat {
    if n == 0 then 0 else Reversed(w / 256, n - 1) + Pow2(8 * (n - 1)) * (w % 256)
  }

  lemma {:induction false} ReversedBound(w: nat, n: nat)
    ensures Reversed(w, n) < Pow2(8 * n)
  {
    if n > 0 {
      ReversedBound(w / 256, n - 1);
      Pow2Values();
      Pow2Adds(8 * (n - 1), 8);
      BelowProduct(Reversed(w / 256, n - 1), Pow2(8 * (n - 1)), w % 256);
    }
  }

  lemma BelowProduct(r: nat, p: nat, m: Byte)
    requires r < p
    ensures r + p * m < p * 256
  {
    assert p * m <= p * 255;
  }

  lemma {:induction false} ReversedBits(w: nat, n: nat, i: nat)
    requires i < 8 * n
    ensures Bit(Reversed(w, n), i) == Bit(w, 8 * (n - 1 - i / 8) + i % 8)
  {
    hide Bit, Pow2;
    Pow2Values();
    ReversedBound(w / 256, n - 1);
    JoinBits(Reversed(w / 256, n - 1), w % 256, 8 * (n - 1), i);
    JoinBits(w % 256, w / 256, 8, 8 * (n - 1 - i / 8) + i % 8);
    if i < 8 * (n - 1) {
      ReversedBits(w / 256, n - 1, i);
    }
  }

  /** The word with its eight bytes in the opposite order. */
  function Swap(w: Word): Word {
    ReversedBound(w, 8);
    Pow2Values();
    Reversed(w, 8)
  }

  /** The word loaded at a byte, in the byte order of the signal. */
  function OrderedWord(bigEndian: bool, b: seq<Byte>, at: nat): Word
    requires at + 8 <= |b|
  {
    if bigEndian then Swap(LoadWord(b, at)) else LoadWord(b, at)
  }

  /** Where bit i of that word lies in the frame. */
  function WordPosition(bigEndian: bool, at: nat, i: nat): nat
    requires i < 64
  {
    if bigEndian then Line(8 * at + 63 - i) else 8 * at + i
  }

  lemma OrderedWordBits(bigEndian: bool, b: seq<Byte>, at: nat, i: nat)
    requires at + 8 <= |b| && i < 64
    ensures WordPosition(bigEndian, at, i) < 8 * |b|
    ensures Bit(OrderedWord(bigEndian, b, at), i) == BufferBit(b, WordPosition(bigEndian, at, i))
  {
    hide Bit, Number, Reversed, Line, BufferBit;
    if bigEndian {
      var k := 8 * (7 - i / 8) + i % 8;
      LineMirrors(at, i);
      ReversedBits(LoadWord(b, at), 8, i);
      LoadedBits(b, at, k);
    } else {
      LoadedBits(b, at, i);
    }
  }

  lemma LineMirrors(at: nat, i: nat)
    requires i < 64
    ensures Line(8 * at + 63 - i) == 8 * at + (8 * (7 - i / 8) + i % 8)
  {
  }

  lemma LoadedBits(b: seq<Byte>, at: nat, k: nat)
    requires at + 8 <= |b| && k < 64
    ensures Bit(LoadWord(b, at), k) == BufferBit(b, 8 * at + k)
  {
    hide Bit, Number;
    var s := b[at..at + 8];
    NumberBits(s, k);
    assert s[k / 8] == b[(8 * at + k) / 8];
  }

  /** The frame with the eight bytes of a word in the opposite order. */
  function Mirrored(b: seq<Byte>, at: nat): (r: seq<Byte>)
    requires at + 8 <= |b|
    ensures |r| == |b|
  {
    seq(|b|, i requires 0 <= i < |b| => if at <= i < at + 8 then b[2 * at + 7 - i] else b[i])
  }

  /** A load that is not swapped sees the mirrored frame. */
  lemma UnswappedLoad(b: seq<Byte>, at: nat)
    requires at + 8 <= |b|
    ensures LoadWord(b, at) == OrderedWord(true, Mirrored(b, at), at)
  {
    hide Bit, OrderedWord, LoadWord, WordPosition;
    var m := Mirrored(b, at);
    forall i | 0 <= i < 64
      ensures Bit(LoadWord(b, at), i) == Bit(OrderedWord(true, m, at), i)
    {
      LoadedBits(b, at, i);
      OrderedWordBits(true, m, at, i);
      MirroredBit(b, at, i);
    }
    Pow2Values();
    SameBits(LoadWord(b, at), OrderedWord(true, m, at), 64);
  }

  lemma MirroredBit(b: seq<Byte>, at: nat, i: nat)
    requires at + 8 <= |b| && i < 64
    ensures WordPosition(true, at, i) < 8 * |b|
    ensures BufferBit(Mirrored(b, at), WordPosition(true, at, i)) == BufferBit(b, 8 * at + i)
  {
    hide Bit, Line;
    LineMirrors(at, i);
    var p := WordPosition(true, at, i);
    assert p == 8 * (at + 7 - i / 8) + i % 8;
    assert p / 8 == at + 7 - i / 8 && p % 8 == i % 8;
    assert (8 * at + i) / 8 == at + i / 8;
  }

  // ----- what the precomputed fields mean -----

  datatype Alignment = FirstWord | OneWord | Straddling

  ghost predicate LowMask(m: Word, k: nat) {
    forall i :: 0 <= i < 64 ==> Bit(m, i) == (i < k)
  }

  ghost predicate HighMask(m: Word, k: nat) {
    forall i :: 0 <= i < 64 ==> Bit(m, i) == (i >= k)
  }

  /** The word loaded at a byte holds the whole signal, its bit 0 at the given shift. */
  ghost predicate HeldAt(f: Format, at: nat, shift: nat) {
    shift + f.size <= 64 &&
    forall j :: 0 <= j < f.size ==> Position(f, j) == WordPosition(f.bigEndian, at, shift + j)
  }

  /** Little-endian, nine bytes: the word holds all bits from shift up, the ninth byte the rest. */
  ghost predicate SplitLow(f: Format, at: nat, shift0: nat, shift1: nat, mask: Word) {
    0 < shift0 < 8 && shift0 + shift1 == 64 && shift1 < f.size <= shift1 + 8 &&
    LowMask(mask, f.size - shift1) &&
    forall j :: 0 <= j < f.size ==>
      Position(f, j) == if j < shift1 then WordPosition(false, at, shift0 + j)
                        else 8 * (at + 8) + j - shift1
  }

  /** Big-endian, nine bytes: the low end of the word holds all bits but the last shift0, which are
      the top bits of the ninth byte. */
  ghost predicate SplitHigh(f: Format, at: nat, shift0: nat, shift1: nat, mask: Word) {
    0 < shift0 < 8 && shift0 + shift1 == 8 && shift0 < f.size <= 64 + shift0 &&
    LowMask(mask, f.size - shift0) &&
    forall j :: 0 <= j < f.size ==>
      Position(f, j) == if j >= shift0 then WordPosition(true, at, j - shift0)
                        else 8 * (at + 8) + j + shift1
  }

  // ----- decoding, word by word -----

  lemma Assembled(f: Format, b: seq<Byte>, data: Word)
    requires f.Legal() && Fits(f, |b|)
    requires forall j :: 0 <= j < f.size ==> Position(f, j) < 8 * |b|
    requires forall j :: 0 <= j < 64 ==>
      Bit(data, j) == (j < f.size && BufferBit(b, Position(f, j)))
    ensures data == Gather(f, b, f.size) < Pow2(f.size)
  {
    hide Gather, Position, BufferBit;
    var v := Gather(f, b, f.size);
    GatherBound(f, b);
    Pow2Values();
    Pow2Grows(f.size, 64);
    forall j | 0 <= j < 64
      ensures Bit(data, j) == Bit(v, j)
    {
      if j < f.size { GatherBits(f, b, j); } else { HighBits(v, f.size, j); }
    }
    SameWords(data, v);
  }

  lemma OneWordDecodes(f: Format, b: seq<Byte>, at: nat, shift: nat, mask: Word)
    requires f.Legal() && Fits(f, |b|) && at + 8 <= |b|
    requires HeldAt(f, at, shift) && LowMask(mask, f.size)
    ensures And(Shr(OrderedWord(f.bigEndian, b, at), shift), mask) == Gather(f, b, f.size) < Pow2(f.size)
  {
    hide Gather, Position, OrderedWord, WordPosition, BufferBit;
    var w := OrderedWord(f.bigEndian, b, at);
    var data := And(Shr(w, shift), mask);
    forall j | 0 <= j < f.size
      ensures Position(f, j) < 8 * |b|
    {
      OrderedWordBits(f.bigEndian, b, at, shift + j);
    }
    forall j | 0 <= j < 64
      ensures Bit(data, j) == (j < f.size && BufferBit(b, Position(f, j)))
    {
      AndBits(Shr(w, shift), mask, j);
      if j < f.size {
        ShrBits(w, shift, j);
        OrderedWordBits(f.bigEndian, b, at, shift + j);
      }
    }
    Assembled(f, b, data);
  }

  /** A signal of 64 bits in one word is that word. */
  lemma FullWordDecodes(f: Format, b: seq<Byte>, at: nat, shift: nat, mask: Word)
    requires f.Legal() && Fits(f, |b|) && at + 8 <= |b| && f.size == 64
    requires HeldAt(f, at, shift) && LowMask(mask, f.size)
    ensures OrderedWord(f.bigEndian, b, at) == Gather(f, b, f.size)
  {
    hide Gather, Position, OrderedWord, WordPosition, BufferBit, Fits;
    var w := OrderedWord(f.bigEndian, b, at);
    OneWordDecodes(f, b, at, shift, mask);
    forall j | 0 <= j < 64
      ensures Bit(w, j) == Bit(And(Shr(w, shift), mask), j)
    {
      AndBits(Shr(w, shift), mask, j);
      ShrBits(w, shift, j);
    }
    SameWords(w, And(Shr(w, shift), mask));
  }

  lemma ByteWord(x: Byte, i: nat)
    requires i >= 8
    ensures !Bit(x, i)
  {
    Pow2Values();
    HighBits(x, 8, i);
  }

  lemma WordOr(a: Word, b: Word)
    ensures Or(a, b) < RANGE
  {
    Pow2Values();
    OrBound(a, b, 64);
  }

  lemma SplitLowDecodes(f: Format, b: seq<Byte>, at: nat, shift0: nat, shift1: nat, mask: Word)
    requires f.Legal() && Fits(f, |b|) && at + 9 <= |b| && !f.bigEndian
    requires SplitLow(f, at, shift0, shift1, mask)
    ensures Or(Shr(LoadWord(b, at), shift0), Shl(And(b[at + 8], mask), shift1)) ==
            Gather(f, b, f.size) < Pow2(f.size)
  {
    hide Gather, Position, LoadWord, Fits;
    var w, x := LoadWord(b, at), b[at + 8];
    var high := Shl(And(x, mask), shift1);
    var data := Or(Shr(w, shift0), high);
    WordOr(Shr(w, shift0), high);
    forall j | 0 <= j < 64
      ensures j < f.size ==> Position(f, j) < 8 * |b|
      ensures Bit(data, j) == (j < f.size && BufferBit(b, Position(f, j)))
    {
      OrBits(Shr(w, shift0), high, j);
      ShrBits(w, shift0, j);
      ShlBits(And(x, mask), shift1, j);
      if j < shift1 {
        OrderedWordBits(false, b, at, shift0 + j);
      } else {
        WordHighBits(w, shift0 + j);
        AndBits(x, mask, j - shift1);
        NinthByte(b, at, j - shift1);
      }
    }
    Assembled(f, b, data);
  }

  lemma NinthByte(b: seq<Byte>, at: nat, i: nat)
    requires at + 9 <= |b|
    ensures i < 8 ==> BufferBit(b, 8 * (at + 8) + i) == Bit(b[at + 8], i)
    ensures i >= 8 ==> !Bit(b[at + 8], i)
  {
    if i < 8 {
      assert (8 * (at + 8) + i) / 8 == at + 8 && (8 * (at + 8) + i) % 8 == i;
    } else {
      ByteWord(b[at + 8], i);
    }
  }

  lemma SplitHighDecodes(f: Format, b: seq<Byte>, at: nat, shift0: nat, shift1: nat, mask: Word)
    requires f.Legal() && Fits(f, |b|) && at + 9 <= |b| && f.bigEndian
    requires SplitHigh(f, at, shift0, shift1, mask)
    ensures Or(Shl(And(Swap(LoadWord(b, at)), mask), shift0), Shr(b[at + 8], shift1)) ==
            Gather(f, b, f.size) < Pow2(f.size)
  {
    hide Gather, Position, LoadWord, Swap, Fits, WordPosition;
    var w, x := Swap(LoadWord(b, at)), b[at + 8];
    var high := Shl(And(w, mask), shift0);
    var data := Or(high, Shr(x, shift1));
    WordOr(high, Shr(x, shift1));
    forall j | 0 <= j < 64
      ensures j < f.size ==> Position(f, j) < 8 * |b|
      ensures Bit(data, j) == (j < f.size && BufferBit(b, Position(f, j)))
    {
      OrBits(high, Shr(x, shift1), j);
      ShrBits(x, shift1, j);
      ShlBits(And(w, mask), shift0, j);
      NinthByte(b, at, j + shift1);
      if j >= shift0 {
        AndBits(w, mask, j - shift0);
        OrderedWordBits(true, b, at, j - shift0);
      }
    }
    Assembled(f, b, data);
  }

  lemma MaskSelectsTop(v: nat, n: nat, mask: Word)
    requires 1 <= n <= 64 && v < Pow2(n) && HighMask(mask, n - 1)
    ensures And(v, mask) != 0 <==> Bit(v, n - 1)
  {
    hide And, Bit, Pow2;
    AndBits(v, mask, n - 1);
    if And(v, mask) == 0 {
      ZeroBits(n - 1);
    } else {
      var i := SomeBit(And(v, mask), n);
      AndBits(v, mask, i);
      assert Bit(mask, i);
    }
  }

  /** Setting every bit from the sign bit up extends a value whose sign bit is set. */
  lemma OrExtends(v: nat, n: nat, mask: Word)
    requires 1 <= n <= 64 && v < Pow2(n) && HighMask(mask, n - 1) && Bit(v, n - 1)
    ensures Or(v, mask) == Extend(v, n)
  {
    hide Or, Bit, Pow2;
    Pow2Values();
    Pow2Grows(n, 64);
    Pow2Adds(n, 64 - n);
    TopBit(v, n);
    WrapAround(v - Pow2(n), RANGE);
    var ones := Pow2(64 - n) - 1;
    assert Extend(v, n) == v + Pow2(n) * ones;
    WordOr(v, mask);
    forall i | 0 <= i < 64
      ensures Bit(Or(v, mask), i) == Bit(v + Pow2(n) * ones, i)
    {
      OrBits(v, mask, i);
      JoinBits(v, ones, n, i);
      if i >= n { MaskBits(64 - n, i - n); }
    }
    SameWords(Or(v, mask), Extend(v, n));
  }

  lemma Unextended(v: nat, n: nat)
    requires 1 <= n <= 64 && v < Pow2(n) && !Bit(v, n - 1)
    ensures v == Extend(v, n)
  {
    hide Bit, Pow2;
    TopBit(v, n);
    Pow2Values();
    Pow2Grows(n, 64);
  }

  // ----- the constructor's choices -----

  lemma HeldLittle(f: Format, at: nat, shift: nat)
    requires !f.bigEndian && 8 * at + shift == f.start && shift + f.size <= 64
    ensures HeldAt(f, at, shift)
  {
  }

  lemma HeldBig(f: Format, at: nat, shift: nat)
    requires f.bigEndian && shift + f.size <= 64
    requires 8 * at + 63 - shift == Line(f.start) + f.size - 1
    ensures HeldAt(f, at, shift)
  {
    hide Line;
    forall j | 0 <= j < f.size
      ensures Position(f, j) == WordPosition(true, at, shift + j)
    {
      assert Line(f.start) + f.size - 1 - j == 8 * at + 63 - (shift + j);
    }
  }

  lemma SplitsBig(f: Format, at: nat, shift0: nat, mask: Word)
    requires f.Legal() && f.bigEndian && 0 < shift0 < 8 && shift0 < f.size
    requires 8 * at + 63 + shift0 == Line(f.start) + f.size - 1
    requires LowMask(mask, f.size - shift0)
    ensures SplitHigh(f, at, shift0, 8 - shift0, mask)
  {
    forall j | 0 <= j < f.size
      ensures Position(f, j) == if j >= shift0 then WordPosition(true, at, j - shift0)
                                else 8 * (at + 8) + j + (8 - shift0)
    {
      var n := Line(f.start) + f.size - 1 - j;
      if j >= shift0 {
        assert n == 8 * at + 63 - (j - shift0);
      } else {
        assert n / 8 == at + 8 && n % 8 == shift0 - 1 - j;
      }
    }
  }

  lemma LowMaskIs(k: nat)
    requires 1 <= k <= 64
    ensures LowMask(Minus(Shl(Shl(1, k - 1), 1), 1), k)
  {
    hide Bit;
    OnesOf(k);
    var m := Minus(Shl(Shl(1, k - 1), 1), 1);
    forall i | 0 <= i < 64
      ensures Bit(m, i) == (i < k)
    {
      MaskBits(k, i);
    }
  }

  /** The shift in two steps gives 2^k - 1 even for k = 64, where the last one loses the bit. */
  lemma OnesOf(k: nat)
    requires 1 <= k <= 64
    ensures Minus(Shl(Shl(1, k - 1), 1), 1) == Pow2(k) - 1
  {
    hide Pow2, Shl, Minus;
    ShlOne(k - 1);
    DoubleShift(Pow2(k - 1));
    Pow2Values();
    Pow2Grows(k, 64);
    HalfPower(k);
    MinusOne(Pow2(k));
  }

  lemma MinusOne(n: nat)
    requires 0 < n <= RANGE
    ensures Minus(n % RANGE, 1) == n - 1
  {
    if n == RANGE { WrapAround(-1, RANGE); }
  }

  lemma DoubleShift(n: Word)
    ensures Shl(n, 1) == (2 * n) % RANGE
  {
  }

  lemma HighMaskIs(k: nat)
    requires k < 64
    ensures HighMask(Not(Minus(Shl(1, k), 1)), k)
  {
    hide Bit;
    ShlOne(k);
    hide Pow2, Shl, Not;
    forall i | 0 <= i < 64
      ensures Bit(Not(Minus(Shl(1, k), 1)), i) == (i >= k)
    {
      MaskBits(k, i);
      NotBits(Pow2(k) - 1, i);
    }
  }

  lemma ShortMaskIs(k: nat)
    requires k < 64
    ensures LowMask(Minus(Shl(1, k), 1), k)
  {
    hide Bit;
    ShlOne(k);
    hide Pow2, Shl;
    var m := Minus(Shl(1, k), 1);
    forall i | 0 <= i < 64
      ensures Bit(m, i) == (i < k)
    {
      MaskBits(k, i);
    }
  }

  // ----- the frame the signal needs -----

  /** The bytes the signal's first bit is in and its bits stretch over. */
  function Span(f: Format): nat {
    (f.size + (if f.bigEndian then 7 - f.start % 8 else f.start % 8) + 7) / 8
  }

  /** The least frame length that holds the signal. */
  function Needed(f: Format): nat { f.start / 8 + Span(f) }

  lemma NeededIsLeast(f: Format, bytes: nat)
    requires f.Legal()
    ensures Fits(f, bytes) <==> Needed(f) <= bytes
  {
    FitsIff(f, bytes);
    if f.bigEndian { BigEndianWalk(f, f.size - 1); } else { LittleEndianWalk(f, f.size - 1); }
  }

  /** One past the last byte that decoding loads. */
  function Reach(f: Format): nat {
    var first, span := f.start / 8, Span(f);
    if first + span <= 8 then 8
    else if first % 8 + span <= 8 then first - first % 8 + 8
    else if span <= 8 then first + 8
    else first + 9
  }

  /** Decoding loads every byte of the signal, and stays inside the length the interface asks of its
      callers (at least eight bytes and at least the signal's own) exactly when the signal lies in
      the first eight bytes, needs nine, or ends where the loaded word ends. */
  lemma LoadsStayInside(f: Format)
    requires f.Legal()
    ensures Fits(f, Reach(f))
    ensures Reach(f) <= (if Needed(f) < 8 then 8 else Needed(f)) <==>
            Needed(f) <= 8 || Span(f) == 9 || f.start / 8 % 8 + Span(f) == 8 || Span(f) == 8
  {
    NeededIsLeast(f, Reach(f));
  }

  /** A signal in the ninth byte needs nine bytes, and decoding it loads sixteen. */
  lemma LoadsLeaveTheFrame()
    ensures var f := Format(64, 4, false, false, Integer);
            f.Legal() && Needed(f) == 9 && Fits(f, 9) && Reach(f) == 16
  {
    NeededIsLeast(Format(64, 4, false, false, Integer), 9);
  }

  /** The conversion to a signed 16-bit number in the check for big-endian signals. */
  function AsInt16(n: nat): int
    requires n < 0x1_0000
  {
    if n < 0x8000 then n else n - 0x1_0000
  }

  /** The constructor's test that the signal exceeds a message of the given length. */
  predicate Exceeds(f: Format, messageBytes: nat)
    requires f.Legal()
  {
    if f.bigEndian then
      var fsize := f.size + (7 - f.start % 8);
      var fstart := AsInt16(f.start) - f.start % 8;
      fstart + ((fsize - 1) / 8) * 8 >= messageBytes * 8
    else
      f.start + f.size > messageBytes * 8
  }

  /** The length the constructor tests against: messages of fewer than eight bytes count as eight. */
  function Counted(messageSize: nat): nat { if messageSize < 8 then 8 else messageSize }

  /** The signal fits the message, or the test notices that it does not: it has to reach beyond the
      eighth byte, and must not be a big-endian one so far out that it turns negative in the test. */
  predicate Noticed(f: Format, messageSize: nat) {
    Needed(f) <= messageSize || (Needed(f) > 8 && (!f.bigEndian || f.start < 0x8000))
  }

  /** That is exactly when the test is right about the message as declared. */
  lemma ExceedsIff(f: Format, messageSize: nat)
    requires f.Legal()
    ensures (Exceeds(f, Counted(messageSize)) <==> !Fits(f, messageSize)) <==> Noticed(f, messageSize)
  {
    NeededIsLeast(f, messageSize);
    if f.bigEndian {
      var q, r := f.start / 8, f.start % 8;
      assert (f.size + (7 - r) - 1) / 8 + 1 == Span(f);
    }
  }

  /** A signal in the fifth byte passes the test of a message of four bytes. */
  lemma ShortMessagePasses()
    ensures var f := Format(32, 8, false, false, Integer);
            f.Legal() && !Exceeds(f, Counted(4)) && !Fits(f, 4) && Needed(f) == 5
  {
    NeededIsLeast(Format(32, 8, false, false, Integer), 4);
  }

  /** A big-endian signal four kilobytes beyond an eight-byte message passes the test. */
  lemma FarSignalPasses()
    ensures var f := Format(0x8007, 8, true, false, Integer);
            f.Legal() && !Exceeds(f, Counted(8)) && !Fits(f, 8) && Needed(f) == 0x1001
  {
    NeededIsLeast(Format(0x8007, 8, true, false, Integer), 8);
  }

  // ----- writing -----

  /** p is one of the first n positions of the walk. */
  predicate OnWalk(f: Format, n: nat, p: nat) {
    exists i :: 0 <= i < n && Path(f, i) == p
  }

  /** after is before with the first n positions of the walk set from raw and nothing else changed. */
  ghost predicate WrittenUpTo(f: Format, before: seq<Byte>, raw: Word, after: seq<Byte>, n: nat)
    requires n <= f.size && Fits(f, |before|)
  {
    |after| == |before| &&
    (forall i :: 0 <= i < n ==> BufferBit(after, Path(f, i)) == Bit(raw, RawBit(f, i))) &&
    forall p :: 0 <= p < 8 * |before| && !OnWalk(f, n, p) ==> BufferBit(after, p) == BufferBit(before, p)
  }

  ghost predicate Written(f: Format, before: seq<Byte>, raw: Word, after: seq<Byte>)
    requires Fits(f, |before|)
  {
    WrittenUpTo(f, before, raw, after, f.size)
  }

  lemma WalkStarts(f: Format, before: seq<Byte>, raw: Word)
    requires f.Legal() && Fits(f, |before|)
    ensures Path(f, 0) == f.start && RawBit(f, 0) == if f.bigEndian then f.size - 1 else 0
    ensures WrittenUpTo(f, before, raw, before, 0)
    ensures forall i :: 0 <= i < f.size ==> Path(f, i) < 8 * |before| && RawBit(f, i) < 64
  {
  }

  /** From one position and bit of the raw value to the next. */
  lemma WalkSteps(f: Format, i: nat)
    requires i < f.size
    ensures Path(f, i + 1) == Step(f.bigEndian, Path(f, i))
    ensures i + 1 < f.size ==> RawBit(f, i + 1) == if f.bigEndian then RawBit(f, i) - 1 else RawBit(f, i) + 1
    ensures f.bigEndian && i + 1 < f.size ==> RawBit(f, i) > 0
  {
  }

  /** Writing one more position. */
  lemma WritesNext(f: Format, before: seq<Byte>, raw: Word, mid: seq<Byte>, n: nat, x: Byte)
    requires n < f.size && Fits(f, |before|) && WrittenUpTo(f, before, raw, mid, n)
    requires forall k :: 0 <= k < 8 ==>
      Bit(x, k) == if k == Path(f, n) % 8 then Bit(raw, RawBit(f, n)) else Bit(mid[Path(f, n) / 8], k)
    ensures WrittenUpTo(f, before, raw, mid[Path(f, n) / 8 := x], n + 1)
  {
    hide Path, Bit, RawBit;
    var after := mid[Path(f, n) / 8 := x];
    forall p | 0 <= p < 8 * |before|
      ensures BufferBit(after, p) == if p == Path(f, n) then Bit(raw, RawBit(f, n)) else BufferBit(mid, p)
    {
      if p / 8 == Path(f, n) / 8 { assert p == 8 * (p / 8) + p % 8; }
    }
    forall i | 0 <= i < n + 1
      ensures BufferBit(after, Path(f, i)) == Bit(raw, RawBit(f, i))
    {
      if i < n { WalkIsInjective(f, i, n); }
    }
    forall p | 0 <= p < 8 * |before| && !OnWalk(f, n + 1, p)
      ensures BufferBit(after, p) == BufferBit(before, p)
    {
      assert p != Path(f, n);
      assert !OnWalk(f, n, p);
    }
  }

  lemma SetsBit(x: Byte, k: nat)
    requires k < 8
    ensures Or(x, Shl(1, k)) < 256
    ensures forall i :: 0 <= i < 8 ==> Bit(Or(x, Shl(1, k)), i) == (i == k || Bit(x, i))
  {
    hide Bit, Or, Shl;
    ShlOne(k);
    Pow2Values();
    Pow2Grows(k, 7);
    HalfPower(8);
    OrBound(x, Shl(1, k), 8);
    forall i | 0 <= i < 8
      ensures Bit(Or(x, Shl(1, k)), i) == (i == k || Bit(x, i))
    {
      OrBits(x, Shl(1, k), i);
      OneBit(k, i);
    }
  }

  lemma ClearsBit(x: Byte, k: nat)
    requires k < 8
    ensures forall i :: 0 <= i < 8 ==> Bit(And(x, Not(Shl(1, k))), i) == (i != k && Bit(x, i))
  {
    hide Bit, And, Shl, Not;
    ShlOne(k);
    forall i | 0 <= i < 8
      ensures Bit(And(x, Not(Shl(1, k))), i) == (i != k && Bit(x, i))
    {
      AndBits(x, Not(Shl(1, k)), i);
      NotBits(Shl(1, k), i);
      OneBit(k, i);
    }
  }

  lemma TestsBit(raw: Word, k: nat)
    requires k < 64
    ensures And(raw, Shl(1, k)) != 0 <==> Bit(raw, k)
  {
    hide Bit, And, Shl;
    ShlOne(k);
    AndBits(raw, Shl(1, k), k);
    OneBit(k, k);
    Pow2Values();
    if And(raw, Shl(1, k)) == 0 {
      ZeroBits(k);
    } else {
      var i := SomeBit(And(raw, Shl(1, k)), 64);
      AndBits(raw, Shl(1, k), i);
      OneBit(k, i);
    }
  }

  // ----- the class -----

  const EXCEEDS_MESSAGE: nat := 2
  const WRONG_SIZE: nat := 3

  /** A Float or Double of another size than its own. */
  predicate WrongSize(f: Format) { (f.kind == Float && f.size != 32) || (f.kind == Double && f.size != 64) }

  lemma CodeBits()
    ensures forall i :: 0 <= i < 8 ==> !Bit(0, i) && (Bit(4, i) <==> i == 2) && (Bit(8, i) <==> i == 3)
    ensures forall i :: 0 <= i < 8 ==> (Bit(12, i) <==> i == 2 || i == 3)
  {
    forall i | 0 <= i < 8
      ensures !Bit(0, i) && (Bit(4, i) <==> i == 2) && (Bit(8, i) <==> i == 3) && (Bit(12, i) <==> i == 2 || i == 3)
    {
      ZeroBits(i);
      OneBit(2, i);
      OneBit(3, i);
      Pow2Values();
      assert Bit(12, 0) == Bit(12, 1) == false && Bit(12, 2) == Bit(12, 3) == true;
      assert Bit(12, 4) == Bit(12, 5) == Bit(12, 6) == Bit(12, 7) == false;
    }
  }

  /** The word whose bits are the codes that were set. */
  lemma ErrorWord(error: Word, exceeds: bool, wrongSize: bool)
    requires error < 256
    requires forall i :: 0 <= i < 8 ==> (Bit(error, i) <==> (exceeds && i == 2) || (wrongSize && i == 3))
    ensures error == (if exceeds then 4 else 0) + (if wrongSize then 8 else 0)
  {
    CodeBits();
    hide Bit;
    Pow2Values();
    SameBits(error, (if exceeds then 4 else 0) + (if wrongSize then 8 else 0), 8);
  }

  /** A signal with the fields its constructor saves to speed up decoding. Bits 2 and 3 of error are
      the codes 4 and 8. Whether the macro that is to swap a loaded word in place changes its argument
      depends on the platform's header; swaps says so. */
  class Signal {
    const name: string
    const format: Format
    const swaps: bool
    var error: Word
    var alignment: Alignment
    var mask: Word
    var maskSigned: Word
    var bytePos: nat
    var fixed0: nat
    var fixed1: nat

    ghost predicate Valid()
      reads this
    {
      format.Legal() && HighMask(maskSigned, format.size - 1) && LoadAt() <= format.start / 8 < LoadAt() + 8 &&
      match alignment
      case FirstWord => LowMask(mask, format.size) && HeldAt(format, 0, fixed0)
      case OneWord => LowMask(mask, format.size) && HeldAt(format, bytePos, fixed0)
      case Straddling =>
        if format.bigEndian then SplitHigh(format, bytePos, fixed0, fixed1, mask)
        else SplitLow(format, bytePos, fixed0, fixed1, mask)
    }

    /** One past the last byte that Decode loads. */
    function LoadEnd(): nat
      reads this
    {
      match alignment
      case FirstWord => 8
      case OneWord => bytePos + 8
      case Straddling => bytePos + 9
    }

    /** Whether the signal has been found to exceed a message of that length. */
    predicate CheckedFor(messageSize: nat)
      requires format.Legal()
      reads this
    {
      Bit(error, EXCEEDS_MESSAGE) <==> Exceeds(format, Counted(messageSize))
    }

    /** Where Decode loads a word. */
    function LoadAt(): nat
      reads this
    {
      if alignment == FirstWord then 0 else bytePos
    }

    /** The frame as Decode sees it. */
    function Seen(bytes: seq<Byte>): (r: seq<Byte>)
      requires LoadEnd() <= |bytes|
      ensures |r| == |bytes|
      reads this
    {
      if format.bigEndian && !swaps then Mirrored(bytes, LoadAt()) else bytes
    }

    /** Whether Decode returns the whole loaded word: a Double of a size other than 64, which has the
        WRONG_SIZE code. */
    predicate ReturnsWord()
      reads this
    {
      format.kind == Double && format.size != 64 && alignment != Straddling
    }

    /** What Decode returns. */
    function Result(bytes: seq<Byte>): Word
      requires format.Legal() && LoadEnd() <= |bytes| && Fits(format, |bytes|)
      reads this
    {
      if ReturnsWord() then OrderedWord(format.bigEndian, Seen(bytes), LoadAt()) else Decoded(format, Seen(bytes))
    }

    constructor (messageSize: nat, name: string, f: Format, swaps: bool)
      requires messageSize < 0x1_0000 && f.Legal()
      ensures Valid() && this.name == name && format == f && this.swaps == swaps && LoadEnd() == Reach(f)
      ensures CheckedFor(messageSize)
      ensures Bit(error, WRONG_SIZE) <==> WrongSize(f)
      ensures error == (if Exceeds(f, Counted(messageSize)) then 4 else 0) +
                       (if (f.kind == Float && f.size != 32) || (f.kind == Double && f.size != 64) then 8 else 0)
    {
      this.name := name;
      format := f;
      this.swaps := swaps;
      error := 0;
      bytePos := f.start / 8;
      fixed0 := 0;
      fixed1 := 0;
      mask := Minus(Shl(Shl(1, f.size - 1), 1), 1);
      maskSigned := Not(Minus(Shl(1, f.size - 1), 1));
      alignment := FirstWord;
      new;
      LowMaskIs(f.size);
      HighMaskIs(f.size - 1);
      CheckFormat(Counted(messageSize));
      Align();
    }

    method CheckFormat(messageBytes: nat)
      requires format.Legal() && error == 0
      modifies this`error
      ensures Bit(error, EXCEEDS_MESSAGE) <==> Exceeds(format, messageBytes)
      ensures Bit(error, WRONG_SIZE) <==> WrongSize(format)
      ensures error == (if Exceeds(format, messageBytes) then 4 else 0) + (if WrongSize(format) then 8 else 0)
    {
      CodeBits();
      hide Bit, Exceeds;
      if Exceeds(format, messageBytes) {
        SetError(4);
      }
      match format.kind {
        case Integer =>
        case Float =>
          if format.size != 32 { SetError(8); }
        case Double =>
          if format.size != 64 { SetError(8); }
      }
      ErrorWord(error, Exceeds(format, messageBytes), WrongSize(format));
    }

    method SetError(code: Byte)
      requires error < 256
      modifies this`error
      ensures error < 256
      ensures forall i :: 0 <= i < 8 ==> Bit(error, i) == (old(Bit(error, i)) || Bit(code, i))
    {
      Pow2Values();
      OrBound(error, code, 8);
      error := Or(error, code);
      forall i | 0 <= i < 8
        ensures Bit(error, i) == (old(Bit(error, i)) || Bit(code, i))
      {
        OrBits(old(error), code, i);
      }
    }

    /** Chooses the alignment and the shifts that go with it. */
    method Align()
      requires format.Legal() && bytePos == format.start / 8
      requires LowMask(mask, format.size) && HighMask(maskSigned, format.size - 1)
      modifies this`alignment, this`bytePos, this`fixed0, this`fixed1, this`mask
      ensures Valid() && LoadEnd() == Reach(format)
    {
      var start, size := format.start, format.size;
      var nbytes := if format.bigEndian then (size + (7 - start % 8) + 7) / 8 else (start % 8 + size + 7) / 8;
      if bytePos + nbytes <= 8 {
        alignment := FirstWord;
        Shift(0);
      } else if bytePos % 8 + nbytes <= 8 {
        alignment := OneWord;
        bytePos := bytePos - bytePos % 8;
        Shift(bytePos);
      } else if nbytes <= 8 {
        alignment := OneWord;
        Shift(bytePos);
      } else {
        alignment := Straddling;
        Split();
      }
    }

    /** The shifts and the mask for a signal that needs nine bytes. */
    method Split()
      requires format.Legal() && bytePos == format.start / 8 && Span(format) > 8
      modifies this`fixed0, this`fixed1, this`mask
      ensures if format.bigEndian then SplitHigh(format, bytePos, fixed0, fixed1, mask)
              else SplitLow(format, bytePos, fixed0, fixed1, mask)
    {
      var start, size := format.start, format.size;
      if format.bigEndian {
        var lastBits := (7 - start % 8) + size - 64;
        fixed0 := lastBits;
        fixed1 := 8 - lastBits;
        mask := Minus(Shl(1, start % 8 + 57), 1);
        ShortMaskIs(start % 8 + 57);
        SplitsBig(format, bytePos, fixed0, mask);
      } else {
        fixed0 := start - bytePos * 8;
        fixed1 := 64 - start % 8;
        var lastBits := size + start % 8 - 64;
        mask := Minus(Shl(1, lastBits), 1);
        ShortMaskIs(lastBits);
      }
    }

    /** The shift for a signal that lies inside the word at the given byte. */
    method Shift(at: nat)
      requires format.Legal() && at <= format.start / 8 && format.start / 8 + Span(format) <= at + 8
      modifies this`fixed0
      ensures HeldAt(format, at, fixed0)
    {
      fixed0 := format.start - at * 8;
      if format.bigEndian {
        fixed0 := 8 * (7 - fixed0 / 8) + fixed0 % 8 - (format.size - 1);
        HeldBig(format, at, fixed0);
      } else {
        HeldLittle(format, at, fixed0);
      }
    }

    /** Reads the raw value with one word load, or one word and one byte. */
    method Decode(bytes: seq<Byte>) returns (data: Word)
      requires Valid() && LoadEnd() <= |bytes| && Fits(format, |bytes|)
      ensures data == Result(bytes)
    {
      hide Mirrored;
      if alignment == Straddling {
        data := LoadNine(bytes);
        if format.kind != Integer {
          return;
        }
        if format.signed {
          data := SignExtended(data);
        }
      } else {
        data := LoadOrdered(bytes);
        if format.kind == Double {
          if format.size == 64 { FullWordDecodes(format, Seen(bytes), LoadAt(), fixed0, mask); }
          return;
        }
        OneWordDecodes(format, Seen(bytes), LoadAt(), fixed0, mask);
        data := Shr(data, fixed0);
        data := And(data, mask);
        if format.kind == Float {
          return;
        }
        if format.signed {
          data := SignExtended(data);
        }
      }
    }

    /** The loaded word, swapped if it is to be and the macro does it. */
    method LoadOrdered(bytes: seq<Byte>) returns (data: Word)
      requires LoadEnd() <= |bytes|
      ensures data == OrderedWord(format.bigEndian, Seen(bytes), LoadAt())
    {
      hide Mirrored, LoadWord, Swap;
      data := LoadWord(bytes, LoadAt());
      if format.bigEndian {
        if swaps {
          data := Swap(data);
        } else {
          UnswappedLoad(bytes, LoadAt());
        }
      }
    }

    /** The unextended value of a signal that needs nine bytes. */
    method LoadNine(bytes: seq<Byte>) returns (data: Word)
      requires Valid() && alignment == Straddling && LoadEnd() <= |bytes| && Fits(format, |bytes|)
      ensures data == Gather(format, Seen(bytes), format.size) && data < Pow2(format.size)
    {
      hide Gather, Pow2, LoadWord;
      data := LoadOrdered(bytes);
      var data1 := bytes[bytePos + 8];
      assert data1 == Seen(bytes)[bytePos + 8];
      if format.bigEndian {
        data := And(data, mask);
        data := Shl(data, fixed0);
        data1 := Shr(data1, fixed1);
        WordOr(data, data1);
        data := Or(data, data1);
        SplitHighDecodes(format, Seen(bytes), bytePos, fixed0, fixed1, mask);
      } else {
        data := Shr(data, fixed0);
        var tail: Word := And(data1, mask);
        tail := Shl(tail, fixed1);
        WordOr(data, tail);
        data := Or(data, tail);
        SplitLowDecodes(format, bytes, bytePos, fixed0, fixed1, mask);
      }
    }

    method SignExtended(v: Word) returns (data: Word)
      requires format.Legal() && HighMask(maskSigned, format.size - 1) && v < Pow2(format.size)
      ensures data == Extend(v, format.size)
    {
      data := v;
      MaskSelectsTop(v, format.size, maskSigned);
      if And(data, maskSigned) != 0 {
        OrExtends(v, format.size, maskSigned);
        data := Or(data, maskSigned);
      } else {
        Unextended(v, format.size);
      }
    }

    /** Writes the raw value bit by bit along the walk. */
    method Encode(raw: Word, buffer: array<Byte>)
      requires format.Legal() && Fits(format, buffer.Length)
      modifies buffer
      ensures Written(format, old(buffer[..]), raw, buffer[..])
    {
      hide Path, Bit, RawBit, WrittenUpTo, Fits;
      ghost var before := buffer[..];
      WalkStarts(format, before, raw);
      var src := format.start;
      var dst: Word := if format.bigEndian then format.size - 1 else 0;
      var i := 0;
      while i < format.size
        invariant 0 <= i <= format.size && src == Path(format, i)
        invariant i < format.size ==> dst == RawBit(format, i)
        invariant WrittenUpTo(format, before, raw, buffer[..], i)
      {
        PutNext(raw, dst, buffer, src, before, i);
        WalkSteps(format, i);
        if format.bigEndian {
          src := if src % 8 == 0 then src + 15 else src - 1;
          dst := if dst == 0 then RANGE - 1 else dst - 1;
        } else {
          src := src + 1;
          dst := dst + 1;
        }
        i := i + 1;
      }
    }

    /** Writes the position of the walk that is next. */
    method PutNext(raw: Word, dst: nat, buffer: array<Byte>, src: nat, ghost before: seq<Byte>, ghost i: nat)
      requires i < format.size && Fits(format, |before|) && src == Path(format, i) && dst == RawBit(format, i)
      requires dst < 64 && buffer.Length == |before| && src < 8 * buffer.Length
      requires WrittenUpTo(format, before, raw, buffer[..], i)
      modifies buffer
      ensures WrittenUpTo(format, before, raw, buffer[..], i + 1)
    {
      hide WrittenUpTo, Path, Bit, RawBit, Fits;
      ghost var mid := buffer[..];
      PutBit(raw, dst, buffer, src);
      WritesNext(format, before, raw, mid, i, buffer[src / 8]);
    }

    static method PutBit(raw: Word, dst: nat, buffer: array<Byte>, src: nat)
      requires dst < 64 && src < 8 * buffer.Length
      modifies buffer
      ensures forall k :: 0 <= k < 8 ==>
        Bit(buffer[src / 8], k) == if k == src % 8 then Bit(raw, dst) else old(Bit(buffer[src / 8], k))
      ensures buffer[..] == old(buffer[..])[src / 8 := buffer[src / 8]]
    {
      TestsBit(raw, dst);
      if And(raw, Shl(1, dst)) != 0 {
        SetsBit(buffer[src / 8], src % 8);
        buffer[src / 8] := Or(buffer[src / 8], Shl(1, src % 8));
      } else {
        ClearsBit(buffer[src / 8], src % 8);
        buffer[src / 8] := And(buffer[src / 8], Not(Shl(1, src % 8)));
      }
    }
  }
}
