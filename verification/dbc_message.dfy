/** Whole messages: the codec's round trips, the message encoder that walks an unordered map of
    signals, and the map's references into the message's own vector of signals. */
module DbcMessages {
  import opened DbcLayout
  import opened DbcSignal
  import opened DbcWords
  import opened Powers
  import opened Wrappers

  // ----- round trips -----

  /** What survives of a raw value: its low bits, extended if the signal is a signed integer. */
  function Kept(f: Format, raw: Word): Word
    requires f.Legal()
  {
    RemainderAtMost(raw, Pow2(f.size));
    var low := raw % Pow2(f.size);
    if f.signed && f.kind == Integer then Extend(low, f.size) else low
  }

  lemma RemainderAtMost(n: nat, m: nat)
    requires m > 0
    ensures n % m <= n
  {
    if n < m { assert n % m == n; } else { assert n % m < m; }
  }

  ghost predicate Holds(f: Format, raw: Word, b: seq<Byte>)
    requires Fits(f, |b|)
  {
    forall i :: 0 <= i < f.size ==> BufferBit(b, Path(f, i)) == Bit(raw, RawBit(f, i))
  }

  lemma LowBits(raw: nat, k: nat, j: nat)
    ensures Bit(raw % Pow2(k), j) == (j < k && Bit(raw, j))
  {
    hide Pow2, Bit;
    var p := Pow2(k);
    var low, high := raw % p, raw / p;
    assert raw == low + p * high;
    JoinBits(low, high, k, j);
    if j >= k { HighBits(low, k, j); }
  }

  /** A frame that holds a raw value along the walk decodes to what survives of it. */
  lemma HeldValueDecodes(f: Format, raw: Word, b: seq<Byte>)
    requires f.Legal() && Fits(f, |b|) && Holds(f, raw, b)
    ensures Decoded(f, b) == Kept(f, raw)
  {
    hide Gather, Path, BufferBit, Bit, Pow2;
    var v, low := Gather(f, b, f.size), raw % Pow2(f.size);
    GatherBound(f, b);
    forall j | 0 <= j < f.size
      ensures Bit(v, j) == Bit(low, j)
    {
      PartBits(f, b, f.size, j);
      RawBitTwice(f, j);
      LowBits(raw, f.size, j);
    }
    SameBits(v, low, f.size);
  }

  /** Decoding what was encoded gives the raw value modulo 2^size, sign-extended if signed. */
  lemma RoundTrip(f: Format, before: seq<Byte>, raw: Word, after: seq<Byte>)
    requires f.Legal() && Fits(f, |before|) && Written(f, before, raw, after)
    ensures Decoded(f, after) == Kept(f, raw)
  {
    HeldValueDecodes(f, raw, after);
  }

  /** Every number of an integer signal's range is read back: as a signed number of 64 bits if the signal
      is signed, and as an unsigned one otherwise. Values of other kinds are read back bit by bit. */
  lemma NumberRoundTrip(f: Format, v: int, before: seq<Byte>, after: seq<Byte>)
    requires f.Legal() && Fits(f, |before|) && Written(f, before, v % RANGE, after)
    ensures f.kind == Integer && f.signed && 0 <= v + Pow2(f.size - 1) && v < Pow2(f.size - 1) ==>
              var r := Decoded(f, after); v == if r < 0x8000_0000_0000_0000 then r else r - 0x1_0000_0000_0000_0000
    ensures (f.kind != Integer || !f.signed) && 0 <= v < Pow2(f.size) ==> Decoded(f, after) == v
  {
    hide Written, Decoded, Pow2, Extend;
    TopPowers();
    HalfPower(f.size);
    RoundTrip(f, before, v % RANGE, after);
    LowDigits(v, f.size);
    if 0 <= v + Pow2(f.size - 1) && v < Pow2(f.size - 1) {
      ExtendKeepsValue((v % RANGE) % Pow2(f.size), f.size);
    }
  }

  /** The low digits of a number that has not many. */
  lemma LowDigits(v: int, n: nat)
    requires 1 <= n <= 64
    ensures Pow2(n) > 0
    ensures 0 <= v < Pow2(n) ==> (v % RANGE) % Pow2(n) == v
    ensures v < 0 <= v + Pow2(n) ==> (v % RANGE) % Pow2(n) == v + Pow2(n)
  {
    hide Pow2;
    TopPowers();
    Pow2Adds(n, 64 - n);
    Pow2Grows(n, 64);
    var p, q := Pow2(n), Pow2(64 - n);
    if 0 <= v < p {
      SmallRemainder(v, RANGE);
      SmallRemainder(v, p);
    } else if v < 0 <= v + p {
      WrapAround(v, RANGE);
      assert v + RANGE == (v + p) + p * (q - 1);
      LowerPart(v + p, p, q - 1);
    }
  }

  lemma LowerPart(a: nat, p: nat, q: int)
    requires a < p
    ensures (a + p * q) % p == a
  {
    var x := a + p * q;
    var d := q - x / p;
    assert p * d == x % p - a;
  }

  lemma SameBuffer(a: seq<Byte>, b: seq<Byte>)
    requires |a| == |b|
    requires forall p :: 0 <= p < 8 * |a| ==> BufferBit(a, p) == BufferBit(b, p)
    ensures a == b
  {
    Pow2Values();
    forall k | 0 <= k < |a|
      ensures a[k] == b[k]
    {
      forall i | 0 <= i < 8
        ensures Bit(a[k], i) == Bit(b[k], i)
      {
        assert BufferBit(a, 8 * k + i) == BufferBit(b, 8 * k + i);
        assert (8 * k + i) / 8 == k && (8 * k + i) % 8 == i;
      }
      SameBits(a[k], b[k], 8);
    }
  }

  /** Writing back a decoded value leaves the frame as it was. */
  lemma RewriteKeepsFrame(f: Format, b: seq<Byte>, after: seq<Byte>)
    requires f.Legal() && Fits(f, |b|) && Written(f, b, Decoded(f, b), after)
    ensures after == b
  {
    hide Path, BufferBit, Bit, Gather, Extend;
    var raw := Decoded(f, b);
    forall i | 0 <= i < f.size
      ensures Bit(raw, RawBit(f, i)) == BufferBit(b, Path(f, i))
    {
      RawBitTwice(f, i);
      PartBits(f, b, f.size, RawBit(f, i));
      if f.signed && f.kind == Integer { ExtendKeepsLowBits(f, b, RawBit(f, i)); }
    }
    forall p | 0 <= p < 8 * |b|
      ensures BufferBit(after, p) == BufferBit(b, p)
    {
      if OnWalk(f, f.size, p) {
        var i :| 0 <= i < f.size && Path(f, i) == p;
      }
    }
    SameBuffer(after, b);
  }

  lemma ExtendKeepsLowBits(f: Format, b: seq<Byte>, j: nat)
    requires f.Legal() && Fits(f, |b|) && j < f.size
    ensures Bit(Extend(Gather(f, b, f.size), f.size), j) == Bit(Gather(f, b, f.size), j)
  {
    GatherBound(f, b);
    ExtendBits(Gather(f, b, f.size), f.size, j);
  }

  lemma ExtendBits(v: nat, n: nat, j: nat)
    requires 1 <= n <= 64 && v < Pow2(n) && j < n
    ensures Bit(Extend(v, n), j) == Bit(v, j)
  {
    hide Bit, Pow2;
    Pow2Values();
    Pow2Adds(n, 64 - n);
    Pow2Grows(n, 64);
    if v >= Pow2(n - 1) {
      WrapAround(v - Pow2(n), RANGE);
      assert Extend(v, n) == v + Pow2(n) * (Pow2(64 - n) - 1);
      JoinBits(v, Pow2(64 - n) - 1, n, j);
    }
  }

  /** Without the swap every big-endian signal is misread: some frame decodes to one value, and to
      another as the loads then see it, whatever word near the signal's first byte is loaded. */
  lemma UnswappedMisreads(f: Format, at: nat, n: nat) returns (b: seq<Byte>)
    requires f.Legal() && f.bigEndian && Fits(f, n) && at <= f.start / 8 < at + 8 && at + 8 <= n
    ensures |b| == n && Decoded(f, b) != Decoded(f, Mirrored(b, at))
  {
    hide Gather, Bit, Extend, Path;
    var k := f.start / 8;
    b := Zeros(n)[k := 255];
    var m, top := Mirrored(b, at), f.size - 1;
    assert m[k] == b[2 * at + 7 - k] == 0;
    TopBit(f, b);
    TopBit(f, m);
    ZeroBits(f.start % 8);
    AllOnes(f.start % 8);
  }

  /** A Double of a size other than 64 is misread: in a frame of ones the loaded word is larger than any
      value of that size. */
  lemma WordMisreads(f: Format, at: nat, n: nat) returns (b: seq<Byte>)
    requires f.Legal() && f.kind == Double && f.size < 64 && Fits(f, n) && at + 8 <= n
    ensures |b| == n && b == Mirrored(b, at) && OrderedWord(f.bigEndian, b, at) != Decoded(f, b)
  {
    hide Gather, Bit, OrderedWord, WordPosition;
    b := seq(n, _ => 255);
    assert b == Mirrored(b, at);
    OrderedWordBits(f.bigEndian, b, at, 63);
    AllOnes(WordPosition(f.bigEndian, at, 63) % 8);
    GatherBound(f, b);
    HighBits(Decoded(f, b), f.size, 63);
  }

  /** Decoding is right on every frame exactly for little-endian signals, and for big-endian ones if the
      swap takes effect; Doubles have to have the right size. */
  lemma DecodesRightIff(s: Signal, n: nat)
    requires s.Valid() && s.LoadEnd() <= n && Fits(s.format, n)
    ensures (forall b: seq<Byte> :: |b| == n ==> s.Result(b) == Decoded(s.format, b)) <==>
            (!s.format.bigEndian || s.swaps) && !s.ReturnsWord()
  {
    hide Decoded, OrderedWord, Mirrored, Fits, HighMask, LowMask, HeldAt, SplitHigh, SplitLow;
    if s.ReturnsWord() {
      var b := WordMisreads(s.format, s.LoadAt(), n);
      assert s.Result(b) != Decoded(s.format, b);
    } else if s.format.bigEndian && !s.swaps {
      var b := UnswappedMisreads(s.format, s.LoadAt(), n);
      assert s.Result(b) != Decoded(s.format, b);
    }
  }

  /** The top bit of what is decoded from a big-endian signal is its first one. */
  lemma TopBit(f: Format, b: seq<Byte>)
    requires f.Legal() && f.bigEndian && Fits(f, |b|)
    ensures f.start < 8 * |b| && Bit(Decoded(f, b), f.size - 1) == Bit(b[f.start / 8], f.start % 8)
  {
    hide Gather, Bit, Extend;
    assert Path(f, 0) == f.start;
    PartBits(f, b, f.size, f.size - 1);
    ExtendKeepsLowBits(f, b, f.size - 1);
  }

  lemma AllOnes(i: nat)
    requires i < 8
    ensures Bit(255, i)
  {
    hide Bit;
    Pow2Values();
    MaskBits(8, i);
  }

  // ----- messages -----

  ghost predicate HoldsAll(signals: map<nat, Format>, raws: nat -> Word, b: seq<Byte>) {
    forall k :: k in signals ==> Fits(signals[k], |b|) && Holds(signals[k], raws(k), b)
  }

  predicate InSome(signals: map<nat, Format>, p: nat) {
    exists k :: k in signals && OnWalk(signals[k], signals[k].size, p)
  }

  ghost predicate ClearElsewhere(signals: map<nat, Format>, b: seq<Byte>) {
    forall p :: 0 <= p < 8 * |b| && BufferBit(b, p) ==> InSome(signals, p)
  }

  /** A frame of a message: every signal's raw value along its walk, all other bits clear. */
  ghost predicate IsMessage(signals: map<nat, Format>, raws: nat -> Word, b: seq<Byte>) {
    HoldsAll(signals, raws, b) && ClearElsewhere(signals, b)
  }

  /** Whether two signals that share a position want the same bit there. */
  ghost predicate Agree(signals: map<nat, Format>, raws: nat -> Word) {
    forall k, l, i, j ::
      k in signals && l in signals && 0 <= i < signals[k].size && 0 <= j < signals[l].size &&
      Path(signals[k], i) == Path(signals[l], j) ==>
        Bit(raws(k), RawBit(signals[k], i)) == Bit(raws(l), RawBit(signals[l], j))
  }

  ghost predicate Disjoint(signals: map<nat, Format>) {
    forall k, l, i, j ::
      k in signals && l in signals && k != l && 0 <= i < signals[k].size && 0 <= j < signals[l].size ==>
        Path(signals[k], i) != Path(signals[l], j)
  }

  lemma DisjointAgree(signals: map<nat, Format>, raws: nat -> Word)
    requires Disjoint(signals)
    ensures Agree(signals, raws)
  {
    forall k, l, i, j |
      k in signals && l in signals && 0 <= i < signals[k].size && 0 <= j < signals[l].size &&
      Path(signals[k], i) == Path(signals[l], j)
      ensures Bit(raws(k), RawBit(signals[k], i)) == Bit(raws(l), RawBit(signals[l], j))
    {
      if k == l {
        if i < j { WalkIsInjective(signals[k], i, j); }
        if j < i { WalkIsInjective(signals[k], j, i); }
      }
    }
  }

  /** The signals and raw values determine the frame, so the map's iteration order cannot. */
  lemma MessageIsUnique(signals: map<nat, Format>, raws: nat -> Word, a: seq<Byte>, b: seq<Byte>)
    requires |a| == |b| && IsMessage(signals, raws, a) && IsMessage(signals, raws, b)
    ensures a == b
  {
    hide Path, BufferBit, Bit, RawBit, Fits;
    forall p | 0 <= p < 8 * |a|
      ensures BufferBit(a, p) == BufferBit(b, p)
    {
      if InSome(signals, p) {
        var k :| k in signals && OnWalk(signals[k], signals[k].size, p);
        var i :| 0 <= i < signals[k].size && Path(signals[k], i) == p;
      }
    }
    SameBuffer(a, b);
  }

  function Zeros(n: nat): seq<Byte> { seq(n, _ => 0) }

  /** Every signal decodes from the frame, padded with zero bytes for the loads, to what survives of
      the raw value it was given. */
  lemma MessageDecodes(signals: map<nat, Format>, raws: nat -> Word, b: seq<Byte>, pad: nat, k: nat)
    requires IsMessage(signals, raws, b) && k in signals && signals[k].Legal()
    ensures Fits(signals[k], |b + Zeros(pad)|)
    ensures Decoded(signals[k], b + Zeros(pad)) == Kept(signals[k], raws(k))
  {
    HeldValueDecodes(signals[k], raws(k), b + Zeros(pad));
  }

  /** One frame can hold all the raw values only if signals that share bits agree on them. */
  lemma HeldTogetherAgree(signals: map<nat, Format>, raws: nat -> Word, b: seq<Byte>)
    requires HoldsAll(signals, raws, b)
    ensures Agree(signals, raws)
  {
  }

  function TwoSignals(): map<nat, Format> {
    map[0 := Format(0, 8, false, false, Integer), 1 := Format(0, 8, false, false, Integer)]
  }

  function TwoValues(k: nat): Word { if k == 0 then 0 else 1 }

  /** Two signals in the same byte that are given different values: no frame holds both. */
  lemma OverlapCannotBeHeld(b: seq<Byte>)
    ensures TwoSignals()[0].Legal() && Fits(TwoSignals()[0], 1)
    ensures !Agree(TwoSignals(), TwoValues) && !HoldsAll(TwoSignals(), TwoValues, b)
  {
    var f := TwoSignals()[0];
    assert Path(f, 0) == Path(TwoSignals()[1], 0);
    assert !Bit(TwoValues(0), RawBit(f, 0)) && Bit(TwoValues(1), RawBit(f, 0));
    NeededIsLeast(f, 1);
    if HoldsAll(TwoSignals(), TwoValues, b) { HeldTogetherAgree(TwoSignals(), TwoValues, b); }
  }

  /** What the encoder promises of its frame. */
  ghost predicate Encoded(signals: map<nat, Format>, raws: nat -> Word, b: seq<Byte>) {
    ClearElsewhere(signals, b) && (HoldsAll(signals, raws, b) <==> Agree(signals, raws))
  }

  /** For signals that share no bits the encoder's frame is the same whatever order it takes the map
      in, and every signal decodes from it, padded for the loads, to what survives of its raw value. */
  lemma DisjointMessage(signals: map<nat, Format>, raws: nat -> Word, a: seq<Byte>, b: seq<Byte>, pad: nat)
    requires Disjoint(signals) && forall k :: k in signals ==> signals[k].Legal()
    requires |a| == |b| && Encoded(signals, raws, a) && Encoded(signals, raws, b)
    ensures a == b
    ensures forall k :: k in signals ==>
              Fits(signals[k], |a + Zeros(pad)|) && Decoded(signals[k], a + Zeros(pad)) == Kept(signals[k], raws(k))
  {
    hide Disjoint, Agree, HoldsAll, ClearElsewhere, Decoded, Kept, Fits;
    DisjointAgree(signals, raws);
    MessageIsUnique(signals, raws, a, b);
    forall k | k in signals
      ensures Fits(signals[k], |a + Zeros(pad)|) && Decoded(signals[k], a + Zeros(pad)) == Kept(signals[k], raws(k))
    {
      MessageDecodes(signals, raws, a, pad, k);
    }
  }

  lemma BlankFrame(n: nat, raws: nat -> Word)
    ensures ClearElsewhere(map[], Zeros(n)) && HoldsAll(map[], raws, Zeros(n))
  {
    forall p | 0 <= p < 8 * n
      ensures !BufferBit(Zeros(n), p)
    {
      ZeroBits(p % 8);
    }
  }

  /** Writing one more signal keeps the other bits clear, and keeps the values already held unless
      the new signal disagrees with one of them. */
  lemma AddsSignal(signals: map<nat, Format>, raws: nat -> Word, before: seq<Byte>, k: nat, f: Format,
                   after: seq<Byte>)
    requires ClearElsewhere(signals, before) && Fits(f, |before|) && k !in signals
    requires Written(f, before, raws(k), after)
    ensures ClearElsewhere(signals[k := f], after)
    ensures HoldsAll(signals, raws, before) && Agree(signals[k := f], raws) ==>
              HoldsAll(signals[k := f], raws, after)
  {
    hide Path, BufferBit, Bit, RawBit;
    var more := signals[k := f];
    forall p | 0 <= p < 8 * |after| && BufferBit(after, p)
      ensures InSome(more, p)
    {
      if OnWalk(f, f.size, p) {
        assert more[k] == f;
      } else {
        var l :| l in signals && OnWalk(signals[l], signals[l].size, p);
        assert more[l] == signals[l];
      }
    }
    if HoldsAll(signals, raws, before) && Agree(more, raws) {
      forall l | l in more
        ensures Fits(more[l], |after|) && Holds(more[l], raws(l), after)
      {
        if l != k { KeepsHeld(signals, raws, before, k, f, after, l); }
      }
    }
  }

  lemma KeepsHeld(signals: map<nat, Format>, raws: nat -> Word, before: seq<Byte>, k: nat, f: Format,
                  after: seq<Byte>, l: nat)
    requires Fits(f, |before|) && k !in signals && Written(f, before, raws(k), after) && l in signals
    requires HoldsAll(signals, raws, before) && Agree(signals[k := f], raws)
    ensures Fits(signals[l], |after|) && Holds(signals[l], raws(l), after)
  {
    hide Path, BufferBit, Bit, RawBit;
    var g := signals[l];
    var more := signals[k := f];
    assert more[l] == g && more[k] == f;
    forall i | 0 <= i < g.size
      ensures BufferBit(after, Path(g, i)) == Bit(raws(l), RawBit(g, i))
    {
      if OnWalk(f, f.size, Path(g, i)) {
        var j :| 0 <= j < f.size && Path(f, j) == Path(g, i);
        assert Bit(raws(k), RawBit(more[k], j)) == Bit(raws(l), RawBit(more[l], i));
      }
    }
  }

  // ----- the class -----

  /** A pointer into the vector of signals: the storage the vector had, and an index. */
  datatype Address = Address(block: nat, index: nat)

  function Names(hash: string -> nat, declared: seq<Signal>): set<nat> {
    set s | s in declared :: hash(s.name)
  }

  predicate DistinctNames(hash: string -> nat, declared: seq<Signal>) {
    forall i, j :: 0 <= i < j < |declared| ==> hash(declared[i].name) != hash(declared[j].name)
  }

  lemma NoNames(hash: string -> nat)
    ensures Names(hash, []) == {} && DistinctNames(hash, [])
  {
  }

  lemma OneMoreName(hash: string -> nat, declared: seq<Signal>, i: nat)
    requires i < |declared| && DistinctNames(hash, declared[..i])
    ensures Names(hash, declared[..i + 1]) == Names(hash, declared[..i]) + {hash(declared[i].name)}
    ensures hash(declared[i].name) !in Names(hash, declared[..i]) ==> DistinctNames(hash, declared[..i + 1])
    ensures hash(declared[i].name) in Names(hash, declared[..i]) ==> !DistinctNames(hash, declared)
  {
    assert declared[..i + 1] == declared[..i] + [declared[i]];
    if hash(declared[i].name) in Names(hash, declared[..i]) {
      var s :| s in declared[..i] && hash(s.name) == hash(declared[i].name);
      var j :| 0 <= j < i && declared[..i][j] == s;
      assert hash(declared[j].name) == hash(declared[i].name);
    }
  }

  /** What a signal decodes to. */
  ghost predicate IsValueOf(s: Signal, bytes: seq<Byte>, raw: Word)
    reads s
  {
    s.format.Legal() && s.LoadEnd() <= |bytes| && Fits(s.format, |bytes|) && raw == s.Result(bytes)
  }

  class DbcMessage {
    const hash: string -> nat
    const size: nat
    var block: nat
    var declared: seq<Signal>
    var signals: map<nat, Address>

    predicate Live(a: Address)
      reads this
    {
      a.block == block && a.index < |declared|
    }

    ghost predicate Valid()
      reads this, declared
    {
      (forall s :: s in declared ==> s.Valid()) &&
      forall k :: k in signals ==> exists i :: 0 <= i < |declared| && hash(declared[i].name) == k
    }

    /** Every reference points into the vector's present storage, at a signal with that name hash. */
    predicate Current()
      reads this, declared
    {
      forall k :: k in signals ==> PointsTo(signals[k], k)
    }

    predicate PointsTo(a: Address, key: nat)
      reads this, declared
    {
      Live(a) && hash(declared[a.index].name) == key
    }

    ghost function Formats(): map<nat, Format>
      requires Current()
      reads this, declared
    {
      map k | k in signals :: declared[signals[k].index].format
    }

    constructor (hash: string -> nat, size: nat, block: nat, declared: seq<Signal>)
      requires forall s :: s in declared ==> s.Valid()
      ensures this.hash == hash && this.size == size && this.declared == declared && this.block == block
      ensures Valid() && Current() && signals == map[]
    {
      this.hash := hash;
      this.size := size;
      this.block := block;
      this.declared := declared;
      signals := map[];
    }

    /** A message with all its declared signals registered; fails when two of them have the same name
        hash. */
    static method Create(hash: string -> nat, size: nat, block: nat, declared: seq<Signal>)
      returns (r: Option<DbcMessage>)
      requires forall s :: s in declared ==> s.Valid()
      ensures r.Some? <==> DistinctNames(hash, declared)
      ensures r.Some? ==> fresh(r.value) && r.value.Valid() && r.value.Current()
      ensures r.Some? ==> r.value.hash == hash && r.value.size == size && r.value.declared == declared
      ensures r.Some? ==> r.value.block == block && r.value.signals.Keys == Names(hash, declared)
    {
      hide DistinctNames, Names;
      var message := new DbcMessage(hash, size, block, declared);
      var i := 0;
      NoNames(hash);
      assert declared[..0] == [];
      while i < |declared|
        invariant 0 <= i <= |declared| && fresh(message) && message.Valid() && message.Current()
        invariant message.hash == hash && message.size == size
        invariant message.declared == declared && message.block == block
        invariant message.signals.Keys == Names(hash, declared[..i]) && DistinctNames(hash, declared[..i])
      {
        OneMoreName(hash, declared, i);
        var ok := message.RegisterSignal(i);
        if !ok {
          return None;
        }
        i := i + 1;
      }
      assert declared[..i] == declared;
      r := Some(message);
    }

    /** Makes every reference current again. */
    method UpdateSignalReferences()
      requires Valid()
      modifies this`signals
      ensures Valid() && Current() && signals.Keys == old(signals.Keys)
    {
      var i := 0;
      while i < |declared|
        invariant 0 <= i <= |declared|
        invariant signals.Keys == old(signals.Keys)
        invariant forall j :: 0 <= j < i && hash(declared[j].name) in signals ==>
          PointsTo(signals[hash(declared[j].name)], hash(declared[j].name))
      {
        var key := hash(declared[i].name);
        if key in signals {
          signals := signals[key := Address(block, i)];
        }
        i := i + 1;
      }
    }

    /** Refuses a name hash it already has, before bringing the other references up to date. */
    method RegisterSignal(index: nat) returns (ok: bool)
      requires Valid() && index < |declared|
      modifies this`signals
      ensures ok <==> hash(declared[index].name) !in old(signals)
      ensures ok ==> Valid() && Current() && signals.Keys == old(signals.Keys) + {hash(declared[index].name)}
      ensures !ok ==> signals == old(signals)
    {
      var key := hash(declared[index].name);
      if key in signals {
        return false;
      }
      signals := signals[key := Address(block, index)];
      UpdateSignalReferences();
      ok := true;
    }

    /** Appends a signal; the vector may move its storage. When the name hash is taken the references
        are not brought up to date, so they stay current exactly when the name hash is new or the
        storage did not move. */
    method AddSignal(signal: Signal, newBlock: nat) returns (ok: bool)
      requires Valid() && Current() && signal.Valid()
      modifies this
      ensures Valid() && declared == old(declared) + [signal] && block == newBlock
      ensures ok <==> hash(signal.name) !in old(signals)
      ensures Current() <==> hash(signal.name) !in old(signals) || newBlock == old(block)
    {
      hide HighMask, LowMask, HeldAt, SplitHigh, SplitLow;
      declared := declared + [signal];
      block := newBlock;
      assert forall i :: 0 <= i < old(|declared|) ==> declared[i] == old(declared)[i];
      assert declared[|declared| - 1] == signal;
      ok := RegisterSignal(|declared| - 1);
    }

    /** A message whose references are left behind: its only signal is added again, and the vector
        moves. */
    static method LeftBehind(hash: string -> nat, signal: Signal, block: nat, newBlock: nat)
      returns (message: DbcMessage)
      requires signal.Valid() && newBlock != block
      ensures fresh(message) && message.Valid() && !message.Current()
    {
      var created := Create(hash, 8, block, [signal]);
      message := created.value;
      assert signal in [signal];
      var ok := message.AddSignal(signal, newBlock);
    }

    method GetDbcSignal(key: nat) returns (found: bool)
      requires Valid() && key !in signals
      modifies this`signals
      ensures found <==> exists i :: 0 <= i < |declared| && hash(declared[i].name) == key
      ensures found ==> Current() && Valid() && signals.Keys == old(signals.Keys) + {key}
      ensures !found ==> signals == old(signals)
    {
      var i := 0;
      while i < |declared| && hash(declared[i].name) != key
        invariant 0 <= i <= |declared|
        invariant forall j :: 0 <= j < i ==> hash(declared[j].name) != key
      {
        i := i + 1;
      }
      found := i < |declared|;
      if found {
        var ok := RegisterSignal(i);
      }
    }

    method HasSignal(key: nat) returns (found: bool)
      requires Valid() && Current()
      modifies this`signals
      ensures Valid() && Current()
      ensures found <==> exists i :: 0 <= i < |declared| && hash(declared[i].name) == key
      ensures signals.Keys == old(signals.Keys) + (if found then {key} else {})
    {
      if key in signals {
        return true;
      }
      found := GetDbcSignal(key);
    }

    /** Decodes the signal with the given name hash, registering it on first use. */
    method GetSignalValue(key: nat, bytes: seq<Byte>) returns (raw: Option<Word>)
      requires Valid() && Current()
      requires forall s :: s in declared && hash(s.name) == key ==> s.LoadEnd() <= |bytes| && Fits(s.format, |bytes|)
      modifies this`signals
      ensures Valid() && Current()
      ensures raw.Some? <==> exists i :: 0 <= i < |declared| && hash(declared[i].name) == key
      ensures raw.Some? ==> key in signals && PointsTo(signals[key], key)
      ensures raw.Some? ==> IsValueOf(declared[signals[key].index], bytes, raw.value)
    {
      hide Fits, Decoded, Reach;
      var found := HasSignal(key);
      if !found {
        return None;
      }
      var signal := declared[signals[key].index];
      assert signal in declared && PointsTo(signals[key], key);
      var data := signal.Decode(bytes);
      raw := Some(data);
    }

    /** Encodes every registered signal into a blank frame, in the arbitrary order of the map. Bits of
        no signal stay clear, and the frame holds every raw value exactly when signals that share bits
        agree on them. It fails where the original writes past the frame's end. If all signals have been
        checked for this message and passed, that is exactly when some signal went unnoticed. */
    method EncodeMessage(raws: nat -> Word) returns (ok: bool, bytes: array<Byte>)
      requires Valid() && Current()
      ensures ok <==> AllFit(Formats(), size)
      ensures fresh(bytes) && bytes.Length == size && (ok ==> Encoded(Formats(), raws, bytes[..]))
      ensures Passed() ==> (ok <==> AllNoticed(Formats(), size))
    {
      hide *;
      bytes := new Byte[size](_ => 0);
      BlankFrame(size, raws);
      assert bytes[..] == Zeros(size) by { BlankBytes(bytes[..], size); }
      ok := EncodeInto(raws, bytes);
      PassedIsNoticed();
      if ok { IsEncoded(Formats(), raws, bytes[..]); }
    }

    /** A message of four bytes whose only signal lies in the fifth: the signal passes its check, and the
        encoder writes past the frame. */
    static method ShortMessageOverruns(hash: string -> nat, raws: nat -> Word)
      returns (message: DbcMessage, ok: bool)
      ensures fresh(message) && message.size == 4 && message.Passed() && !ok
    {
      hide Bit, Exceeds, Fits, Reach, Needed, Noticed;
      ShortMessagePasses();
      var f := Format(32, 8, false, false, Integer);
      var signal := new Signal(4, "", f, true);
      var created := Create(hash, 4, 0, [signal]);
      message := created.value;
      assert signal in [signal];
      assert hash("") in Names(hash, [signal]);
      message.FormatsAre();
      assert message.Formats()[hash("")] == f;
      NotAllFit(message.Formats(), 4, hash(""));
      var bytes;
      ok, bytes := message.EncodeMessage(raws);
    }

    /** Every declared signal has been checked for this message and has not been found to exceed it. */
    ghost predicate Passed()
      reads this, declared
    {
      forall s :: s in declared ==> s.format.Legal() && s.CheckedFor(size) && !Bit(s.error, EXCEEDS_MESSAGE)
    }

    lemma PassedIsNoticed()
      requires Current()
      ensures Passed() ==> (AllFit(Formats(), size) <==> AllNoticed(Formats(), size))
    {
      hide Bit, Exceeds, Fits, Noticed;
      FormatsAre();
      if Passed() {
        forall k | k in Formats()
          ensures Fits(Formats()[k], size) <==> Noticed(Formats()[k], size)
        {
          var s := declared[signals[k].index];
          assert s in declared;
          ExceedsIff(s.format, size);
        }
      }
    }

    method EncodeInto(raws: nat -> Word, bytes: array<Byte>) returns (ok: bool)
      requires Valid() && Current()
      requires ClearElsewhere(map[], bytes[..]) && HoldsAll(map[], raws, bytes[..])
      modifies bytes
      ensures ok <==> AllFit(Formats(), bytes.Length)
      ensures ok ==> ClearElsewhere(Formats(), bytes[..])
      ensures ok && Agree(Formats(), raws) ==> HoldsAll(Formats(), raws, bytes[..])
    {
      hide *;
      ghost var all := Formats();
      assert all.Keys == signals.Keys by { FormatsAre(); }
      var todo := signals.Keys;
      ghost var done: map<nat, Format> := map[];
      assert AllFit(done, bytes.Length) by { NoneFit(bytes.Length); }
      while todo != {}
        invariant todo <= signals.Keys && done.Keys == signals.Keys - todo
        invariant forall k :: k in done ==> k in all && done[k] == all[k]
        invariant AllFit(done, bytes.Length) && ClearElsewhere(done, bytes[..])
        invariant Agree(all, raws) ==> HoldsAll(done, raws, bytes[..])
        decreases |todo|
      {
        var k :| k in todo;
        ok := EncodeOne(k, raws, bytes, done, all);
        if !ok {
          NotAllFit(all, bytes.Length, k);
          return;
        }
        OneMoreFits(done, bytes.Length, k, all[k]);
        done := done[k := all[k]];
        todo := todo - {k};
      }
      assert done == all;
      ok := true;
    }

    lemma FormatsAre()
      requires Current()
      ensures Formats().Keys == signals.Keys
      ensures forall k :: k in signals ==>
        PointsTo(signals[k], k) && Formats()[k] == declared[signals[k].index].format
    {
    }

    method EncodeOne(k: nat, raws: nat -> Word, bytes: array<Byte>, ghost done: map<nat, Format>,
                     ghost all: map<nat, Format>)
      returns (ok: bool)
      requires Valid() && Current() && all == Formats() && k in signals && k !in done && k in all
      requires forall l :: l in done ==> l in all && done[l] == all[l]
      requires ClearElsewhere(done, bytes[..])
      requires Agree(all, raws) ==> HoldsAll(done, raws, bytes[..])
      modifies bytes
      ensures ok <==> Fits(all[k], bytes.Length)
      ensures ok ==> ClearElsewhere(done[k := all[k]], bytes[..])
      ensures ok && Agree(all, raws) ==> HoldsAll(done[k := all[k]], raws, bytes[..])
    {
      hide Bit, Path, Fits, HoldsAll, Agree, ClearElsewhere, Written, Needed;
      var signal := declared[signals[k].index];
      assert signal in declared && signal.Valid();
      ok := Needed(signal.format) <= bytes.Length;
      NeededIsLeast(signal.format, bytes.Length);
      if !ok {
        return;
      }
      ghost var before := bytes[..];
      signal.Encode(raws(k), bytes);
      AddsSignal(done, raws, before, k, signal.format, bytes[..]);
      if Agree(all, raws) { AgreeOnFewer(done[k := signal.format], all, raws); }
    }
  }

  predicate AllFit(signals: map<nat, Format>, bytes: nat) {
    forall k :: k in signals ==> Fits(signals[k], bytes)
  }

  predicate AllNoticed(signals: map<nat, Format>, messageSize: nat) {
    forall k :: k in signals ==> Noticed(signals[k], messageSize)
  }

  lemma NotAllFit(signals: map<nat, Format>, bytes: nat, k: nat)
    requires k in signals && !Fits(signals[k], bytes)
    ensures !AllFit(signals, bytes)
  {
  }

  lemma NoneFit(bytes: nat)
    ensures AllFit(map[], bytes)
  {
  }

  lemma OneMoreFits(signals: map<nat, Format>, bytes: nat, k: nat, f: Format)
    requires AllFit(signals, bytes) && Fits(f, bytes)
    ensures AllFit(signals[k := f], bytes)
  {
  }

  lemma IsEncoded(signals: map<nat, Format>, raws: nat -> Word, b: seq<Byte>)
    requires ClearElsewhere(signals, b) && (Agree(signals, raws) ==> HoldsAll(signals, raws, b))
    ensures Encoded(signals, raws, b)
  {
    if HoldsAll(signals, raws, b) { HeldTogetherAgree(signals, raws, b); }
  }

  lemma BlankBytes(b: seq<Byte>, n: nat)
    requires |b| == n && forall i :: 0 <= i < n ==> b[i] == 0
    ensures b == Zeros(n)
  {
  }

  lemma AgreeOnFewer(few: map<nat, Format>, all: map<nat, Format>, raws: nat -> Word)
    requires Agree(all, raws) && forall k :: k in few ==> k in all && few[k] == all[k]
    ensures Agree(few, raws)
  {
  }
}
