/** The bytes of CBOR data items, written down from RFC 8949 and apart from the encoders: a first byte
    of a major type and additional information (section 3), arguments with their first byte highest,
    containers of indefinite length (section 3.2.2), and the simple values and floats of major type 7
    (section 3.3). */
module CborWire {
  import opened CborCodec

  datatype Item =
    | Int(v: int)
    | Str(text: seq<Byte>)
    | Bool(b: bool)
    | Single(bits: F32)
    | Array(items: seq<Item>)
    | Map(entries: seq<Item>)
  {
    /** Arguments fit eight bytes. */
    predicate Legal() {
      match this
      case Int(v) => -0x1_0000_0000_0000_0000 <= v < 0x1_0000_0000_0000_0000
      case Str(text) => |text| < 0x1_0000_0000_0000_0000
      case Bool(_) => true
      case Single(_) => true
      case Array(items) => forall i :: 0 <= i < |items| ==> items[i].Legal()
      case Map(entries) => forall i :: 0 <= i < |entries| ==> entries[i].Legal()
    }
  }

  /** What a byte string means as a number: each byte counts 256 times as much as the next. */
  function Positional(s: seq<Byte>): nat {
    if s == [] then 0 else 256 * Positional(s[..|s| - 1]) + s[|s| - 1]
  }

  /** The n bytes that mean v. */
  function Digits(v: nat, n: nat): (s: seq<Byte>)
    ensures |s| == n
  {
    if n == 0 then [] else Digits(v / 256, n - 1) + [v % 256]
  }

  lemma {:induction false} DigitsMean(v: nat, n: nat)
    requires v < Power(n)
    ensures Positional(Digits(v, n)) == v
  {
    if n > 0 {
      DigitsMean(v / 256, n - 1);
      assert Digits(v, n)[..n - 1] == Digits(v / 256, n - 1);
    }
  }

  /** The first byte has the major type in its three high bits. Its five low bits are the argument up
      to 23; from 24 to 27 they say that 1, 2, 4 or 8 bytes follow that mean it, and no fewer would do. */
  ghost predicate IsHead(s: seq<Byte>, major: nat, v: nat) {
    s != [] && s[0] / 32 == major && Positional(s[1..]) == (if v < 24 then 0 else v) &&
    match |s| - 1
    case 0 => v < 24 && s[0] % 32 == v
    case 1 => 24 <= v && s[0] % 32 == 24
    case 2 => 0x100 <= v && s[0] % 32 == 25
    case 4 => 0x1_0000 <= v && s[0] % 32 == 26
    case 8 => 0x1_0000_0000 <= v && s[0] % 32 == 27
    case _ => false
  }

  /** That fixes the bytes. */
  lemma HeadIsUnique(s: seq<Byte>, r: seq<Byte>, major: nat, v: nat)
    requires IsHead(s, major, v) && IsHead(r, major, v)
    ensures s == r
  {
    HeadLength(s, major, v);
    HeadLength(r, major, v);
    assert s[0] == r[0];
    SamePositional(s[1..], r[1..]);
    assert s == [s[0]] + s[1..] && r == [r[0]] + r[1..];
  }

  lemma HeadLength(s: seq<Byte>, major: nat, v: nat)
    requires IsHead(s, major, v)
    ensures |s| == if v < 24 then 1 else if v < 0x100 then 2 else if v < 0x1_0000 then 3
                   else if v < 0x1_0000_0000 then 5 else 9
  {
    PositionalBound(s[1..]);
    PowerValues();
  }

  lemma PowerValues()
    ensures Power(0) == 1 && Power(1) == 0x100 && Power(2) == 0x1_0000 && Power(4) == 0x1_0000_0000
    ensures Power(8) == 0x1_0000_0000_0000_0000
  {
    assert Power(1) == 256 * Power(0);
    assert Power(2) == 256 * Power(1);
    assert Power(3) == 256 * Power(2);
    assert Power(4) == 256 * Power(3);
    assert Power(5) == 256 * Power(4);
    assert Power(6) == 256 * Power(5);
    assert Power(7) == 256 * Power(6);
    assert Power(8) == 256 * Power(7);
  }

  lemma {:induction false} PositionalBound(s: seq<Byte>)
    ensures Positional(s) < Power(|s|)
  {
    if s != [] { PositionalBound(s[..|s| - 1]); }
  }

  lemma {:induction false} SamePositional(s: seq<Byte>, r: seq<Byte>)
    requires |s| == |r| && Positional(s) == Positional(r)
    ensures s == r
  {
    if s != [] {
      var n := |s| - 1;
      SamePositional(s[..n], r[..n]);
      assert s == s[..n] + [s[n]] && r == r[..n] + [r[n]];
    }
  }

  // ----- items -----

  /** The head of an argument, in the fewest bytes. */
  function WireHead(major: nat, v: nat): (s: seq<Byte>)
    requires major < 8 && v < 0x1_0000_0000_0000_0000
  {
    if v < 24 then [32 * major + v]
    else if v < 0x100 then [32 * major + 24] + Digits(v, 1)
    else if v < 0x1_0000 then [32 * major + 25] + Digits(v, 2)
    else if v < 0x1_0000_0000 then [32 * major + 26] + Digits(v, 4)
    else [32 * major + 27] + Digits(v, 8)
  }

  lemma WireHeadIs(major: nat, v: nat)
    requires major < 8 && v < 0x1_0000_0000_0000_0000
    ensures IsHead(WireHead(major, v), major, v)
  {
    PowerValues();
    var s := WireHead(major, v);
    if v >= 24 {
      DigitsMean(v, |s| - 1);
      assert s[1..] == Digits(v, |s| - 1);
    }
  }

  /** Naturals have major type 0, negative numbers 1 with the argument -1 - v, text 3 with its length,
      arrays 4 and maps 5, both open (information 31) until a break; major type 7 has false at 20, true
      at 21, single floats at 26 with four bytes, and the break at 31. */
  function Wire(item: Item): seq<Byte>
    requires item.Legal()
    decreases item, 0
  {
    match item
    case Int(v) => if v >= 0 then WireHead(0, v) else WireHead(1, -1 - v)
    case Str(text) => WireHead(3, |text|) + text
    case Bool(b) => [32 * 7 + (if b then 21 else 20)]
    case Single(bits) => [32 * 7 + 26] + Digits(bits, 4)
    case Array(items) => [32 * 4 + 31] + WireAll(items) + [32 * 7 + 31]
    case Map(entries) => [32 * 5 + 31] + WireAll(entries) + [32 * 7 + 31]
  }

  function WireAll(items: seq<Item>): seq<Byte>
    requires forall i :: 0 <= i < |items| ==> items[i].Legal()
    decreases items, 1
  {
    if items == [] then [] else Wire(items[0]) + WireAll(items[1..])
  }

  /** Some items. */
  lemma IntExamples()
    ensures Wire(Int(0)) == [0x00] && Wire(Int(23)) == [0x17] && Wire(Int(24)) == [0x18, 0x18]
    ensures Wire(Int(500)) == [0x19, 0x01, 0xf4] && Wire(Int(-1)) == [0x20] && Wire(Int(-500)) == [0x39, 0x01, 0xf3]
  {
    assert Digits(24, 1) == [24];
    assert Digits(1, 1) == [1];
    assert Digits(500, 2) == [1, 0xf4];
    assert Digits(499, 2) == [1, 0xf3];
  }

  lemma OtherExamples()
    ensures Wire(Bool(false)) == [0xf4] && Wire(Bool(true)) == [0xf5]
    ensures Wire(Single(0x3f80_0000)) == [0xfa, 0x3f, 0x80, 0x00, 0x00]
    ensures Wire(Str([0x6d, 0x56])) == [0x62, 0x6d, 0x56]
  {
    assert Digits(0x3f, 1) == [0x3f];
    assert Digits(0x3f80, 2) == [0x3f, 0x80];
    assert Digits(0x3f80_00, 3) == [0x3f, 0x80, 0];
    assert Digits(0x3f80_0000, 4) == [0x3f, 0x80, 0, 0];
  }

  lemma ContainerExamples()
    ensures Wire(Array([Int(1), Bool(true)])) == [0x9f, 0x01, 0xf5, 0xff] && Wire(Map([])) == [0xbf, 0xff]
  {
    assert [Int(1), Bool(true)][1..] == [Bool(true)];
    assert WireAll([Bool(true)]) == [0xf5];
    assert WireAll([Int(1), Bool(true)]) == [0x01, 0xf5];
  }

  // ----- the encoders' primitives write these bytes -----

  lemma {:induction false} BigEndianIsDigits(v: nat, n: nat, t: seq<Byte>)
    ensures BigEndian(v, n, t) == Digits(v, n) + t
    decreases n
  {
    if n > 0 {
      BigEndianIsDigits(v / 256, n - 1, [v % 256] + t);
      assert Digits(v / 256, n - 1) + ([v % 256] + t) == Digits(v / 256, n - 1) + [v % 256] + t;
    } else {
      assert Digits(v, n) + t == t;
    }
  }

  lemma HeadIsWire(major: nat, v: U64, t: seq<Byte>)
    requires major < 8
    ensures Head(major, v, t) == WireHead(major, v) + t
  {
    BigEndianIsDigits(v, Extra(v), t);
  }

  /** An encoder writes an item's bytes before the tail. */
  ghost predicate Writes<T(!new)>(put: (T, seq<Byte>) -> seq<Byte>, item: T -> Item) {
    forall x: T, t: seq<Byte> :: WritesItem(put, item, x, t)
  }

  ghost predicate WritesItem<T(!new)>(put: (T, seq<Byte>) -> seq<Byte>, item: T -> Item, x: T, t: seq<Byte>) {
    item(x).Legal() && put(x, t) == Wire(item(x)) + t
  }

  lemma U32IsWire(v: U32, t: seq<Byte>)
    ensures PutU32(v, t) == Wire(Int(v)) + t
  {
    HeadIsWire(UNSIGNED, v, t);
  }

  lemma I32IsWire(v: I32, t: seq<Byte>)
    ensures PutI32(v, t) == Wire(Int(v)) + t
  {
    if v >= 0 { HeadIsWire(UNSIGNED, v, t); } else { HeadIsWire(NEGATIVE, -1 - v, t); }
  }

  lemma TextIsWire(v: Text, t: seq<Byte>)
    ensures PutText(v, t) == Wire(Str(v)) + t
  {
    HeadIsWire(TEXT, |v|, v + t);
    assert WireHead(3, |v|) + (v + t) == WireHead(3, |v|) + v + t;
  }

  lemma F32IsWire(v: F32, t: seq<Byte>)
    ensures PutF32(v, t) == Wire(Single(v)) + t
  {
    BigEndianIsDigits(v, 4, t);
  }

  lemma BoolIsWire(v: bool, t: seq<Byte>)
    ensures PutBool(v, t) == Wire(Bool(v)) + t
  {
  }

  function Items<T>(xs: seq<T>, item: T -> Item): seq<Item> {
    seq(|xs|, i requires 0 <= i < |xs| => item(xs[i]))
  }

  lemma {:induction false} WireAllAdds(a: seq<Item>, b: seq<Item>)
    requires forall i :: 0 <= i < |a| ==> a[i].Legal()
    requires forall i :: 0 <= i < |b| ==> b[i].Legal()
    ensures WireAll(a + b) == WireAll(a) + WireAll(b)
    decreases |a|
  {
    if a == [] {
      assert a + b == b;
    } else {
      WireAllAdds(a[1..], b);
      assert (a + b)[1..] == a[1..] + b;
    }
  }

  lemma {:induction false} ItemsAreWire<T(!new)>(xs: seq<T>, put: (T, seq<Byte>) -> seq<Byte>, item: T -> Item,
                                               t: seq<Byte>)
    requires Writes(put, item)
    ensures forall i :: 0 <= i < |xs| ==> Items(xs, item)[i].Legal()
    ensures PutItems(xs, put, t) == WireAll(Items(xs, item)) + t
    decreases |xs|
  {
    if xs == [] {
      assert WireAll(Items(xs, item)) + t == t;
    } else {
      ItemsAreWire(xs[1..], put, item, t);
      assert Items(xs, item)[1..] == Items(xs[1..], item);
      assert WritesItem(put, item, xs[0], PutItems(xs[1..], put, t));
      Regroup(Wire(item(xs[0])), WireAll(Items(xs[1..], item)), t);
    }
  }

  lemma Regroup(a: seq<Byte>, b: seq<Byte>, c: seq<Byte>)
    ensures a + (b + c) == a + b + c
  {
  }

  ghost predicate AllLegal(items: seq<Item>) { forall i :: 0 <= i < |items| ==> items[i].Legal() }

  /** One item more before others. */
  lemma Prepend(item: Item, items: seq<Item>, t: seq<Byte>)
    requires item.Legal() && AllLegal(items)
    ensures AllLegal([item] + items) && Wire(item) + (WireAll(items) + t) == WireAll([item] + items) + t
  {
    assert ([item] + items)[1..] == items;
    Regroup(Wire(item), WireAll(items), t);
  }

  lemma Alone(t: seq<Byte>)
    ensures AllLegal([]) && WireAll([]) + t == t
  {
  }

  /** Items between the start of an array and a break. */
  lemma ArrayIsWire(items: seq<Item>, t: seq<Byte>)
    requires AllLegal(items)
    ensures [LIST_START] + (WireAll(items) + ([BREAK] + t)) == Wire(Array(items)) + t
  {
    Regroup([0x9f], WireAll(items), [0xff] + t);
    Regroup([0x9f] + WireAll(items), [0xff], t);
  }

  lemma MapIsWire(items: seq<Item>, t: seq<Byte>)
    requires AllLegal(items)
    ensures [MAP_START] + (WireAll(items) + ([BREAK] + t)) == Wire(Map(items)) + t
  {
    Regroup([0xbf], WireAll(items), [0xff] + t);
    Regroup([0xbf] + WireAll(items), [0xff], t);
  }

  /** A list of records is an array of their items. */
  lemma ListIsWire<T(!new)>(xs: seq<T>, put: (T, seq<Byte>) -> seq<Byte>, item: T -> Item, t: seq<Byte>)
    requires Writes(put, item)
    ensures AllLegal(Items(xs, item))
    ensures [LIST_START] + PutItems(xs, put, [BREAK] + t) == Wire(Array(Items(xs, item))) + t
  {
    ItemsAreWire(xs, put, item, [BREAK] + t);
    ArrayIsWire(Items(xs, item), t);
  }
}
