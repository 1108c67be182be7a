/** CBOR primitives as sections 3.1, 3.2.2 and 3.3 of RFC 8949 define them, with minimal-length heads on
    output: what is written before a given tail, what is read off the front, and how many bytes it
    takes. */
module CborCodec {
  import opened Wrappers

  type Byte = n: nat | n < 256
  type U32 = n: nat | n < 0x1_0000_0000
  type I32 = n: int | -0x8000_0000 <= n < 0x8000_0000
  type U64 = n: nat | n < 0x1_0000_0000_0000_0000

  /** The bit pattern of a single-precision number. */
  type F32 = n: nat | n < 0x1_0000_0000

  type Text = s: seq<Byte> | |s| < 0x1_0000_0000_0000_0000

  /** A value read, and what follows it. */
  datatype Parsed<+T> = Parsed(value: T, rest: seq<Byte>)

  const UNSIGNED: nat := 0
  const NEGATIVE: nat := 1
  const TEXT: nat := 3
  const LIST_START: Byte := 0x9f
  const MAP_START: Byte := 0xbf
  const BREAK: Byte := 0xff
  const FLOAT: Byte := 0xfa
  const FALSE: Byte := 0xf4
  const TRUE: Byte := 0xf5

  // ----- heads -----

  function Power(n: nat): nat { if n == 0 then 1 else 256 * Power(n - 1) }

  /** The n low bytes of v, most significant first, before t. */
  function BigEndian(v: nat, n: nat, t: seq<Byte>): seq<Byte> {
    if n == 0 then t else BigEndian(v / 256, n - 1, [v % 256] + t)
  }

  function FromBigEndian(s: seq<Byte>, high: nat): nat {
    if s == [] then high else FromBigEndian(s[1..], 256 * high + s[0])
  }

  function Extra(v: U64): nat {
    if v <= 23 then 0 else if v <= 0xff then 1 else if v <= 0xffff then 2 else if v <= 0xffff_ffff then 4 else 8
  }

  function Info(v: U64): nat {
    match Extra(v)
    case 0 => v
    case 1 => 24
    case 2 => 25
    case 4 => 26
    case _ => 27
  }

  function Head(major: nat, v: U64, t: seq<Byte>): seq<Byte>
    requires major < 8
  {
    [32 * major + Info(v)] + BigEndian(v, Extra(v), t)
  }

  /** Reads a head of the major type whose argument takes no more than the given bytes. */
  function ParseHead(s: seq<Byte>, major: nat, most: nat): Option<Parsed<nat>> {
    if s == [] || s[0] / 32 != major then None
    else
      var info := s[0] % 32;
      if info <= 23 then Some(Parsed(info, s[1..]))
      else if info > 27 then None
      else
        var n := if info == 24 then 1 else if info == 25 then 2 else if info == 26 then 4 else 8;
        if n > most || |s| < 1 + n then None
        else Some(Parsed(FromBigEndian(s[1..1 + n], 0), s[1 + n..]))
  }

  lemma {:induction false} BigEndianSplits(v: nat, n: nat, t: seq<Byte>)
    ensures BigEndian(v, n, t) == BigEndian(v, n, []) + t
    ensures |BigEndian(v, n, [])| == n
  {
    if n > 0 {
      var x: seq<Byte> := [v % 256];
      assert x + [] == x;
      BigEndianSplits(v / 256, n - 1, x + t);
      BigEndianSplits(v / 256, n - 1, x);
      assert BigEndian(v / 256, n - 1, []) + (x + t) == BigEndian(v / 256, n - 1, []) + x + t;
    }
  }

  lemma {:induction false} FromAppended(s: seq<Byte>, x: Byte, high: nat)
    ensures FromBigEndian(s + [x], high) == 256 * FromBigEndian(s, high) + x
    decreases |s|
  {
    if s == [] {
      assert [x][1..] == [];
    } else {
      assert (s + [x])[1..] == s[1..] + [x];
      FromAppended(s[1..], x, 256 * high + s[0]);
    }
  }

  lemma {:induction false} BigEndianRoundTrip(v: nat, n: nat)
    requires v < Power(n)
    ensures FromBigEndian(BigEndian(v, n, []), 0) == v
  {
    if n > 0 {
      BigEndianRoundTrip(v / 256, n - 1);
      BigEndianSplits(v / 256, n - 1, [v % 256]);
      assert [v % 256] + [] == [v % 256];
      FromAppended(BigEndian(v / 256, n - 1, []), v % 256, 0);
    }
  }

  lemma ExtraHolds(v: U64)
    ensures v < Power(Extra(v)) || v <= 23
  {
    assert Power(1) == 256;
    assert Power(2) == 256 * Power(1);
    assert Power(4) == 256 * (256 * Power(2));
    assert Power(8) == 256 * (256 * (256 * (256 * Power(4))));
  }

  lemma HeadRoundTrip(major: nat, v: U64, t: seq<Byte>, most: nat)
    requires major < 8 && Extra(v) <= most
    ensures ParseHead(Head(major, v, t), major, most) == Some(Parsed(v, t))
    ensures |Head(major, v, t)| == 1 + Extra(v) + |t|
    ensures Head(major, v, t)[0] / 32 == major
  {
    hide Power, BigEndian, FromBigEndian;
    var n, s := Extra(v), Head(major, v, t);
    BigEndianSplits(v, n, t);
    assert s[0] % 32 == Info(v) && s[0] / 32 == major;
    if n == 0 {
      assert BigEndian(v, 0, t) == t by { NoDigits(v, t); }
    } else {
      ExtraHolds(v);
      BigEndianRoundTrip(v, n);
      assert s[1..1 + n] == BigEndian(v, n, []);
      assert s[1 + n..] == t;
    }
  }

  lemma NoDigits(v: nat, t: seq<Byte>)
    ensures BigEndian(v, 0, t) == t
  {
  }

  // ----- values -----

  function PutU32(v: U32, t: seq<Byte>): seq<Byte> { Head(UNSIGNED, v, t) }

  function ParseU32(s: seq<Byte>): Option<Parsed<U32>> {
    var p :- ParseHead(s, UNSIGNED, 4);
    if p.value < 0x1_0000_0000 then Some(Parsed(p.value, p.rest)) else None
  }

  function PutI32(v: I32, t: seq<Byte>): seq<Byte> {
    if v >= 0 then Head(UNSIGNED, v, t) else Head(NEGATIVE, -1 - v, t)
  }

  function ParseI32(s: seq<Byte>): Option<Parsed<I32>> {
    if s != [] && s[0] / 32 == NEGATIVE then
      var p :- ParseHead(s, NEGATIVE, 4);
      if p.value < 0x8000_0000 then Some(Parsed(-1 - p.value, p.rest)) else None
    else
      var p :- ParseHead(s, UNSIGNED, 4);
      if p.value < 0x8000_0000 then Some(Parsed(p.value, p.rest)) else None
  }

  function PutText(v: Text, t: seq<Byte>): seq<Byte> { Head(TEXT, |v|, v + t) }

  function ParseText(s: seq<Byte>): Option<Parsed<Text>> {
    var p :- ParseHead(s, TEXT, 8);
    if p.value <= |p.rest| && p.value < 0x1_0000_0000_0000_0000
    then Some(Parsed(p.rest[..p.value], p.rest[p.value..])) else None
  }

  function PutF32(v: F32, t: seq<Byte>): seq<Byte> { [FLOAT] + BigEndian(v, 4, t) }

  function ParseF32(s: seq<Byte>): Option<Parsed<F32>> {
    if |s| < 5 || s[0] != FLOAT then None
    else
      var v := FromBigEndian(s[1..5], 0);
      if v < 0x1_0000_0000 then Some(Parsed(v, s[5..])) else None
  }

  function PutBool(v: bool, t: seq<Byte>): seq<Byte> { [if v then TRUE else FALSE] + t }

  function ParseBool(s: seq<Byte>): Option<Parsed<bool>> {
    if s == [] || (s[0] != TRUE && s[0] != FALSE) then None else Some(Parsed(s[0] == TRUE, s[1..]))
  }

  function ParseMarker(s: seq<Byte>, marker: Byte): Option<Parsed<()>> {
    if s == [] || s[0] != marker then None else Some(Parsed((), s[1..]))
  }

  function PutOptional<T>(v: Option<T>, put: (T, seq<Byte>) -> seq<Byte>, t: seq<Byte>): seq<Byte> {
    if v.None? then t else put(v.value, t)
  }

  /** A field that is there if it can be read; otherwise nothing is consumed. */
  function ParseOptional<T>(s: seq<Byte>, parse: seq<Byte> -> Option<Parsed<T>>): Parsed<Option<T>> {
    var p := parse(s);
    if p.None? then Parsed(None, s) else Parsed(Some(p.value.value), p.value.rest)
  }

  // ----- sizes -----

  function SizeOfUint(v: U64): nat {
    if v <= 23 then 1 else if v <= 0xff then 2 else if v <= 0xffff then 3 else if v <= 0xffff_ffff then 5 else 9
  }

  function SizeOfInt(v: I32): nat { if v >= 0 then SizeOfUint(v) else SizeOfUint(-1 - v) }

  function SizeOfText(v: Text): nat { SizeOfUint(|v|) + |v| }

  function SizeOfOptional<T>(v: Option<T>, size: T -> nat): nat { if v.None? then 0 else size(v.value) }

  function SizeOfAll<T>(items: seq<T>, size: T -> nat): nat {
    if items == [] then 0 else SizeOfAll(items[..|items| - 1], size) + size(items[|items| - 1])
  }

  lemma SizeIsHead(v: U64)
    ensures SizeOfUint(v) == 1 + Extra(v)
  {
  }

  lemma U32RoundTrip(v: U32, t: seq<Byte>)
    ensures ParseU32(PutU32(v, t)) == Some(Parsed(v, t))
    ensures |PutU32(v, t)| == SizeOfUint(v) + |t| && PutU32(v, t)[0] / 32 == UNSIGNED
  {
    HeadRoundTrip(UNSIGNED, v, t, 4);
  }

  lemma I32RoundTrip(v: I32, t: seq<Byte>)
    ensures ParseI32(PutI32(v, t)) == Some(Parsed(v, t))
    ensures |PutI32(v, t)| == SizeOfInt(v) + |t| && PutI32(v, t)[0] / 32 <= NEGATIVE
  {
    if v >= 0 { HeadRoundTrip(UNSIGNED, v, t, 4); } else { HeadRoundTrip(NEGATIVE, -1 - v, t, 4); }
  }

  lemma TextRoundTrip(v: Text, t: seq<Byte>)
    ensures ParseText(PutText(v, t)) == Some(Parsed(v, t))
    ensures |PutText(v, t)| == SizeOfText(v) + |t| && PutText(v, t)[0] / 32 == TEXT
  {
    HeadRoundTrip(TEXT, |v|, v + t, 8);
    assert (v + t)[..|v|] == v && (v + t)[|v|..] == t;
  }

  lemma F32RoundTrip(v: F32, t: seq<Byte>)
    ensures ParseF32(PutF32(v, t)) == Some(Parsed(v, t))
    ensures |PutF32(v, t)| == 5 + |t| && PutF32(v, t)[0] == FLOAT
  {
    hide BigEndian, FromBigEndian;
    BigEndianSplits(v, 4, t);
    assert v < Power(4);
    BigEndianRoundTrip(v, 4);
    assert PutF32(v, t)[1..5] == BigEndian(v, 4, []);
    assert PutF32(v, t)[5..] == t;
  }

  lemma BoolRoundTrip(v: bool, t: seq<Byte>)
    ensures ParseBool(PutBool(v, t)) == Some(Parsed(v, t))
    ensures |PutBool(v, t)| == 1 + |t|
  {
  }

  lemma MarkerRoundTrip(m: Byte, t: seq<Byte>)
    ensures ParseMarker([m] + t, m) == Some(Parsed((), t))
  {
    assert ([m] + t)[1..] == t;
  }

  // ----- lists -----

  function PutItems<T>(items: seq<T>, put: (T, seq<Byte>) -> seq<Byte>, t: seq<Byte>): seq<Byte> {
    if items == [] then t else put(items[0], PutItems(items[1..], put, t))
  }

  /** Items up to the break, which is consumed. An item always takes some bytes. */
  function ParseItems<T>(s: seq<Byte>, parse: seq<Byte> -> Option<Parsed<T>>): Option<Parsed<seq<T>>>
    decreases |s|
  {
    if s != [] && s[0] == BREAK then Some(Parsed([], s[1..]))
    else
      var p :- parse(s);
      if |p.rest| >= |s| then None
      else
        var q :- ParseItems(p.rest, parse);
        Some(Parsed([p.value] + q.value, q.rest))
  }

  /** What is written before t is read back, leaves t, has the given size and is not a break. */
  ghost predicate Codes<T(!new)>(put: (T, seq<Byte>) -> seq<Byte>, parse: seq<Byte> -> Option<Parsed<T>>,
                                 size: T -> nat, x: T, t: seq<Byte>)
  {
    parse(put(x, t)) == Some(Parsed(x, t)) && |put(x, t)| == size(x) + |t| && size(x) > 0 &&
    put(x, t)[0] != BREAK
  }

  ghost predicate ItemCodec<T(!new)>(put: (T, seq<Byte>) -> seq<Byte>, parse: seq<Byte> -> Option<Parsed<T>>,
                                     size: T -> nat)
  {
    forall x: T, t: seq<Byte> :: Codes(put, parse, size, x, t)
  }

  lemma {:induction false} ItemsRoundTrip<T(!new)>(items: seq<T>, put: (T, seq<Byte>) -> seq<Byte>,
                                             parse: seq<Byte> -> Option<Parsed<T>>, size: T -> nat, t: seq<Byte>)
    requires ItemCodec(put, parse, size)
    ensures ParseItems(PutItems(items, put, [BREAK] + t), parse) == Some(Parsed(items, t))
    decreases |items|
  {
    if items == [] {
      assert ([BREAK] + t)[1..] == t;
    } else {
      var s := PutItems(items[1..], put, [BREAK] + t);
      ItemsRoundTrip(items[1..], put, parse, size, t);
      assert Codes(put, parse, size, items[0], s);
      assert [items[0]] + items[1..] == items;
    }
  }

  lemma {:induction false} ItemsSize<T(!new)>(items: seq<T>, put: (T, seq<Byte>) -> seq<Byte>,
                                        parse: seq<Byte> -> Option<Parsed<T>>, size: T -> nat, t: seq<Byte>)
    requires ItemCodec(put, parse, size)
    ensures |PutItems(items, put, t)| == SizeOfAll(items, size) + |t|
    decreases |items|
  {
    if items != [] {
      ItemsSize(items[1..], put, parse, size, t);
      SizeOfFirst(items, size);
      assert Codes(put, parse, size, items[0], PutItems(items[1..], put, t));
    }
  }

  lemma {:induction false} SizeOfFirst<T>(items: seq<T>, size: T -> nat)
    requires items != []
    ensures SizeOfAll(items, size) == size(items[0]) + SizeOfAll(items[1..], size)
    decreases |items|
  {
    if |items| > 1 {
      var n := |items| - 1;
      SizeOfFirst(items[..n], size);
      assert items[..n][1..] == items[1..][..n - 1];
    }
  }

  // ----- lists in loops -----

  lemma NothingYet<T>(items: seq<T>, size: T -> nat)
    ensures items[0..] == items && SizeOfAll(items[..0], size) == 0
  {
  }

  lemma NothingLeft<T>(items: seq<T>, put: (T, seq<Byte>) -> seq<Byte>, t: seq<Byte>)
    ensures PutItems(items[|items|..], put, t) == t && items[..|items|] == items
  {
  }

  lemma NextItem<T>(items: seq<T>, i: nat, put: (T, seq<Byte>) -> seq<Byte>, t: seq<Byte>)
    requires i < |items|
    ensures PutItems(items[i..], put, t) == put(items[i], PutItems(items[i + 1..], put, t))
  {
    assert items[i..][1..] == items[i + 1..];
  }

  lemma {:induction false} SizeOfPrefix<T>(items: seq<T>, i: nat, size: T -> nat)
    requires i < |items|
    ensures SizeOfAll(items[..i + 1], size) == SizeOfAll(items[..i], size) + size(items[i]) <= SizeOfAll(items, size)
    decreases |items|
  {
    var n := |items| - 1;
    assert items[..i + 1][..i] == items[..i];
    if i < n {
      SizeOfPrefix(items[..n], i, size);
      assert items[..n][..i + 1] == items[..i + 1] && items[..n][..i] == items[..i];
    } else {
      assert items[..i + 1] == items;
    }
  }

  /** A loop that reads items has read done since start and still has s before it. */
  ghost predicate Reading<T>(parse: seq<Byte> -> Option<Parsed<T>>, start: seq<Byte>, done: seq<T>, s: seq<Byte>) {
    ParseItems(start, parse) ==
    match ParseItems(s, parse)
    case None => None
    case Some(p) => Some(Parsed(done + p.value, p.rest))
  }

  predicate Shrinks<T>(p: Option<Parsed<T>>, s: seq<Byte>) {
    p.Some? ==> |p.value.rest| < |s|
  }

  lemma ReadingStarts<T>(parse: seq<Byte> -> Option<Parsed<T>>, s: seq<Byte>)
    ensures Reading(parse, s, [], s)
  {
    var p := ParseItems(s, parse);
    if p.Some? { assert [] + p.value.value == p.value.value; }
  }

  lemma ReadingAdvances<T>(parse: seq<Byte> -> Option<Parsed<T>>, start: seq<Byte>, done: seq<T>, s: seq<Byte>)
    requires Reading(parse, start, done, s) && (s == [] || s[0] != BREAK) && Shrinks(parse(s), s)
    ensures parse(s).None? ==> ParseItems(start, parse).None?
    ensures parse(s).Some? ==> Reading(parse, start, done + [parse(s).value.value], parse(s).value.rest)
  {
    if parse(s).Some? {
      var p := parse(s).value;
      var q := ParseItems(p.rest, parse);
      if q.Some? { assert done + ([p.value] + q.value.value) == done + [p.value] + q.value.value; }
    }
  }

  lemma ReadingEnds<T>(parse: seq<Byte> -> Option<Parsed<T>>, start: seq<Byte>, done: seq<T>, s: seq<Byte>)
    requires Reading(parse, start, done, s) && s != [] && s[0] == BREAK
    ensures ParseItems(start, parse) == Some(Parsed(done, s[1..]))
  {
    assert done + [] == done;
  }

  lemma {:induction false} ItemsShrink<T>(s: seq<Byte>, parse: seq<Byte> -> Option<Parsed<T>>)
    ensures Shrinks(ParseItems(s, parse), s)
    decreases |s|
  {
    if s == [] || s[0] != BREAK {
      var p := parse(s);
      if p.Some? && |p.value.rest| < |s| { ItemsShrink(p.value.rest, parse); }
    }
  }

  lemma PrimitivesShrink()
    ensures forall s: seq<Byte> :: Shrinks(ParseU32(s), s)
    ensures forall s: seq<Byte> :: Shrinks(ParseI32(s), s)
    ensures forall s: seq<Byte> :: Shrinks(ParseText(s), s)
    ensures forall s: seq<Byte> :: Shrinks(ParseF32(s), s)
    ensures forall s: seq<Byte> :: Shrinks(ParseBool(s), s)
  {
  }
}
