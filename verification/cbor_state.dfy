/** The encoding and decoding cursors and the size builder. Writers take, as a ghost, the bytes that are
    still to come, so that what is written can be stated as what is put before them. */
module CborState {
  import opened CborCodec
  import opened Wrappers

  // ----- encoding -----

  class Writer {
    const payload: array<Byte>
    var pos: nat

    ghost predicate Valid()
      reads this
    {
      pos <= payload.Length
    }

    function Written(): seq<Byte>
      requires Valid()
      reads this, payload
    {
      payload[..pos]
    }

    constructor (payload: array<Byte>)
      ensures Valid() && this.payload == payload && pos == 0
    {
      this.payload := payload;
      pos := 0;
    }

    /** Appends bytes, or fails without room for them. */
    method Append(b: seq<Byte>) returns (ok: bool)
      requires Valid()
      modifies this`pos, payload
      ensures Valid() && (ok <==> old(pos) + |b| <= payload.Length)
      ensures ok ==> pos == old(pos) + |b| && Written() == old(Written()) + b
    {
      if pos + |b| > payload.Length {
        return false;
      }
      ghost var before := Written();
      var start, i := pos, 0;
      while i < |b|
        invariant 0 <= i <= |b| && pos == start + i <= payload.Length
        invariant payload[..pos] == before + b[..i]
      {
        payload[pos] := b[i];
        pos := pos + 1;
        i := i + 1;
      }
      assert b[..i] == b;
      ok := true;
    }

    method Marker(x: Byte, ghost t: seq<Byte>) returns (ok: bool)
      requires Valid()
      modifies this`pos, payload
      ensures Valid() && (ok <==> old(pos) + 1 <= payload.Length)
      ensures ok ==> pos == old(pos) + 1 && Written() + t == old(Written()) + ([x] + t)
    {
      ok := Append([x]);
      ghost var before := old(Written());
      if ok { assert before + [x] + t == before + ([x] + t); }
    }

    method Uint32(v: U32, ghost t: seq<Byte>) returns (ok: bool)
      requires Valid()
      modifies this`pos, payload
      ensures Valid() && (ok <==> old(pos) + SizeOfUint(v) <= payload.Length)
      ensures ok ==> pos == old(pos) + SizeOfUint(v) && Written() + t == old(Written()) + PutU32(v, t)
    {
      U32RoundTrip(v, []);
      HeadSplits(UNSIGNED, v, t);
      ghost var before := Written();
      ok := Append(PutU32(v, []));
      if ok { assert before + PutU32(v, []) + t == before + (PutU32(v, []) + t); }
    }

    method Int32(v: I32, ghost t: seq<Byte>) returns (ok: bool)
      requires Valid()
      modifies this`pos, payload
      ensures Valid() && (ok <==> old(pos) + SizeOfInt(v) <= payload.Length)
      ensures ok ==> pos == old(pos) + SizeOfInt(v) && Written() + t == old(Written()) + PutI32(v, t)
    {
      I32RoundTrip(v, []);
      if v >= 0 { HeadSplits(UNSIGNED, v, t); } else { HeadSplits(NEGATIVE, -1 - v, t); }
      ghost var before := Written();
      ok := Append(PutI32(v, []));
      if ok { assert before + PutI32(v, []) + t == before + (PutI32(v, []) + t); }
    }

    method Tstr(v: Text, ghost t: seq<Byte>) returns (ok: bool)
      requires Valid()
      modifies this`pos, payload
      ensures Valid() && (ok <==> old(pos) + SizeOfText(v) <= payload.Length)
      ensures ok ==> pos == old(pos) + SizeOfText(v) && Written() + t == old(Written()) + PutText(v, t)
    {
      TextRoundTrip(v, []);
      HeadSplits(TEXT, |v|, v + []);
      HeadSplits(TEXT, |v|, v + t);
      ghost var before, head := Written(), Head(TEXT, |v|, []);
      assert v + [] == v;
      ok := Append(PutText(v, []));
      if ok { assert before + (head + v) + t == before + (head + (v + t)); }
    }

    method Float32(v: F32, ghost t: seq<Byte>) returns (ok: bool)
      requires Valid()
      modifies this`pos, payload
      ensures Valid() && (ok <==> old(pos) + 5 <= payload.Length)
      ensures ok ==> pos == old(pos) + 5 && Written() + t == old(Written()) + PutF32(v, t)
    {
      F32RoundTrip(v, []);
      BigEndianSplits(v, 4, t);
      ghost var before := Written();
      ok := Append(PutF32(v, []));
      if ok { assert before + PutF32(v, []) + t == before + (PutF32(v, []) + t); }
    }

    method Bool(v: bool, ghost t: seq<Byte>) returns (ok: bool)
      requires Valid()
      modifies this`pos, payload
      ensures Valid() && (ok <==> old(pos) + 1 <= payload.Length)
      ensures ok ==> pos == old(pos) + 1 && Written() + t == old(Written()) + PutBool(v, t)
    {
      ok := Marker(if v then TRUE else FALSE, t);
    }
  }

  lemma HeadSplits(major: nat, v: U64, t: seq<Byte>)
    requires major < 8
    ensures Head(major, v, t) == Head(major, v, []) + t
  {
    BigEndianSplits(v, Extra(v), t);
  }

  // ----- decoding -----

  /** A primitive either takes its value off the front or fails and consumes nothing. */
  ghost predicate Took<T>(p: Option<Parsed<T>>, r: Option<T>, before: seq<Byte>, after: seq<Byte>) {
    if p.None? then r.None? && after == before else r == Some(p.value.value) && after == p.value.rest
  }

  /** A composite that succeeds has taken its value off the front. */
  ghost predicate Got<T>(p: Option<Parsed<T>>, r: Option<T>, after: seq<Byte>) {
    if p.None? then r.None? else r == Some(p.value.value) && after == p.value.rest
  }

  class Reader {
    const payload: seq<Byte>
    var pos: nat

    ghost predicate Valid()
      reads this
    {
      pos <= |payload|
    }

    function Rest(): seq<Byte>
      requires Valid()
      reads this
    {
      payload[pos..]
    }

    constructor (payload: seq<Byte>)
      ensures Valid() && this.payload == payload && Rest() == payload
    {
      this.payload := payload;
      pos := 0;
    }

    /** The bytes up to the break of an indefinite-length container have been read. */
    predicate AtEnd()
      requires Valid()
      reads this
    {
      pos < |payload| && payload[pos] == BREAK
    }

    /** Puts the cursor so many bytes behind a place it has passed, or at the end. */
    method Recover(at: nat, skip: nat)
      requires at <= |payload|
      modifies this`pos
      ensures Valid() && pos == if skip <= |payload| - at then at + skip else |payload|
    {
      pos := if skip <= |payload| - at then at + skip else |payload|;
    }

    method Marker(x: Byte) returns (r: Option<()>)
      requires Valid()
      modifies this`pos
      ensures Valid() && Took(ParseMarker(old(Rest()), x), r, old(Rest()), Rest())
    {
      if pos < |payload| && payload[pos] == x {
        pos := pos + 1;
        r := Some(());
      } else {
        r := None;
      }
    }

    method Head(major: nat, most: nat) returns (r: Option<nat>)
      requires Valid()
      modifies this`pos
      ensures Valid() && Took(ParseHead(old(Rest()), major, most), r, old(Rest()), Rest())
    {
      if pos == |payload| || payload[pos] / 32 != major {
        return None;
      }
      var info := payload[pos] % 32;
      if info <= 23 {
        pos := pos + 1;
        return Some(info);
      }
      if info > 27 {
        return None;
      }
      var n := if info == 24 then 1 else if info == 25 then 2 else if info == 26 then 4 else 8;
      if n > most || |payload| < pos + 1 + n {
        return None;
      }
      assert Rest()[1..1 + n] == payload[pos + 1..pos + 1 + n];
      var v := FromBigEndian(payload[pos + 1..pos + 1 + n], 0);
      pos := pos + 1 + n;
      r := Some(v);
    }

    method Uint32() returns (r: Option<U32>)
      requires Valid()
      modifies this`pos
      ensures Valid() && Took(ParseU32(old(Rest())), r, old(Rest()), Rest())
    {
      var start := pos;
      var v := Head(UNSIGNED, 4);
      if v.Some? && v.value < 0x1_0000_0000 {
        r := Some(v.value);
      } else {
        pos := start;
        r := None;
      }
    }

    method Int32() returns (r: Option<I32>)
      requires Valid()
      modifies this`pos
      ensures Valid() && Took(ParseI32(old(Rest())), r, old(Rest()), Rest())
    {
      var start := pos;
      var negative := pos < |payload| && payload[pos] / 32 == NEGATIVE;
      var v := Head(if negative then NEGATIVE else UNSIGNED, 4);
      if v.Some? && v.value < 0x8000_0000 {
        var n: int := v.value;
        var i: I32 := if negative then -1 - n else n;
        r := Some(i);
      } else {
        pos := start;
        r := None;
      }
    }

    method Tstr() returns (r: Option<Text>)
      requires Valid()
      modifies this`pos
      ensures Valid() && Took(ParseText(old(Rest())), r, old(Rest()), Rest())
    {
      var start := pos;
      var n := Head(TEXT, 8);
      if n.Some? && n.value <= |payload| - pos && n.value < 0x1_0000_0000_0000_0000 {
        assert Rest()[..n.value] == payload[pos..pos + n.value];
        r := Some(payload[pos..pos + n.value]);
        pos := pos + n.value;
      } else {
        pos := start;
        r := None;
      }
    }

    method Float32() returns (r: Option<F32>)
      requires Valid()
      modifies this`pos
      ensures Valid() && Took(ParseF32(old(Rest())), r, old(Rest()), Rest())
    {
      if |payload| - pos < 5 || payload[pos] != FLOAT {
        return None;
      }
      assert Rest()[1..5] == payload[pos + 1..pos + 5];
      var v := FromBigEndian(payload[pos + 1..pos + 5], 0);
      if v >= 0x1_0000_0000 {
        return None;
      }
      pos := pos + 5;
      r := Some(v);
    }

    method Bool() returns (r: Option<bool>)
      requires Valid()
      modifies this`pos
      ensures Valid() && Took(ParseBool(old(Rest())), r, old(Rest()), Rest())
    {
      if pos == |payload| || (payload[pos] != TRUE && payload[pos] != FALSE) {
        return None;
      }
      r := Some(payload[pos] == TRUE);
      pos := pos + 1;
    }
  }

  // ----- sizes -----

  class SizeBuilder {
    var size: nat

    constructor ()
      ensures size == 0
    {
      size := 0;
    }

    method AddUint(v: U64)
      modifies this
      ensures size == old(size) + SizeOfUint(v)
    {
      size := size + SizeOfUint(v);
    }

    method AddInt(v: I32)
      modifies this
      ensures size == old(size) + SizeOfInt(v)
    {
      size := size + SizeOfInt(v);
    }

    method AddTstr(v: Text)
      modifies this
      ensures size == old(size) + SizeOfText(v)
    {
      size := size + SizeOfText(v);
    }

    method AddBool(v: bool)
      modifies this
      ensures size == old(size) + 1
    {
      size := size + 1;
    }

    method AddFloat(v: F32)
      modifies this
      ensures size == old(size) + 5
    {
      size := size + 5;
    }

    /** The start marker and the break. */
    method AddIndefiniteArrayStart()
      modifies this
      ensures size == old(size) + 2
    {
      size := size + 2;
    }

    method AddSize(n: nat)
      modifies this
      ensures size == old(size) + n
    {
      size := size + n;
    }
  }
}
