/** The CAN bus configuration in CBOR: channels of messages of signals, encoder, decoder and size. */
module CborCanbus {
  import opened CborCodec
  import opened CborState
  import opened CborWire
  import opened Wrappers

  datatype Signal = Signal(startBit: U32, sizeBits: U32, factor: F32, offset: F32, name: Text, unit: Text)

  datatype Message = Message(frameId: U32, sendIntervalMs: I32, scriptPath: Text, name: Text,
                             messageSize: U32, signals: seq<Signal>)

  datatype Channel = Channel(kind: U32, isExtendedId: bool, busChannel: U32, bitrate: U32,
                             dataBitrate: U32, dbcFilePath: Text, messages: seq<Message>)

  datatype Config = Config(channels: seq<Channel>, comBusChannel: I32, checksum: U32)

  // ----- the format -----

  function PutSignal(x: Signal, t: seq<Byte>): seq<Byte> {
    [LIST_START] + PutU32(x.startBit, PutU32(x.sizeBits, PutF32(x.factor, PutF32(x.offset,
                   PutText(x.name, PutText(x.unit, [BREAK] + t))))))
  }

  function PutMessage(x: Message, t: seq<Byte>): seq<Byte> {
    [LIST_START] + PutU32(x.frameId, PutI32(x.sendIntervalMs, PutText(x.scriptPath, PutText(x.name,
                   PutU32(x.messageSize, [LIST_START] + PutItems(x.signals, PutSignal, [BREAK] + ([BREAK] + t)))))))
  }

  function PutChannel(x: Channel, t: seq<Byte>): seq<Byte> {
    [LIST_START] + PutU32(x.kind, PutBool(x.isExtendedId, PutU32(x.busChannel, PutU32(x.bitrate,
                   PutU32(x.dataBitrate, PutText(x.dbcFilePath,
                   [LIST_START] + PutItems(x.messages, PutMessage, [BREAK] + ([BREAK] + t))))))))
  }

  function PutConfig(x: Config, t: seq<Byte>): seq<Byte> {
    [LIST_START] + ([LIST_START] + PutItems(x.channels, PutChannel, [BREAK] +
                    PutI32(x.comBusChannel, PutU32(x.checksum, [BREAK] + t))))
  }

  function ParseSignal(s: seq<Byte>): Option<Parsed<Signal>> {
    var s0 :- ParseMarker(s, LIST_START);
    var startBit :- ParseU32(s0.rest);
    var sizeBits :- ParseU32(startBit.rest);
    var factor :- ParseF32(sizeBits.rest);
    var offset :- ParseF32(factor.rest);
    var name :- ParseText(offset.rest);
    var unit :- ParseText(name.rest);
    var end :- ParseMarker(unit.rest, BREAK);
    Some(Parsed(Signal(startBit.value, sizeBits.value, factor.value, offset.value, name.value, unit.value), end.rest))
  }

  function ParseMessage(s: seq<Byte>): Option<Parsed<Message>> {
    var s0 :- ParseMarker(s, LIST_START);
    var frameId :- ParseU32(s0.rest);
    var interval :- ParseI32(frameId.rest);
    var path :- ParseText(interval.rest);
    var name :- ParseText(path.rest);
    var size :- ParseU32(name.rest);
    var s1 :- ParseMarker(size.rest, LIST_START);
    var signals :- ParseItems(s1.rest, ParseSignal);
    var end :- ParseMarker(signals.rest, BREAK);
    Some(Parsed(Message(frameId.value, interval.value, path.value, name.value, size.value, signals.value), end.rest))
  }

  function ParseChannel(s: seq<Byte>): Option<Parsed<Channel>> {
    var s0 :- ParseMarker(s, LIST_START);
    var kind :- ParseU32(s0.rest);
    var extended :- ParseBool(kind.rest);
    var bus :- ParseU32(extended.rest);
    var bitrate :- ParseU32(bus.rest);
    var dataBitrate :- ParseU32(bitrate.rest);
    var path :- ParseText(dataBitrate.rest);
    var s1 :- ParseMarker(path.rest, LIST_START);
    var messages :- ParseItems(s1.rest, ParseMessage);
    var end :- ParseMarker(messages.rest, BREAK);
    Some(Parsed(Channel(kind.value, extended.value, bus.value, bitrate.value, dataBitrate.value, path.value,
                        messages.value), end.rest))
  }

  function ParseConfig(s: seq<Byte>): Option<Parsed<Config>> {
    var s0 :- ParseMarker(s, LIST_START);
    var s1 :- ParseMarker(s0.rest, LIST_START);
    var channels :- ParseItems(s1.rest, ParseChannel);
    var com :- ParseI32(channels.rest);
    var checksum :- ParseU32(com.rest);
    var end :- ParseMarker(checksum.rest, BREAK);
    Some(Parsed(Config(channels.value, com.value, checksum.value), end.rest))
  }

  function SizeOfSignal(x: Signal): nat {
    2 + SizeOfUint(x.startBit) + SizeOfUint(x.sizeBits) + 5 + 5 + SizeOfText(x.name) + SizeOfText(x.unit)
  }

  function SizeOfMessage(x: Message): nat {
    2 + SizeOfUint(x.frameId) + SizeOfInt(x.sendIntervalMs) + SizeOfText(x.scriptPath) + SizeOfText(x.name) +
    SizeOfUint(x.messageSize) + 2 + SizeOfAll(x.signals, SizeOfSignal)
  }

  function SizeOfChannel(x: Channel): nat {
    2 + SizeOfUint(x.kind) + 1 + SizeOfUint(x.busChannel) + SizeOfUint(x.bitrate) + SizeOfUint(x.dataBitrate) +
    SizeOfText(x.dbcFilePath) + 2 + SizeOfAll(x.messages, SizeOfMessage)
  }

  function SizeOfConfig(x: Config): nat {
    2 + 2 + SizeOfAll(x.channels, SizeOfChannel) + SizeOfInt(x.comBusChannel) + SizeOfUint(x.checksum)
  }

  // ----- round trips and sizes -----

  lemma SignalCodes(x: Signal, t: seq<Byte>)
    ensures Codes(PutSignal, ParseSignal, SizeOfSignal, x, t)
  {
    hide PutU32, PutF32, PutText, ParseU32, ParseF32, ParseText, SizeOfUint, SizeOfText;
    var t6 := [BREAK] + t;
    var t5 := PutText(x.unit, t6);
    var t4 := PutText(x.name, t5);
    var t3 := PutF32(x.offset, t4);
    var t2 := PutF32(x.factor, t3);
    var t1 := PutU32(x.sizeBits, t2);
    U32RoundTrip(x.startBit, t1);
    U32RoundTrip(x.sizeBits, t2);
    F32RoundTrip(x.factor, t3);
    F32RoundTrip(x.offset, t4);
    TextRoundTrip(x.name, t5);
    TextRoundTrip(x.unit, t6);
    MarkerRoundTrip(LIST_START, PutU32(x.startBit, t1));
    MarkerRoundTrip(BREAK, t);
  }

  lemma MessageCodes(x: Message, t: seq<Byte>)
    ensures Codes(PutMessage, ParseMessage, SizeOfMessage, x, t)
  {
    hide PutU32, PutI32, PutText, ParseU32, ParseI32, ParseText, SizeOfUint, SizeOfInt, SizeOfText, PutItems,
         ParseItems, SizeOfAll;
    var t7 := [BREAK] + t;
    var t6 := PutItems(x.signals, PutSignal, [BREAK] + t7);
    var t5 := [LIST_START] + t6;
    var t4 := PutU32(x.messageSize, t5);
    var t3 := PutText(x.name, t4);
    var t2 := PutText(x.scriptPath, t3);
    var t1 := PutI32(x.sendIntervalMs, t2);
    assert ItemCodec(PutSignal, ParseSignal, SizeOfSignal) by {
      forall y: Signal, u: seq<Byte>
        ensures Codes(PutSignal, ParseSignal, SizeOfSignal, y, u)
      {
        SignalCodes(y, u);
      }
    }
    U32RoundTrip(x.frameId, t1);
    I32RoundTrip(x.sendIntervalMs, t2);
    TextRoundTrip(x.scriptPath, t3);
    TextRoundTrip(x.name, t4);
    U32RoundTrip(x.messageSize, t5);
    ItemsRoundTrip(x.signals, PutSignal, ParseSignal, SizeOfSignal, t7);
    ItemsSize(x.signals, PutSignal, ParseSignal, SizeOfSignal, [BREAK] + t7);
    MarkerRoundTrip(LIST_START, PutU32(x.frameId, t1));
    MarkerRoundTrip(LIST_START, t6);
    MarkerRoundTrip(BREAK, t);
  }

  lemma ChannelCodes(x: Channel, t: seq<Byte>)
    ensures Codes(PutChannel, ParseChannel, SizeOfChannel, x, t)
  {
    hide PutU32, PutBool, PutText, ParseU32, ParseBool, ParseText, SizeOfUint, SizeOfText, PutItems, ParseItems,
         SizeOfAll;
    var t8 := [BREAK] + t;
    var t7 := PutItems(x.messages, PutMessage, [BREAK] + t8);
    var t6 := [LIST_START] + t7;
    var t5 := PutText(x.dbcFilePath, t6);
    var t4 := PutU32(x.dataBitrate, t5);
    var t3 := PutU32(x.bitrate, t4);
    var t2 := PutU32(x.busChannel, t3);
    var t1 := PutBool(x.isExtendedId, t2);
    assert ItemCodec(PutMessage, ParseMessage, SizeOfMessage) by {
      forall y: Message, u: seq<Byte>
        ensures Codes(PutMessage, ParseMessage, SizeOfMessage, y, u)
      {
        MessageCodes(y, u);
      }
    }
    U32RoundTrip(x.kind, t1);
    BoolRoundTrip(x.isExtendedId, t2);
    U32RoundTrip(x.busChannel, t3);
    U32RoundTrip(x.bitrate, t4);
    U32RoundTrip(x.dataBitrate, t5);
    TextRoundTrip(x.dbcFilePath, t6);
    ItemsRoundTrip(x.messages, PutMessage, ParseMessage, SizeOfMessage, t8);
    ItemsSize(x.messages, PutMessage, ParseMessage, SizeOfMessage, [BREAK] + t8);
    MarkerRoundTrip(LIST_START, PutU32(x.kind, t1));
    MarkerRoundTrip(LIST_START, t7);
    MarkerRoundTrip(BREAK, t);
  }

  /** Any configuration, written before any tail, is read back equal and leaves the tail, and takes
      exactly the computed size. */
  lemma ConfigCodes(x: Config, t: seq<Byte>)
    ensures ParseConfig(PutConfig(x, t)) == Some(Parsed(x, t))
    ensures |PutConfig(x, t)| == SizeOfConfig(x) + |t|
  {
    hide PutU32, PutI32, ParseU32, ParseI32, SizeOfUint, SizeOfInt, PutItems, ParseItems, SizeOfAll;
    var t3 := [BREAK] + t;
    var t2 := PutU32(x.checksum, t3);
    var t1 := PutI32(x.comBusChannel, t2);
    assert ItemCodec(PutChannel, ParseChannel, SizeOfChannel) by {
      forall y: Channel, u: seq<Byte>
        ensures Codes(PutChannel, ParseChannel, SizeOfChannel, y, u)
      {
        ChannelCodes(y, u);
      }
    }
    I32RoundTrip(x.comBusChannel, t2);
    U32RoundTrip(x.checksum, t3);
    ItemsRoundTrip(x.channels, PutChannel, ParseChannel, SizeOfChannel, t1);
    ItemsSize(x.channels, PutChannel, ParseChannel, SizeOfChannel, [BREAK] + t1);
    MarkerRoundTrip(LIST_START, [LIST_START] + PutItems(x.channels, PutChannel, [BREAK] + t1));
    MarkerRoundTrip(LIST_START, PutItems(x.channels, PutChannel, [BREAK] + t1));
    MarkerRoundTrip(BREAK, t);
  }

  // ----- what the bytes are -----

  function SignalItem(x: Signal): Item {
    Array([Int(x.startBit), Int(x.sizeBits), Single(x.factor), Single(x.offset), Str(x.name), Str(x.unit)])
  }

  function MessageItem(x: Message): Item {
    Array([Int(x.frameId), Int(x.sendIntervalMs), Str(x.scriptPath), Str(x.name), Int(x.messageSize),
           Array(Items(x.signals, SignalItem))])
  }

  function ChannelItem(x: Channel): Item {
    Array([Int(x.kind), Bool(x.isExtendedId), Int(x.busChannel), Int(x.bitrate), Int(x.dataBitrate),
           Str(x.dbcFilePath), Array(Items(x.messages, MessageItem))])
  }

  /** The configuration as a data item: the channels, the communication bus channel and the checksum. */
  function ConfigItem(x: Config): Item {
    Array([Array(Items(x.channels, ChannelItem)), Int(x.comBusChannel), Int(x.checksum)])
  }

  lemma SignalIsWire(x: Signal, t: seq<Byte>)
    ensures WritesItem(PutSignal, SignalItem, x, t)
  {
    hide PutU32, PutF32, PutText, Wire, WireAll;
    var e := [BREAK] + t;
    var i6 := [Str(x.unit)];
    var i5 := [Str(x.name)] + i6;
    var i4 := [Single(x.offset)] + i5;
    var i3 := [Single(x.factor)] + i4;
    var i2 := [Int(x.sizeBits)] + i3;
    Alone(e);
    TextIsWire(x.unit, e);
    Prepend(Str(x.unit), [], e);
    assert i6 + [] == i6 == [Str(x.unit)] + [];
    TextIsWire(x.name, WireAll(i6) + e);
    Prepend(Str(x.name), i6, e);
    F32IsWire(x.offset, WireAll(i5) + e);
    Prepend(Single(x.offset), i5, e);
    F32IsWire(x.factor, WireAll(i4) + e);
    Prepend(Single(x.factor), i4, e);
    U32IsWire(x.sizeBits, WireAll(i3) + e);
    Prepend(Int(x.sizeBits), i3, e);
    U32IsWire(x.startBit, WireAll(i2) + e);
    Prepend(Int(x.startBit), i2, e);
    assert SignalItem(x) == Array([Int(x.startBit)] + i2);
    ArrayIsWire([Int(x.startBit)] + i2, t);
  }

  lemma MessageIsWire(x: Message, t: seq<Byte>)
    ensures WritesItem(PutMessage, MessageItem, x, t)
  {
    hide PutU32, PutI32, PutText, PutItems, PutSignal, Wire, WireAll, Items, SignalItem;
    assert Writes(PutSignal, SignalItem) by {
      forall y: Signal, u: seq<Byte>
        ensures WritesItem(PutSignal, SignalItem, y, u)
      {
        SignalIsWire(y, u);
      }
    }
    var e := [BREAK] + t;
    var list := Array(Items(x.signals, SignalItem));
    var i6 := [list];
    var i5 := [Int(x.messageSize)] + i6;
    var i4 := [Str(x.name)] + i5;
    var i3 := [Str(x.scriptPath)] + i4;
    var i2 := [Int(x.sendIntervalMs)] + i3;
    Alone(e);
    ListIsWire(x.signals, PutSignal, SignalItem, e);
    Prepend(list, [], e);
    assert [list] + [] == i6;
    U32IsWire(x.messageSize, WireAll(i6) + e);
    Prepend(Int(x.messageSize), i6, e);
    TextIsWire(x.name, WireAll(i5) + e);
    Prepend(Str(x.name), i5, e);
    TextIsWire(x.scriptPath, WireAll(i4) + e);
    Prepend(Str(x.scriptPath), i4, e);
    I32IsWire(x.sendIntervalMs, WireAll(i3) + e);
    Prepend(Int(x.sendIntervalMs), i3, e);
    U32IsWire(x.frameId, WireAll(i2) + e);
    Prepend(Int(x.frameId), i2, e);
    assert MessageItem(x) == Array([Int(x.frameId)] + i2);
    ArrayIsWire([Int(x.frameId)] + i2, t);
  }

  lemma ChannelIsWire(x: Channel, t: seq<Byte>)
    ensures WritesItem(PutChannel, ChannelItem, x, t)
  {
    hide PutU32, PutBool, PutText, PutItems, PutMessage, Wire, WireAll, Items, MessageItem;
    assert Writes(PutMessage, MessageItem) by {
      forall y: Message, u: seq<Byte>
        ensures WritesItem(PutMessage, MessageItem, y, u)
      {
        MessageIsWire(y, u);
      }
    }
    var e := [BREAK] + t;
    var list := Array(Items(x.messages, MessageItem));
    var i7 := [list];
    var i6 := [Str(x.dbcFilePath)] + i7;
    var i5 := [Int(x.dataBitrate)] + i6;
    var i4 := [Int(x.bitrate)] + i5;
    var i3 := [Int(x.busChannel)] + i4;
    var i2 := [Bool(x.isExtendedId)] + i3;
    Alone(e);
    ListIsWire(x.messages, PutMessage, MessageItem, e);
    Prepend(list, [], e);
    assert [list] + [] == i7;
    TextIsWire(x.dbcFilePath, WireAll(i7) + e);
    Prepend(Str(x.dbcFilePath), i7, e);
    U32IsWire(x.dataBitrate, WireAll(i6) + e);
    Prepend(Int(x.dataBitrate), i6, e);
    U32IsWire(x.bitrate, WireAll(i5) + e);
    Prepend(Int(x.bitrate), i5, e);
    U32IsWire(x.busChannel, WireAll(i4) + e);
    Prepend(Int(x.busChannel), i4, e);
    BoolIsWire(x.isExtendedId, WireAll(i3) + e);
    Prepend(Bool(x.isExtendedId), i3, e);
    U32IsWire(x.kind, WireAll(i2) + e);
    Prepend(Int(x.kind), i2, e);
    assert ChannelItem(x) == Array([Int(x.kind)] + i2);
    ArrayIsWire([Int(x.kind)] + i2, t);
  }

  /** The encoding is the data item of the configuration, byte for byte. */
  lemma ConfigIsWire(x: Config, t: seq<Byte>)
    ensures WritesItem(PutConfig, ConfigItem, x, t)
  {
    hide PutU32, PutI32, PutItems, PutChannel, Wire, WireAll, Items, ChannelItem;
    assert Writes(PutChannel, ChannelItem) by {
      forall y: Channel, u: seq<Byte>
        ensures WritesItem(PutChannel, ChannelItem, y, u)
      {
        ChannelIsWire(y, u);
      }
    }
    var e := [BREAK] + t;
    var list := Array(Items(x.channels, ChannelItem));
    var i3 := [Int(x.checksum)];
    var i2 := [Int(x.comBusChannel)] + i3;
    Alone(e);
    U32IsWire(x.checksum, e);
    Prepend(Int(x.checksum), [], e);
    assert [Int(x.checksum)] + [] == i3;
    I32IsWire(x.comBusChannel, WireAll(i3) + e);
    Prepend(Int(x.comBusChannel), i3, e);
    ListIsWire(x.channels, PutChannel, ChannelItem, WireAll(i2) + e);
    Prepend(list, i2, e);
    assert ConfigItem(x) == Array([list] + i2);
    ArrayIsWire([list] + i2, t);
  }

  // ----- encoding -----

  method EncodeSignal(w: Writer, x: Signal, ghost t: seq<Byte>) returns (ok: bool)
    requires w.Valid()
    modifies w`pos, w.payload
    ensures w.Valid() && (ok <==> old(w.pos) + SizeOfSignal(x) <= w.payload.Length)
    ensures ok ==> w.pos == old(w.pos) + SizeOfSignal(x) && w.Written() + t == old(w.Written()) + PutSignal(x, t)
  {
    hide PutU32, PutF32, PutText, SizeOfUint, SizeOfText;
    ghost var t6 := [BREAK] + t;
    ghost var t5 := PutText(x.unit, t6);
    ghost var t4 := PutText(x.name, t5);
    ghost var t3 := PutF32(x.offset, t4);
    ghost var t2 := PutF32(x.factor, t3);
    ghost var t1 := PutU32(x.sizeBits, t2);
    ok := w.Marker(LIST_START, PutU32(x.startBit, t1));
    if !ok { return; }
    ok := w.Uint32(x.startBit, t1);
    if !ok { return; }
    ok := w.Uint32(x.sizeBits, t2);
    if !ok { return; }
    ok := w.Float32(x.factor, t3);
    if !ok { return; }
    ok := w.Float32(x.offset, t4);
    if !ok { return; }
    ok := w.Tstr(x.name, t5);
    if !ok { return; }
    ok := w.Tstr(x.unit, t6);
    if !ok { return; }
    ok := w.Marker(BREAK, t);
  }

  method EncodeMessage(w: Writer, x: Message, ghost t: seq<Byte>) returns (ok: bool)
    requires w.Valid()
    modifies w`pos, w.payload
    ensures w.Valid() && (ok <==> old(w.pos) + SizeOfMessage(x) <= w.payload.Length)
    ensures ok ==> w.pos == old(w.pos) + SizeOfMessage(x) && w.Written() + t == old(w.Written()) + PutMessage(x, t)
  {
    hide PutU32, PutI32, PutText, SizeOfUint, SizeOfInt, SizeOfText, PutItems, SizeOfAll, PutSignal, SizeOfSignal;
    ghost var t7 := [BREAK] + t;
    ghost var t6 := PutItems(x.signals, PutSignal, [BREAK] + t7);
    ghost var t5 := [LIST_START] + t6;
    ghost var t4 := PutU32(x.messageSize, t5);
    ghost var t3 := PutText(x.name, t4);
    ghost var t2 := PutText(x.scriptPath, t3);
    ghost var t1 := PutI32(x.sendIntervalMs, t2);
    ok := w.Marker(LIST_START, PutU32(x.frameId, t1));
    if !ok { return; }
    ok := w.Uint32(x.frameId, t1);
    if !ok { return; }
    ok := w.Int32(x.sendIntervalMs, t2);
    if !ok { return; }
    ok := w.Tstr(x.scriptPath, t3);
    if !ok { return; }
    ok := w.Tstr(x.name, t4);
    if !ok { return; }
    ok := w.Uint32(x.messageSize, t5);
    if !ok { return; }
    ok := EncodeSignals(w, x.signals, t7);
    if !ok { return; }
    ok := w.Marker(BREAK, t);
  }

  method EncodeSignals(w: Writer, items: seq<Signal>, ghost t: seq<Byte>) returns (ok: bool)
    requires w.Valid()
    modifies w`pos, w.payload
    ensures w.Valid() && (ok <==> old(w.pos) + 2 + SizeOfAll(items, SizeOfSignal) <= w.payload.Length)
    ensures ok ==> w.pos == old(w.pos) + 2 + SizeOfAll(items, SizeOfSignal)
    ensures ok ==> w.Written() + t ==
                   old(w.Written()) + ([LIST_START] + PutItems(items, PutSignal, [BREAK] + t))
  {
    hide SizeOfAll, PutItems, SizeOfSignal, PutSignal;
    ghost var start, all := w.Written(), [LIST_START] + PutItems(items, PutSignal, [BREAK] + t);
    ok := w.Marker(LIST_START, PutItems(items, PutSignal, [BREAK] + t));
    if !ok { return; }
    NothingYet(items, SizeOfSignal);
    var i := 0;
    while i < |items|
      invariant 0 <= i <= |items| && w.Valid()
      invariant w.pos == old(w.pos) + 1 + SizeOfAll(items[..i], SizeOfSignal)
      invariant w.Written() + PutItems(items[i..], PutSignal, [BREAK] + t) == start + all
    {
      NextItem(items, i, PutSignal, [BREAK] + t);
      SizeOfPrefix(items, i, SizeOfSignal);
      ok := EncodeSignal(w, items[i], PutItems(items[i + 1..], PutSignal, [BREAK] + t));
      if !ok { return; }
      i := i + 1;
    }
    NothingLeft(items, PutSignal, [BREAK] + t);
    ok := w.Marker(BREAK, t);
  }

  method EncodeChannel(w: Writer, x: Channel, ghost t: seq<Byte>) returns (ok: bool)
    requires w.Valid()
    modifies w`pos, w.payload
    ensures w.Valid() && (ok <==> old(w.pos) + SizeOfChannel(x) <= w.payload.Length)
    ensures ok ==> w.pos == old(w.pos) + SizeOfChannel(x) && w.Written() + t == old(w.Written()) + PutChannel(x, t)
  {
    hide PutU32, PutBool, PutText, SizeOfUint, SizeOfText, PutItems, SizeOfAll, PutMessage, SizeOfMessage;
    ghost var t8 := [BREAK] + t;
    ghost var t7 := PutItems(x.messages, PutMessage, [BREAK] + t8);
    ghost var t6 := [LIST_START] + t7;
    ghost var t5 := PutText(x.dbcFilePath, t6);
    ghost var t4 := PutU32(x.dataBitrate, t5);
    ghost var t3 := PutU32(x.bitrate, t4);
    ghost var t2 := PutU32(x.busChannel, t3);
    ghost var t1 := PutBool(x.isExtendedId, t2);
    ok := w.Marker(LIST_START, PutU32(x.kind, t1));
    if !ok { return; }
    ok := w.Uint32(x.kind, t1);
    if !ok { return; }
    ok := w.Bool(x.isExtendedId, t2);
    if !ok { return; }
    ok := w.Uint32(x.busChannel, t3);
    if !ok { return; }
    ok := w.Uint32(x.bitrate, t4);
    if !ok { return; }
    ok := w.Uint32(x.dataBitrate, t5);
    if !ok { return; }
    ok := w.Tstr(x.dbcFilePath, t6);
    if !ok { return; }
    ok := EncodeMessages(w, x.messages, t8);
    if !ok { return; }
    ok := w.Marker(BREAK, t);
  }

  method EncodeMessages(w: Writer, items: seq<Message>, ghost t: seq<Byte>) returns (ok: bool)
    requires w.Valid()
    modifies w`pos, w.payload
    ensures w.Valid() && (ok <==> old(w.pos) + 2 + SizeOfAll(items, SizeOfMessage) <= w.payload.Length)
    ensures ok ==> w.pos == old(w.pos) + 2 + SizeOfAll(items, SizeOfMessage)
    ensures ok ==> w.Written() + t ==
                   old(w.Written()) + ([LIST_START] + PutItems(items, PutMessage, [BREAK] + t))
  {
    hide SizeOfAll, PutItems, SizeOfMessage, PutMessage;
    ghost var start, all := w.Written(), [LIST_START] + PutItems(items, PutMessage, [BREAK] + t);
    ok := w.Marker(LIST_START, PutItems(items, PutMessage, [BREAK] + t));
    if !ok { return; }
    NothingYet(items, SizeOfMessage);
    var i := 0;
    while i < |items|
      invariant 0 <= i <= |items| && w.Valid()
      invariant w.pos == old(w.pos) + 1 + SizeOfAll(items[..i], SizeOfMessage)
      invariant w.Written() + PutItems(items[i..], PutMessage, [BREAK] + t) == start + all
    {
      NextItem(items, i, PutMessage, [BREAK] + t);
      SizeOfPrefix(items, i, SizeOfMessage);
      ok := EncodeMessage(w, items[i], PutItems(items[i + 1..], PutMessage, [BREAK] + t));
      if !ok { return; }
      i := i + 1;
    }
    NothingLeft(items, PutMessage, [BREAK] + t);
    ok := w.Marker(BREAK, t);
  }

  method EncodeChannels(w: Writer, items: seq<Channel>, ghost t: seq<Byte>) returns (ok: bool)
    requires w.Valid()
    modifies w`pos, w.payload
    ensures w.Valid() && (ok <==> old(w.pos) + 2 + SizeOfAll(items, SizeOfChannel) <= w.payload.Length)
    ensures ok ==> w.pos == old(w.pos) + 2 + SizeOfAll(items, SizeOfChannel)
    ensures ok ==> w.Written() + t ==
                   old(w.Written()) + ([LIST_START] + PutItems(items, PutChannel, [BREAK] + t))
  {
    hide SizeOfAll, PutItems, SizeOfChannel, PutChannel;
    ghost var start, all := w.Written(), [LIST_START] + PutItems(items, PutChannel, [BREAK] + t);
    ok := w.Marker(LIST_START, PutItems(items, PutChannel, [BREAK] + t));
    if !ok { return; }
    NothingYet(items, SizeOfChannel);
    var i := 0;
    while i < |items|
      invariant 0 <= i <= |items| && w.Valid()
      invariant w.pos == old(w.pos) + 1 + SizeOfAll(items[..i], SizeOfChannel)
      invariant w.Written() + PutItems(items[i..], PutChannel, [BREAK] + t) == start + all
    {
      NextItem(items, i, PutChannel, [BREAK] + t);
      SizeOfPrefix(items, i, SizeOfChannel);
      ok := EncodeChannel(w, items[i], PutItems(items[i + 1..], PutChannel, [BREAK] + t));
      if !ok { return; }
      i := i + 1;
    }
    NothingLeft(items, PutChannel, [BREAK] + t);
    ok := w.Marker(BREAK, t);
  }

  method EncodeConfig(w: Writer, x: Config) returns (ok: bool)
    requires w.Valid()
    modifies w`pos, w.payload
    ensures w.Valid() && (ok <==> old(w.pos) + SizeOfConfig(x) <= w.payload.Length)
    ensures ok ==> w.pos == old(w.pos) + SizeOfConfig(x) && w.Written() == old(w.Written()) + PutConfig(x, [])
  {
    hide PutU32, PutI32, SizeOfUint, SizeOfInt, PutItems, SizeOfAll, PutChannel, SizeOfChannel;
    ghost var t3: seq<Byte> := [BREAK] + [];
    ghost var t2 := PutU32(x.checksum, t3);
    ghost var t1 := PutI32(x.comBusChannel, t2);
    ok := w.Marker(LIST_START, [LIST_START] + PutItems(x.channels, PutChannel, [BREAK] + t1));
    if !ok { return; }
    ok := EncodeChannels(w, x.channels, t1);
    if !ok { return; }
    ok := w.Int32(x.comBusChannel, t2);
    if !ok { return; }
    ok := w.Uint32(x.checksum, t3);
    if !ok { return; }
    ok := w.Marker(BREAK, []);
    if ok { assert w.Written() + [] == w.Written(); }
  }

  // ----- decoding -----

  method DecodeSignal(r: Reader) returns (x: Option<Signal>)
    requires r.Valid()
    modifies r`pos
    ensures r.Valid() && Got(ParseSignal(old(r.Rest())), x, r.Rest())
  {
    hide ParseU32, ParseF32, ParseText, ParseMarker;
    var s0 := r.Marker(LIST_START);
    if s0.None? { return None; }
    var startBit := r.Uint32();
    if startBit.None? { return None; }
    var sizeBits := r.Uint32();
    if sizeBits.None? { return None; }
    var factor := r.Float32();
    if factor.None? { return None; }
    var offset := r.Float32();
    if offset.None? { return None; }
    var name := r.Tstr();
    if name.None? { return None; }
    var unit := r.Tstr();
    if unit.None? { return None; }
    var end := r.Marker(BREAK);
    if end.None? { return None; }
    x := Some(Signal(startBit.value, sizeBits.value, factor.value, offset.value, name.value, unit.value));
  }

  method DecodeMessage(r: Reader) returns (x: Option<Message>)
    requires r.Valid()
    modifies r`pos
    ensures r.Valid() && Got(ParseMessage(old(r.Rest())), x, r.Rest())
  {
    hide ParseU32, ParseI32, ParseText, ParseMarker, ParseItems, ParseSignal;
    var s0 := r.Marker(LIST_START);
    if s0.None? { return None; }
    var frameId := r.Uint32();
    if frameId.None? { return None; }
    var interval := r.Int32();
    if interval.None? { return None; }
    var path := r.Tstr();
    if path.None? { return None; }
    var name := r.Tstr();
    if name.None? { return None; }
    var size := r.Uint32();
    if size.None? { return None; }
    var s1 := r.Marker(LIST_START);
    if s1.None? { return None; }
    var signals := DecodeSignals(r);
    if signals.None? { return None; }
    var end := r.Marker(BREAK);
    if end.None? { return None; }
    x := Some(Message(frameId.value, interval.value, path.value, name.value, size.value, signals.value));
  }

  method DecodeChannel(r: Reader) returns (x: Option<Channel>)
    requires r.Valid()
    modifies r`pos
    ensures r.Valid() && Got(ParseChannel(old(r.Rest())), x, r.Rest())
  {
    hide ParseU32, ParseBool, ParseText, ParseMarker, ParseItems, ParseMessage;
    var s0 := r.Marker(LIST_START);
    if s0.None? { return None; }
    var kind := r.Uint32();
    if kind.None? { return None; }
    var extended := r.Bool();
    if extended.None? { return None; }
    var bus := r.Uint32();
    if bus.None? { return None; }
    var bitrate := r.Uint32();
    if bitrate.None? { return None; }
    var dataBitrate := r.Uint32();
    if dataBitrate.None? { return None; }
    var path := r.Tstr();
    if path.None? { return None; }
    var s1 := r.Marker(LIST_START);
    if s1.None? { return None; }
    var messages := DecodeMessages(r);
    if messages.None? { return None; }
    var end := r.Marker(BREAK);
    if end.None? { return None; }
    x := Some(Channel(kind.value, extended.value, bus.value, bitrate.value, dataBitrate.value, path.value,
                      messages.value));
  }

  method DecodeConfig(r: Reader) returns (x: Option<Config>)
    requires r.Valid()
    modifies r`pos
    ensures r.Valid() && Got(ParseConfig(old(r.Rest())), x, r.Rest())
  {
    hide ParseU32, ParseI32, ParseMarker, ParseItems, ParseChannel;
    var s0 := r.Marker(LIST_START);
    if s0.None? { return None; }
    var s1 := r.Marker(LIST_START);
    if s1.None? { return None; }
    var channels := DecodeChannels(r);
    if channels.None? { return None; }
    var com := r.Int32();
    if com.None? { return None; }
    var checksum := r.Uint32();
    if checksum.None? { return None; }
    var end := r.Marker(BREAK);
    if end.None? { return None; }
    x := Some(Config(channels.value, com.value, checksum.value));
  }

  /** Reads up to the break, and the break. */
  method DecodeSignals(r: Reader) returns (items: Option<seq<Signal>>)
    requires r.Valid()
    modifies r`pos
    ensures r.Valid() && Got(ParseItems(old(r.Rest()), ParseSignal), items, r.Rest())
  {
    hide ParseItems, ParseSignal, Reading;
    ghost var start := r.Rest();
    var done: seq<Signal> := [];
    ReadingStarts(ParseSignal, start);
    while !r.AtEnd()
      invariant r.Valid() && Reading(ParseSignal, start, done, r.Rest())
      decreases |r.Rest()|
    {
      ghost var s := r.Rest();
      SignalShrinks(s);
      ReadingAdvances(ParseSignal, start, done, s);
      var x := DecodeSignal(r);
      if x.None? { return None; }
      done := done + [x.value];
    }
    ReadingEnds(ParseSignal, start, done, r.Rest());
    var end := r.Marker(BREAK);
    items := Some(done);
  }

  lemma SignalShrinks(s: seq<Byte>)
    ensures Shrinks(ParseSignal(s), s)
  {
    hide ParseU32, ParseF32, ParseText;
    PrimitivesShrink();
  }

  /** Reads up to the break, and the break. */
  method DecodeMessages(r: Reader) returns (items: Option<seq<Message>>)
    requires r.Valid()
    modifies r`pos
    ensures r.Valid() && Got(ParseItems(old(r.Rest()), ParseMessage), items, r.Rest())
  {
    hide ParseItems, ParseMessage, Reading;
    ghost var start := r.Rest();
    var done: seq<Message> := [];
    ReadingStarts(ParseMessage, start);
    while !r.AtEnd()
      invariant r.Valid() && Reading(ParseMessage, start, done, r.Rest())
      decreases |r.Rest()|
    {
      ghost var s := r.Rest();
      MessageShrinks(s);
      ReadingAdvances(ParseMessage, start, done, s);
      var x := DecodeMessage(r);
      if x.None? { return None; }
      done := done + [x.value];
    }
    ReadingEnds(ParseMessage, start, done, r.Rest());
    var end := r.Marker(BREAK);
    items := Some(done);
  }

  lemma MessageShrinks(s: seq<Byte>)
    ensures Shrinks(ParseMessage(s), s)
  {
    hide ParseU32, ParseI32, ParseText, ParseItems, ParseSignal;
    PrimitivesShrink();
    forall u: seq<Byte>
      ensures Shrinks(ParseItems(u, ParseSignal), u)
    {
      ItemsShrink(u, ParseSignal);
    }
  }

  /** Reads up to the break, and the break. */
  method DecodeChannels(r: Reader) returns (items: Option<seq<Channel>>)
    requires r.Valid()
    modifies r`pos
    ensures r.Valid() && Got(ParseItems(old(r.Rest()), ParseChannel), items, r.Rest())
  {
    hide ParseItems, ParseChannel, Reading;
    ghost var start := r.Rest();
    var done: seq<Channel> := [];
    ReadingStarts(ParseChannel, start);
    while !r.AtEnd()
      invariant r.Valid() && Reading(ParseChannel, start, done, r.Rest())
      decreases |r.Rest()|
    {
      ghost var s := r.Rest();
      ChannelShrinks(s);
      ReadingAdvances(ParseChannel, start, done, s);
      var x := DecodeChannel(r);
      if x.None? { return None; }
      done := done + [x.value];
    }
    ReadingEnds(ParseChannel, start, done, r.Rest());
    var end := r.Marker(BREAK);
    items := Some(done);
  }

  lemma ChannelShrinks(s: seq<Byte>)
    ensures Shrinks(ParseChannel(s), s)
  {
    hide ParseU32, ParseBool, ParseText, ParseItems, ParseMessage;
    PrimitivesShrink();
    forall u: seq<Byte>
      ensures Shrinks(ParseItems(u, ParseMessage), u)
    {
      ItemsShrink(u, ParseMessage);
    }
  }

  // ----- size -----

  method AddSignal(b: SizeBuilder, x: Signal)
    modifies b
    ensures b.size == old(b.size) + SizeOfSignal(x)
  {
    b.AddIndefiniteArrayStart();
    b.AddUint(x.startBit);
    b.AddUint(x.sizeBits);
    b.AddFloat(x.factor);
    b.AddFloat(x.offset);
    b.AddTstr(x.name);
    b.AddTstr(x.unit);
  }

  method AddMessage(b: SizeBuilder, x: Message)
    modifies b
    ensures b.size == old(b.size) + SizeOfMessage(x)
  {
    b.AddIndefiniteArrayStart();
    b.AddUint(x.frameId);
    b.AddInt(x.sendIntervalMs);
    b.AddTstr(x.scriptPath);
    b.AddTstr(x.name);
    b.AddUint(x.messageSize);
    AddSignals(b, x.signals);
  }

  method AddChannel(b: SizeBuilder, x: Channel)
    modifies b
    ensures b.size == old(b.size) + SizeOfChannel(x)
  {
    b.AddIndefiniteArrayStart();
    b.AddUint(x.kind);
    b.AddBool(x.isExtendedId);
    b.AddUint(x.busChannel);
    b.AddUint(x.bitrate);
    b.AddUint(x.dataBitrate);
    b.AddTstr(x.dbcFilePath);
    AddMessages(b, x.messages);
  }

  method AddSignals(b: SizeBuilder, items: seq<Signal>)
    modifies b
    ensures b.size == old(b.size) + 2 + SizeOfAll(items, SizeOfSignal)
  {
    hide SizeOfAll, SizeOfSignal;
    b.AddIndefiniteArrayStart();
    NothingYet(items, SizeOfSignal);
    var i := 0;
    while i < |items|
      invariant 0 <= i <= |items|
      invariant b.size == old(b.size) + 2 + SizeOfAll(items[..i], SizeOfSignal)
    {
      SizeOfPrefix(items, i, SizeOfSignal);
      AddSignal(b, items[i]);
      i := i + 1;
    }
    assert items[..i] == items;
  }

  method AddMessages(b: SizeBuilder, items: seq<Message>)
    modifies b
    ensures b.size == old(b.size) + 2 + SizeOfAll(items, SizeOfMessage)
  {
    hide SizeOfAll, SizeOfMessage;
    b.AddIndefiniteArrayStart();
    NothingYet(items, SizeOfMessage);
    var i := 0;
    while i < |items|
      invariant 0 <= i <= |items|
      invariant b.size == old(b.size) + 2 + SizeOfAll(items[..i], SizeOfMessage)
    {
      SizeOfPrefix(items, i, SizeOfMessage);
      AddMessage(b, items[i]);
      i := i + 1;
    }
    assert items[..i] == items;
  }

  method AddChannels(b: SizeBuilder, items: seq<Channel>)
    modifies b
    ensures b.size == old(b.size) + 2 + SizeOfAll(items, SizeOfChannel)
  {
    hide SizeOfAll, SizeOfChannel;
    b.AddIndefiniteArrayStart();
    NothingYet(items, SizeOfChannel);
    var i := 0;
    while i < |items|
      invariant 0 <= i <= |items|
      invariant b.size == old(b.size) + 2 + SizeOfAll(items[..i], SizeOfChannel)
    {
      SizeOfPrefix(items, i, SizeOfChannel);
      AddChannel(b, items[i]);
      i := i + 1;
    }
    assert items[..i] == items;
  }

  method GetSize(x: Config) returns (n: nat)
    ensures n == SizeOfConfig(x)
  {
    var b := new SizeBuilder();
    b.AddIndefiniteArrayStart();
    AddChannels(b, x.channels);
    b.AddInt(x.comBusChannel);
    b.AddUint(x.checksum);
    n := b.size;
  }

  // ----- serializing -----

  /** The buffer of the computed size is always enough, and the encoding fills it to the last byte. */
  method Serialize(x: Config) returns (bytes: seq<Byte>)
    ensures bytes == PutConfig(x, [])
    ensures ConfigItem(x).Legal() && bytes == Wire(ConfigItem(x))
  {
    ConfigIsWire(x, []);
    hide PutConfig, SizeOfConfig, Wire, ConfigItem;
    var n := GetSize(x);
    var buffer := new Byte[n](_ => 0);
    var w := new Writer(buffer);
    var ok := EncodeConfig(w, x);
    assert ok && w.pos == n;
    assert [] + PutConfig(x, []) == PutConfig(x, []);
    bytes := buffer[..];
  }

  /** Any stored configuration is read back, from any bytes that begin with its encoding. */
  method Deserialize(bytes: seq<Byte>) returns (x: Option<Config>, used: nat)
    ensures x == (if ParseConfig(bytes).None? then None else Some(ParseConfig(bytes).value.value))
    ensures x.Some? ==> used <= |bytes| && bytes[used..] == ParseConfig(bytes).value.rest
    ensures forall y: Config, t: seq<Byte> :: bytes == PutConfig(y, t) ==> x == Some(y) && used == SizeOfConfig(y)
  {
    var r := new Reader(bytes);
    x := DecodeConfig(r);
    used := r.pos;
    forall y: Config, t: seq<Byte> | bytes == PutConfig(y, t)
      ensures x == Some(y) && used == SizeOfConfig(y)
    {
      ConfigCodes(y, t);
    }
  }
}
