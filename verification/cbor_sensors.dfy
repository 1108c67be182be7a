/** The sensors configuration in CBOR: sensors with metadata, three optional fields and a calibration
    map, encoder, decoder and size. */
module CborSensors {
  import opened CborCodec
  import opened CborState
  import opened CborWire
  import opened Wrappers

  datatype Point = Point(key: F32, value: F32)

  datatype Metadata = Metadata(name: Text, unit: Text, description: Text)

  datatype Configuration = Configuration(
    kind: U32, samplingRateMs: I32, interpolationMethod: U32, channel: Option<U32>,
    connectionString: Text, scriptPath: Text, calibrationTable: Option<seq<Point>>, expression: Option<Text>)

  datatype Sensor = Sensor(id: Text, metadata: Metadata, configuration: Configuration)

  datatype Config = Config(sensors: seq<Sensor>, checksum: U32)

  /** A calibration map needs two points to be encoded. */
  predicate EncodableConfiguration(x: Configuration) {
    x.calibrationTable.Some? ==> |x.calibrationTable.value| >= 2
  }

  predicate EncodableAll(sensors: seq<Sensor>) {
    forall i :: 0 <= i < |sensors| ==> EncodableConfiguration(sensors[i].configuration)
  }

  // ----- the format -----

  function PutPoint(x: Point, t: seq<Byte>): seq<Byte> { PutF32(x.key, PutF32(x.value, t)) }

  function PutTable(points: seq<Point>, t: seq<Byte>): seq<Byte> {
    [MAP_START] + PutItems(points, PutPoint, [BREAK] + t)
  }

  function PutMetadata(x: Metadata, t: seq<Byte>): seq<Byte> {
    [LIST_START] + PutText(x.name, PutText(x.unit, PutText(x.description, [BREAK] + t)))
  }

  function PutConfiguration(x: Configuration, t: seq<Byte>): seq<Byte> {
    [LIST_START] + PutU32(x.kind, PutI32(x.samplingRateMs, PutU32(x.interpolationMethod,
                   PutOptional(x.channel, PutU32, PutText(x.connectionString, PutText(x.scriptPath,
                   PutOptional(x.calibrationTable, PutTable,
                   PutOptional(x.expression, PutText, [BREAK] + t))))))))
  }

  function PutSensor(x: Sensor, t: seq<Byte>): seq<Byte> {
    [LIST_START] + PutText(x.id, PutMetadata(x.metadata, PutConfiguration(x.configuration, [BREAK] + t)))
  }

  function PutConfig(x: Config, t: seq<Byte>): seq<Byte> {
    [LIST_START] + ([LIST_START] + PutItems(x.sensors, PutSensor, [BREAK] + PutU32(x.checksum, [BREAK] + t)))
  }

  function ParsePoint(s: seq<Byte>): Option<Parsed<Point>> {
    var key :- ParseF32(s);
    var value :- ParseF32(key.rest);
    Some(Parsed(Point(key.value, value.value), value.rest))
  }

  /** How many bytes the library leaves behind when a map that starts there cannot be read. */
  type Recovery = seq<Byte> -> nat

  function Recovered(z: Recovery, s: seq<Byte>): (r: seq<Byte>)
    ensures |r| <= |s|
  {
    if z(s) <= |s| then s[z(s)..] else []
  }

  /** The table is absent unless a map starts here. It is absent too when that map cannot be read, and
      reading goes on where the library's recovery leaves the cursor. */
  function ParseTable(s: seq<Byte>, z: Recovery): Parsed<Option<seq<Point>>> {
    var start := ParseMarker(s, MAP_START);
    if start.None? then Parsed(None, s)
    else
      var points := ParseItems(start.value.rest, ParsePoint);
      if points.None? then Parsed(None, Recovered(z, s)) else Parsed(Some(points.value.value), points.value.rest)
  }

  function ParseMetadata(s: seq<Byte>): Option<Parsed<Metadata>> {
    var s0 :- ParseMarker(s, LIST_START);
    var name :- ParseText(s0.rest);
    var unit :- ParseText(name.rest);
    var description :- ParseText(unit.rest);
    var end :- ParseMarker(description.rest, BREAK);
    Some(Parsed(Metadata(name.value, unit.value, description.value), end.rest))
  }

  function ParseConfiguration(s: seq<Byte>, z: Recovery): Option<Parsed<Configuration>> {
    var s0 :- ParseMarker(s, LIST_START);
    var kind :- ParseU32(s0.rest);
    var rate :- ParseI32(kind.rest);
    var method_ :- ParseU32(rate.rest);
    var channel := ParseOptional(method_.rest, ParseU32);
    var connection :- ParseText(channel.rest);
    var path :- ParseText(connection.rest);
    var table := ParseTable(path.rest, z);
    var expression := ParseOptional(table.rest, ParseText);
    var end :- ParseMarker(expression.rest, BREAK);
    Some(Parsed(Configuration(kind.value, rate.value, method_.value, channel.value, connection.value, path.value,
                              table.value, expression.value), end.rest))
  }

  function ParseSensor(s: seq<Byte>, z: Recovery): Option<Parsed<Sensor>> {
    var s0 :- ParseMarker(s, LIST_START);
    var id :- ParseText(s0.rest);
    var metadata :- ParseMetadata(id.rest);
    var configuration :- ParseConfiguration(metadata.rest, z);
    var end :- ParseMarker(configuration.rest, BREAK);
    Some(Parsed(Sensor(id.value, metadata.value, configuration.value), end.rest))
  }

  function SensorParser(z: Recovery): seq<Byte> -> Option<Parsed<Sensor>> {
    s => ParseSensor(s, z)
  }

  function ParseConfig(s: seq<Byte>, z: Recovery): Option<Parsed<Config>> {
    var s0 :- ParseMarker(s, LIST_START);
    var s1 :- ParseMarker(s0.rest, LIST_START);
    var sensors :- ParseItems(s1.rest, SensorParser(z));
    var checksum :- ParseU32(sensors.rest);
    var end :- ParseMarker(checksum.rest, BREAK);
    Some(Parsed(Config(sensors.value, checksum.value), end.rest))
  }

  function SizeOfPoint(x: Point): nat { 5 + 5 }

  function SizeOfTable(points: seq<Point>): nat { 2 + SizeOfAll(points, SizeOfPoint) }

  function SizeOfMetadata(x: Metadata): nat {
    2 + SizeOfText(x.name) + SizeOfText(x.unit) + SizeOfText(x.description)
  }

  function SizeOfConfiguration(x: Configuration): nat {
    2 + SizeOfUint(x.kind) + SizeOfInt(x.samplingRateMs) + SizeOfUint(x.interpolationMethod) +
    SizeOfOptional(x.channel, (v: U32) => SizeOfUint(v)) + SizeOfText(x.connectionString) +
    SizeOfText(x.scriptPath) + SizeOfOptional(x.calibrationTable, SizeOfTable) +
    SizeOfOptional(x.expression, SizeOfText)
  }

  function SizeOfSensor(x: Sensor): nat {
    2 + SizeOfText(x.id) + SizeOfMetadata(x.metadata) + SizeOfConfiguration(x.configuration)
  }

  function SizeOfConfig(x: Config): nat {
    2 + 2 + SizeOfAll(x.sensors, SizeOfSensor) + SizeOfUint(x.checksum)
  }

  // ----- round trips and sizes -----

  lemma PointCodes(x: Point, t: seq<Byte>)
    ensures Codes(PutPoint, ParsePoint, SizeOfPoint, x, t)
  {
    hide PutF32, ParseF32;
    F32RoundTrip(x.key, PutF32(x.value, t));
    F32RoundTrip(x.value, t);
  }

  lemma TableRoundTrip(points: seq<Point>, t: seq<Byte>, z: Recovery)
    ensures ParseTable(PutTable(points, t), z) == Parsed(Some(points), t)
    ensures |PutTable(points, t)| == SizeOfTable(points) + |t|
  {
    hide PutItems, ParseItems, SizeOfAll, PutPoint, ParsePoint;
    assert ItemCodec(PutPoint, ParsePoint, SizeOfPoint) by {
      forall y: Point, u: seq<Byte>
        ensures Codes(PutPoint, ParsePoint, SizeOfPoint, y, u)
      {
        PointCodes(y, u);
      }
    }
    ItemsRoundTrip(points, PutPoint, ParsePoint, SizeOfPoint, t);
    ItemsSize(points, PutPoint, ParsePoint, SizeOfPoint, [BREAK] + t);
    MarkerRoundTrip(MAP_START, PutItems(points, PutPoint, [BREAK] + t));
  }

  /** A missing channel cannot be mistaken for the string that follows it. */
  lemma ChannelRoundTrip(v: Option<U32>, text: Text, t: seq<Byte>)
    ensures ParseOptional(PutOptional(v, PutU32, PutText(text, t)), ParseU32) == Parsed(v, PutText(text, t))
    ensures |PutOptional(v, PutU32, PutText(text, t))| ==
            SizeOfOptional(v, (x: U32) => SizeOfUint(x)) + |PutText(text, t)|
  {
    hide PutText, SizeOfUint;
    TextRoundTrip(text, t);
    if v.Some? { U32RoundTrip(v.value, PutText(text, t)); }
  }

  /** A missing expression cannot be mistaken for the break. */
  lemma ExpressionRoundTrip(v: Option<Text>, t: seq<Byte>)
    ensures var s := PutOptional(v, PutText, [BREAK] + t);
            ParseOptional(s, ParseText) == Parsed(v, [BREAK] + t) && s != [] && s[0] != MAP_START &&
            |s| == SizeOfOptional(v, SizeOfText) + 1 + |t|
  {
    if v.Some? { TextRoundTrip(v.value, [BREAK] + t); }
  }

  /** A missing table cannot be mistaken for what follows it, unless that starts with a map. */
  lemma TableFieldRoundTrip(v: Option<seq<Point>>, t: seq<Byte>, z: Recovery)
    requires t == [] || t[0] != MAP_START
    ensures ParseTable(PutOptional(v, PutTable, t), z) == Parsed(v, t)
    ensures |PutOptional(v, PutTable, t)| == SizeOfOptional(v, SizeOfTable) + |t|
  {
    if v.Some? { TableRoundTrip(v.value, t, z); }
  }

  lemma MetadataRoundTrip(x: Metadata, t: seq<Byte>)
    ensures ParseMetadata(PutMetadata(x, t)) == Some(Parsed(x, t))
    ensures |PutMetadata(x, t)| == SizeOfMetadata(x) + |t|
  {
    hide PutText, ParseText, SizeOfText;
    var t3 := [BREAK] + t;
    var t2 := PutText(x.description, t3);
    var t1 := PutText(x.unit, t2);
    TextRoundTrip(x.name, t1);
    TextRoundTrip(x.unit, t2);
    TextRoundTrip(x.description, t3);
    MarkerRoundTrip(LIST_START, PutText(x.name, t1));
    MarkerRoundTrip(BREAK, t);
  }

  lemma ConfigurationRoundTrip(x: Configuration, t: seq<Byte>, z: Recovery)
    ensures ParseConfiguration(PutConfiguration(x, t), z) == Some(Parsed(x, t))
    ensures |PutConfiguration(x, t)| == SizeOfConfiguration(x) + |t|
  {
    hide PutU32, PutI32, PutText, PutOptional, ParseU32, ParseI32, ParseText, ParseTable, ParseOptional, SizeOfUint,
         SizeOfInt, SizeOfText, SizeOfOptional;
    var t8 := [BREAK] + t;
    var t7 := PutOptional(x.expression, PutText, t8);
    var t6 := PutOptional(x.calibrationTable, PutTable, t7);
    var t5 := PutText(x.scriptPath, t6);
    var t4 := PutText(x.connectionString, t5);
    var t3 := PutOptional(x.channel, PutU32, t4);
    var t2 := PutU32(x.interpolationMethod, t3);
    var t1 := PutI32(x.samplingRateMs, t2);
    U32RoundTrip(x.kind, t1);
    I32RoundTrip(x.samplingRateMs, t2);
    U32RoundTrip(x.interpolationMethod, t3);
    ChannelRoundTrip(x.channel, x.connectionString, t5);
    TextRoundTrip(x.connectionString, t5);
    TextRoundTrip(x.scriptPath, t6);
    ExpressionRoundTrip(x.expression, t);
    TableFieldRoundTrip(x.calibrationTable, t7, z);
    MarkerRoundTrip(LIST_START, PutU32(x.kind, t1));
    MarkerRoundTrip(BREAK, t);
  }

  lemma SensorCodes(x: Sensor, t: seq<Byte>, z: Recovery)
    ensures Codes(PutSensor, SensorParser(z), SizeOfSensor, x, t)
  {
    hide PutText, ParseText, SizeOfText, PutMetadata, ParseMetadata, SizeOfMetadata, PutConfiguration,
         ParseConfiguration, SizeOfConfiguration;
    var t2 := PutConfiguration(x.configuration, [BREAK] + t);
    var t1 := PutMetadata(x.metadata, t2);
    TextRoundTrip(x.id, t1);
    MetadataRoundTrip(x.metadata, t2);
    ConfigurationRoundTrip(x.configuration, [BREAK] + t, z);
    MarkerRoundTrip(LIST_START, PutText(x.id, t1));
    MarkerRoundTrip(BREAK, t);
  }

  /** Any configuration, written before any tail, is read back equal and leaves the tail, and takes
      exactly the computed size. */
  lemma ConfigCodes(x: Config, t: seq<Byte>, z: Recovery)
    ensures ParseConfig(PutConfig(x, t), z) == Some(Parsed(x, t))
    ensures |PutConfig(x, t)| == SizeOfConfig(x) + |t|
  {
    hide PutU32, ParseU32, SizeOfUint, PutItems, ParseItems, SizeOfAll;
    var t1 := PutU32(x.checksum, [BREAK] + t);
    assert ItemCodec(PutSensor, SensorParser(z), SizeOfSensor) by {
      forall y: Sensor, u: seq<Byte>
        ensures Codes(PutSensor, SensorParser(z), SizeOfSensor, y, u)
      {
        SensorCodes(y, u, z);
      }
    }
    U32RoundTrip(x.checksum, [BREAK] + t);
    ItemsRoundTrip(x.sensors, PutSensor, SensorParser(z), SizeOfSensor, t1);
    ItemsSize(x.sensors, PutSensor, SensorParser(z), SizeOfSensor, [BREAK] + t1);
    MarkerRoundTrip(LIST_START, [LIST_START] + PutItems(x.sensors, PutSensor, [BREAK] + t1));
    MarkerRoundTrip(LIST_START, PutItems(x.sensors, PutSensor, [BREAK] + t1));
    MarkerRoundTrip(BREAK, t);
  }

  // ----- what the bytes are -----

  /** The points of a calibration map: keys and values in turn. */
  function Entries(points: seq<Point>): seq<Item> {
    if points == [] then [] else [Single(points[0].key)] + ([Single(points[0].value)] + Entries(points[1..]))
  }

  function Maybe<T>(v: Option<T>, item: T -> Item): seq<Item> {
    if v.None? then [] else [item(v.value)]
  }

  function MetadataItem(x: Metadata): Item {
    Array([Str(x.name), Str(x.unit), Str(x.description)])
  }

  /** Optional fields that are absent leave no trace. */
  function ConfigurationItem(x: Configuration): Item {
    Array([Int(x.kind)] + ([Int(x.samplingRateMs)] + ([Int(x.interpolationMethod)] +
          (Maybe(x.channel, (v: U32) => Int(v)) + ([Str(x.connectionString)] + ([Str(x.scriptPath)] +
          (Maybe(x.calibrationTable, (v: seq<Point>) => Map(Entries(v))) +
          Maybe(x.expression, (v: Text) => Str(v)))))))))
  }

  function SensorItem(x: Sensor): Item {
    Array([Str(x.id), MetadataItem(x.metadata), ConfigurationItem(x.configuration)])
  }

  /** The configuration as a data item: the sensors and the checksum. */
  function ConfigItem(x: Config): Item {
    Array([Array(Items(x.sensors, SensorItem)), Int(x.checksum)])
  }

  lemma {:induction false} EntriesAreWire(points: seq<Point>, t: seq<Byte>)
    ensures AllLegal(Entries(points)) && PutItems(points, PutPoint, t) == WireAll(Entries(points)) + t
    decreases |points|
  {
    hide PutF32, Wire;
    if points == [] {
      Alone(t);
    } else {
      var rest := Entries(points[1..]);
      EntriesAreWire(points[1..], t);
      F32IsWire(points[0].value, WireAll(rest) + t);
      Prepend(Single(points[0].value), rest, t);
      F32IsWire(points[0].key, WireAll([Single(points[0].value)] + rest) + t);
      Prepend(Single(points[0].key), [Single(points[0].value)] + rest, t);
    }
  }

  lemma TableIsWire(points: seq<Point>, t: seq<Byte>)
    ensures Map(Entries(points)).Legal() && PutTable(points, t) == Wire(Map(Entries(points))) + t
  {
    hide PutItems, Wire, WireAll, Entries;
    EntriesAreWire(points, [BREAK] + t);
    MapIsWire(Entries(points), t);
  }

  /** An optional field before others. */
  lemma MaybeIsWire<T(!new)>(v: Option<T>, put: (T, seq<Byte>) -> seq<Byte>, item: T -> Item, items: seq<Item>,
                             t: seq<Byte>)
    requires AllLegal(items) && (v.Some? ==> WritesItem(put, item, v.value, WireAll(items) + t))
    ensures AllLegal(Maybe(v, item) + items)
    ensures PutOptional(v, put, WireAll(items) + t) == WireAll(Maybe(v, item) + items) + t
  {
    if v.Some? {
      Prepend(item(v.value), items, t);
    } else {
      assert [] + items == items;
    }
  }

  lemma MetadataIsWire(x: Metadata, t: seq<Byte>)
    ensures WritesItem(PutMetadata, MetadataItem, x, t)
  {
    hide PutText, Wire, WireAll;
    var e := [BREAK] + t;
    var i3 := [Str(x.description)];
    var i2 := [Str(x.unit)] + i3;
    Alone(e);
    TextIsWire(x.description, e);
    Prepend(Str(x.description), [], e);
    assert [Str(x.description)] + [] == i3;
    TextIsWire(x.unit, WireAll(i3) + e);
    Prepend(Str(x.unit), i3, e);
    TextIsWire(x.name, WireAll(i2) + e);
    Prepend(Str(x.name), i2, e);
    assert MetadataItem(x) == Array([Str(x.name)] + i2);
    ArrayIsWire([Str(x.name)] + i2, t);
  }

  lemma ConfigurationIsWire(x: Configuration, t: seq<Byte>)
    ensures WritesItem(PutConfiguration, ConfigurationItem, x, t)
  {
    hide PutU32, PutI32, PutText, PutTable, PutOptional, Wire, WireAll, Maybe, Entries;
    var e := [BREAK] + t;
    var i8 := Maybe(x.expression, (v: Text) => Str(v));
    var i7 := Maybe(x.calibrationTable, (v: seq<Point>) => Map(Entries(v))) + i8;
    var i6 := [Str(x.scriptPath)] + i7;
    var i5 := [Str(x.connectionString)] + i6;
    var i4 := Maybe(x.channel, (v: U32) => Int(v)) + i5;
    var i3 := [Int(x.interpolationMethod)] + i4;
    var i2 := [Int(x.samplingRateMs)] + i3;
    Alone(e);
    if x.expression.Some? { TextIsWire(x.expression.value, e); }
    MaybeIsWire(x.expression, PutText, (v: Text) => Str(v), [], e);
    assert i8 + [] == i8;
    if x.calibrationTable.Some? { TableIsWire(x.calibrationTable.value, WireAll(i8) + e); }
    MaybeIsWire(x.calibrationTable, PutTable, (v: seq<Point>) => Map(Entries(v)), i8, e);
    TextIsWire(x.scriptPath, WireAll(i7) + e);
    Prepend(Str(x.scriptPath), i7, e);
    TextIsWire(x.connectionString, WireAll(i6) + e);
    Prepend(Str(x.connectionString), i6, e);
    if x.channel.Some? { U32IsWire(x.channel.value, WireAll(i5) + e); }
    MaybeIsWire(x.channel, PutU32, (v: U32) => Int(v), i5, e);
    U32IsWire(x.interpolationMethod, WireAll(i4) + e);
    Prepend(Int(x.interpolationMethod), i4, e);
    I32IsWire(x.samplingRateMs, WireAll(i3) + e);
    Prepend(Int(x.samplingRateMs), i3, e);
    U32IsWire(x.kind, WireAll(i2) + e);
    Prepend(Int(x.kind), i2, e);
    ArrayIsWire([Int(x.kind)] + i2, t);
  }

  lemma SensorIsWire(x: Sensor, t: seq<Byte>)
    ensures WritesItem(PutSensor, SensorItem, x, t)
  {
    hide PutText, PutMetadata, PutConfiguration, Wire, WireAll, MetadataItem, ConfigurationItem;
    var e := [BREAK] + t;
    var i3 := [ConfigurationItem(x.configuration)];
    var i2 := [MetadataItem(x.metadata)] + i3;
    Alone(e);
    ConfigurationIsWire(x.configuration, e);
    Prepend(ConfigurationItem(x.configuration), [], e);
    assert [ConfigurationItem(x.configuration)] + [] == i3;
    MetadataIsWire(x.metadata, WireAll(i3) + e);
    Prepend(MetadataItem(x.metadata), i3, e);
    TextIsWire(x.id, WireAll(i2) + e);
    Prepend(Str(x.id), i2, e);
    assert SensorItem(x) == Array([Str(x.id)] + i2);
    ArrayIsWire([Str(x.id)] + i2, t);
  }

  /** The encoding is the data item of the configuration, byte for byte. */
  lemma ConfigIsWire(x: Config, t: seq<Byte>)
    ensures WritesItem(PutConfig, ConfigItem, x, t)
  {
    hide PutU32, PutItems, PutSensor, Wire, WireAll, Items, SensorItem;
    assert Writes(PutSensor, SensorItem) by {
      forall y: Sensor, u: seq<Byte>
        ensures WritesItem(PutSensor, SensorItem, y, u)
      {
        SensorIsWire(y, u);
      }
    }
    var e := [BREAK] + t;
    var list := Array(Items(x.sensors, SensorItem));
    var i2 := [Int(x.checksum)];
    Alone(e);
    U32IsWire(x.checksum, e);
    Prepend(Int(x.checksum), [], e);
    assert [Int(x.checksum)] + [] == i2;
    ListIsWire(x.sensors, PutSensor, SensorItem, WireAll(i2) + e);
    Prepend(list, i2, e);
    assert ConfigItem(x) == Array([list] + i2);
    ArrayIsWire([list] + i2, t);
  }

  // ----- encoding -----

  method EncodeMetadata(w: Writer, x: Metadata, ghost t: seq<Byte>) returns (ok: bool)
    requires w.Valid()
    modifies w`pos, w.payload
    ensures w.Valid() && (ok <==> old(w.pos) + SizeOfMetadata(x) <= w.payload.Length)
    ensures ok ==> w.pos == old(w.pos) + SizeOfMetadata(x) && w.Written() + t == old(w.Written()) + PutMetadata(x, t)
  {
    hide PutText, SizeOfText;
    ghost var t3 := [BREAK] + t;
    ghost var t2 := PutText(x.description, t3);
    ghost var t1 := PutText(x.unit, t2);
    ok := w.Marker(LIST_START, PutText(x.name, t1));
    if !ok { return; }
    ok := w.Tstr(x.name, t1);
    if !ok { return; }
    ok := w.Tstr(x.unit, t2);
    if !ok { return; }
    ok := w.Tstr(x.description, t3);
    if !ok { return; }
    ok := w.Marker(BREAK, t);
  }

  method EncodePoint(w: Writer, x: Point, ghost t: seq<Byte>) returns (ok: bool)
    requires w.Valid()
    modifies w`pos, w.payload
    ensures w.Valid() && (ok <==> old(w.pos) + SizeOfPoint(x) <= w.payload.Length)
    ensures ok ==> w.pos == old(w.pos) + SizeOfPoint(x) && w.Written() + t == old(w.Written()) + PutPoint(x, t)
  {
    hide PutF32;
    ok := w.Float32(x.key, PutF32(x.value, t));
    if !ok { return; }
    ok := w.Float32(x.value, t);
  }

  /** Refuses fewer than two points. */
  method EncodeTable(w: Writer, points: seq<Point>, ghost t: seq<Byte>) returns (ok: bool)
    requires w.Valid()
    modifies w`pos, w.payload
    ensures w.Valid() && (ok <==> |points| >= 2 && old(w.pos) + SizeOfTable(points) <= w.payload.Length)
    ensures ok ==> w.pos == old(w.pos) + SizeOfTable(points)
    ensures ok ==> w.Written() + t == old(w.Written()) + PutTable(points, t)
  {
    hide SizeOfAll, PutItems, PutPoint, SizeOfPoint;
    ghost var start, all := w.Written(), PutTable(points, t);
    ok := w.Marker(MAP_START, PutItems(points, PutPoint, [BREAK] + t));
    if !ok { return; }
    if |points| < 2 { return false; }
    NothingYet(points, SizeOfPoint);
    var i := 0;
    while i < |points|
      invariant 0 <= i <= |points| && w.Valid()
      invariant w.pos == old(w.pos) + 1 + SizeOfAll(points[..i], SizeOfPoint)
      invariant w.Written() + PutItems(points[i..], PutPoint, [BREAK] + t) == start + all
    {
      NextItem(points, i, PutPoint, [BREAK] + t);
      SizeOfPrefix(points, i, SizeOfPoint);
      ok := EncodePoint(w, points[i], PutItems(points[i + 1..], PutPoint, [BREAK] + t));
      if !ok { return; }
      i := i + 1;
    }
    NothingLeft(points, PutPoint, [BREAK] + t);
    ok := w.Marker(BREAK, t);
  }

  method EncodeChannel(w: Writer, v: Option<U32>, ghost t: seq<Byte>) returns (ok: bool)
    requires w.Valid()
    modifies w`pos, w.payload
    ensures w.Valid() && (ok <==> old(w.pos) + SizeOfOptional(v, (x: U32) => SizeOfUint(x)) <= w.payload.Length)
    ensures ok ==> w.pos == old(w.pos) + SizeOfOptional(v, (x: U32) => SizeOfUint(x))
    ensures ok ==> w.Written() + t == old(w.Written()) + PutOptional(v, PutU32, t)
  {
    hide PutU32, SizeOfUint;
    ok := true;
    if v.Some? {
      ok := w.Uint32(v.value, t);
    }
  }

  method EncodeCalibration(w: Writer, v: Option<seq<Point>>, ghost t: seq<Byte>) returns (ok: bool)
    requires w.Valid()
    modifies w`pos, w.payload
    ensures w.Valid()
    ensures ok <==>
            (v.Some? ==> |v.value| >= 2) && old(w.pos) + SizeOfOptional(v, SizeOfTable) <= w.payload.Length
    ensures ok ==> w.pos == old(w.pos) + SizeOfOptional(v, SizeOfTable)
    ensures ok ==> w.Written() + t == old(w.Written()) + PutOptional(v, PutTable, t)
  {
    hide PutTable, SizeOfTable;
    ok := true;
    if v.Some? {
      ok := EncodeTable(w, v.value, t);
    }
  }

  method EncodeExpression(w: Writer, v: Option<Text>, ghost t: seq<Byte>) returns (ok: bool)
    requires w.Valid()
    modifies w`pos, w.payload
    ensures w.Valid() && (ok <==> old(w.pos) + SizeOfOptional(v, SizeOfText) <= w.payload.Length)
    ensures ok ==> w.pos == old(w.pos) + SizeOfOptional(v, SizeOfText)
    ensures ok ==> w.Written() + t == old(w.Written()) + PutOptional(v, PutText, t)
  {
    hide PutText, SizeOfText;
    ok := true;
    if v.Some? {
      ok := w.Tstr(v.value, t);
    }
  }

  method EncodeConfiguration(w: Writer, x: Configuration, ghost t: seq<Byte>) returns (ok: bool)
    requires w.Valid()
    modifies w`pos, w.payload
    ensures w.Valid()
    ensures ok <==> EncodableConfiguration(x) && old(w.pos) + SizeOfConfiguration(x) <= w.payload.Length
    ensures ok ==> w.pos == old(w.pos) + SizeOfConfiguration(x)
    ensures ok ==> w.Written() + t == old(w.Written()) + PutConfiguration(x, t)
  {
    hide PutU32, PutI32, PutText, PutOptional, SizeOfUint, SizeOfInt, SizeOfText, SizeOfOptional;
    ghost var t8 := [BREAK] + t;
    ghost var t7 := PutOptional(x.expression, PutText, t8);
    ghost var t6 := PutOptional(x.calibrationTable, PutTable, t7);
    ghost var t5 := PutText(x.scriptPath, t6);
    ghost var t4 := PutText(x.connectionString, t5);
    ghost var t3 := PutOptional(x.channel, PutU32, t4);
    ghost var t2 := PutU32(x.interpolationMethod, t3);
    ghost var t1 := PutI32(x.samplingRateMs, t2);
    ok := w.Marker(LIST_START, PutU32(x.kind, t1));
    if !ok { return; }
    ok := w.Uint32(x.kind, t1);
    if !ok { return; }
    ok := w.Int32(x.samplingRateMs, t2);
    if !ok { return; }
    ok := w.Uint32(x.interpolationMethod, t3);
    if !ok { return; }
    ok := EncodeChannel(w, x.channel, t4);
    if !ok { return; }
    ok := w.Tstr(x.connectionString, t5);
    if !ok { return; }
    ok := w.Tstr(x.scriptPath, t6);
    if !ok { return; }
    ok := EncodeCalibration(w, x.calibrationTable, t7);
    if !ok { return; }
    ok := EncodeExpression(w, x.expression, t8);
    if !ok { return; }
    ok := w.Marker(BREAK, t);
  }

  method EncodeSensor(w: Writer, x: Sensor, ghost t: seq<Byte>) returns (ok: bool)
    requires w.Valid()
    modifies w`pos, w.payload
    ensures w.Valid()
    ensures ok <==> EncodableConfiguration(x.configuration) && old(w.pos) + SizeOfSensor(x) <= w.payload.Length
    ensures ok ==> w.pos == old(w.pos) + SizeOfSensor(x) && w.Written() + t == old(w.Written()) + PutSensor(x, t)
  {
    hide PutText, SizeOfText, PutMetadata, SizeOfMetadata, PutConfiguration, SizeOfConfiguration,
         EncodableConfiguration;
    ghost var t3 := [BREAK] + t;
    ghost var t2 := PutConfiguration(x.configuration, t3);
    ghost var t1 := PutMetadata(x.metadata, t2);
    ok := w.Marker(LIST_START, PutText(x.id, t1));
    if !ok { return; }
    ok := w.Tstr(x.id, t1);
    if !ok { return; }
    ok := EncodeMetadata(w, x.metadata, t2);
    if !ok { return; }
    ok := EncodeConfiguration(w, x.configuration, t3);
    if !ok { return; }
    ok := w.Marker(BREAK, t);
  }

  method EncodeSensors(w: Writer, items: seq<Sensor>, ghost t: seq<Byte>) returns (ok: bool)
    requires w.Valid()
    modifies w`pos, w.payload
    ensures w.Valid()
    ensures ok <==> EncodableAll(items) && old(w.pos) + 2 + SizeOfAll(items, SizeOfSensor) <= w.payload.Length
    ensures ok ==> w.pos == old(w.pos) + 2 + SizeOfAll(items, SizeOfSensor)
    ensures ok ==> w.Written() + t ==
                   old(w.Written()) + ([LIST_START] + PutItems(items, PutSensor, [BREAK] + t))
  {
    hide SizeOfAll, PutItems, SizeOfSensor, PutSensor, EncodableConfiguration;
    ghost var start, all := w.Written(), [LIST_START] + PutItems(items, PutSensor, [BREAK] + t);
    ok := w.Marker(LIST_START, PutItems(items, PutSensor, [BREAK] + t));
    if !ok { return; }
    NothingYet(items, SizeOfSensor);
    var i := 0;
    while i < |items|
      invariant 0 <= i <= |items| && w.Valid() && EncodableAll(items[..i])
      invariant w.pos == old(w.pos) + 1 + SizeOfAll(items[..i], SizeOfSensor)
      invariant w.Written() + PutItems(items[i..], PutSensor, [BREAK] + t) == start + all
    {
      NextItem(items, i, PutSensor, [BREAK] + t);
      SizeOfPrefix(items, i, SizeOfSensor);
      ok := EncodeSensor(w, items[i], PutItems(items[i + 1..], PutSensor, [BREAK] + t));
      if !ok { return; }
      i := i + 1;
    }
    NothingLeft(items, PutSensor, [BREAK] + t);
    ok := w.Marker(BREAK, t);
  }

  method EncodeConfig(w: Writer, x: Config) returns (ok: bool)
    requires w.Valid()
    modifies w`pos, w.payload
    ensures w.Valid() && (ok <==> EncodableAll(x.sensors) && old(w.pos) + SizeOfConfig(x) <= w.payload.Length)
    ensures ok ==> w.pos == old(w.pos) + SizeOfConfig(x) && w.Written() == old(w.Written()) + PutConfig(x, [])
  {
    hide PutU32, SizeOfUint, PutItems, SizeOfAll, PutSensor, SizeOfSensor, EncodableAll;
    ghost var t2: seq<Byte> := [BREAK] + [];
    ghost var t1 := PutU32(x.checksum, t2);
    ok := w.Marker(LIST_START, [LIST_START] + PutItems(x.sensors, PutSensor, [BREAK] + t1));
    if !ok { return; }
    ok := EncodeSensors(w, x.sensors, t1);
    if !ok { return; }
    ok := w.Uint32(x.checksum, t2);
    if !ok { return; }
    ok := w.Marker(BREAK, []);
    if ok { assert w.Written() + [] == w.Written(); }
  }

  // ----- decoding -----

  method DecodeMetadata(r: Reader) returns (x: Option<Metadata>)
    requires r.Valid()
    modifies r`pos
    ensures r.Valid() && Got(ParseMetadata(old(r.Rest())), x, r.Rest())
  {
    hide ParseText, ParseMarker;
    var s0 := r.Marker(LIST_START);
    if s0.None? { return None; }
    var name := r.Tstr();
    if name.None? { return None; }
    var unit := r.Tstr();
    if unit.None? { return None; }
    var description := r.Tstr();
    if description.None? { return None; }
    var end := r.Marker(BREAK);
    if end.None? { return None; }
    x := Some(Metadata(name.value, unit.value, description.value));
  }

  method DecodePoint(r: Reader) returns (x: Option<Point>)
    requires r.Valid()
    modifies r`pos
    ensures r.Valid() && Got(ParsePoint(old(r.Rest())), x, r.Rest())
  {
    hide ParseF32;
    var key := r.Float32();
    if key.None? { return None; }
    var value := r.Float32();
    if value.None? { return None; }
    x := Some(Point(key.value, value.value));
  }

  /** Absent where no map starts, and where one starts that cannot be read. */
  method DecodeTable(r: Reader, z: Recovery) returns (x: Option<seq<Point>>)
    requires r.Valid()
    modifies r`pos
    ensures r.Valid() && Parsed(x, r.Rest()) == ParseTable(old(r.Rest()), z)
  {
    hide ParseMarker, ParseItems, ParsePoint;
    ghost var s := r.Rest();
    var at := r.pos;
    var start := r.Marker(MAP_START);
    if start.None? { return None; }
    x := DecodePoints(r);
    if x.None? {
      r.Recover(at, z(r.payload[at..]));
    }
  }

  method DecodeConfiguration(r: Reader, z: Recovery) returns (x: Option<Configuration>)
    requires r.Valid()
    modifies r`pos
    ensures r.Valid() && Got(ParseConfiguration(old(r.Rest()), z), x, r.Rest())
  {
    hide ParseU32, ParseI32, ParseText, ParseMarker, ParseTable;
    var s0 := r.Marker(LIST_START);
    if s0.None? { return None; }
    var kind := r.Uint32();
    if kind.None? { return None; }
    var rate := r.Int32();
    if rate.None? { return None; }
    var interpolation := r.Uint32();
    if interpolation.None? { return None; }
    var channel := r.Uint32();
    var connection := r.Tstr();
    if connection.None? { return None; }
    var path := r.Tstr();
    if path.None? { return None; }
    var table := DecodeTable(r, z);
    var expression := r.Tstr();
    var end := r.Marker(BREAK);
    if end.None? { return None; }
    x := Some(Configuration(kind.value, rate.value, interpolation.value, channel, connection.value, path.value,
                            table, expression));
  }

  method DecodeSensor(r: Reader, z: Recovery) returns (x: Option<Sensor>)
    requires r.Valid()
    modifies r`pos
    ensures r.Valid() && Got(ParseSensor(old(r.Rest()), z), x, r.Rest())
  {
    hide ParseText, ParseMarker, ParseMetadata, ParseConfiguration;
    var s0 := r.Marker(LIST_START);
    if s0.None? { return None; }
    var id := r.Tstr();
    if id.None? { return None; }
    var metadata := DecodeMetadata(r);
    if metadata.None? { return None; }
    var configuration := DecodeConfiguration(r, z);
    if configuration.None? { return None; }
    var end := r.Marker(BREAK);
    if end.None? { return None; }
    x := Some(Sensor(id.value, metadata.value, configuration.value));
  }

  method DecodeConfig(r: Reader, z: Recovery) returns (x: Option<Config>)
    requires r.Valid()
    modifies r`pos
    ensures r.Valid() && Got(ParseConfig(old(r.Rest()), z), x, r.Rest())
  {
    hide ParseU32, ParseMarker, ParseItems, ParseSensor;
    var s0 := r.Marker(LIST_START);
    if s0.None? { return None; }
    var s1 := r.Marker(LIST_START);
    if s1.None? { return None; }
    var sensors := DecodeSensors(r, z);
    if sensors.None? { return None; }
    var checksum := r.Uint32();
    if checksum.None? { return None; }
    var end := r.Marker(BREAK);
    if end.None? { return None; }
    x := Some(Config(sensors.value, checksum.value));
  }

  /** Reads up to the break, and the break. */
  method DecodePoints(r: Reader) returns (items: Option<seq<Point>>)
    requires r.Valid()
    modifies r`pos
    ensures r.Valid() && Got(ParseItems(old(r.Rest()), ParsePoint), items, r.Rest())
  {
    hide ParseItems, ParsePoint, Reading;
    ghost var start := r.Rest();
    var done: seq<Point> := [];
    ReadingStarts(ParsePoint, start);
    while !r.AtEnd()
      invariant r.Valid() && Reading(ParsePoint, start, done, r.Rest())
      decreases |r.Rest()|
    {
      ghost var s := r.Rest();
      PointShrinks(s);
      ReadingAdvances(ParsePoint, start, done, s);
      var x := DecodePoint(r);
      if x.None? { return None; }
      done := done + [x.value];
    }
    ReadingEnds(ParsePoint, start, done, r.Rest());
    var end := r.Marker(BREAK);
    items := Some(done);
  }

  lemma PointShrinks(s: seq<Byte>)
    ensures Shrinks(ParsePoint(s), s)
  {
    hide ParseF32;
    PrimitivesShrink();
  }

  /** Reads up to the break, and the break. */
  method DecodeSensors(r: Reader, z: Recovery) returns (items: Option<seq<Sensor>>)
    requires r.Valid()
    modifies r`pos
    ensures r.Valid() && Got(ParseItems(old(r.Rest()), SensorParser(z)), items, r.Rest())
  {
    hide ParseItems, ParseSensor, Reading;
    ghost var start := r.Rest();
    var done: seq<Sensor> := [];
    ReadingStarts(SensorParser(z), start);
    while !r.AtEnd()
      invariant r.Valid() && Reading(SensorParser(z), start, done, r.Rest())
      decreases |r.Rest()|
    {
      ghost var s := r.Rest();
      SensorShrinks(s, z);
      ReadingAdvances(SensorParser(z), start, done, s);
      var x := DecodeSensor(r, z);
      if x.None? { return None; }
      done := done + [x.value];
    }
    ReadingEnds(SensorParser(z), start, done, r.Rest());
    var end := r.Marker(BREAK);
    items := Some(done);
  }

  lemma SensorShrinks(s: seq<Byte>, z: Recovery)
    ensures Shrinks(ParseSensor(s, z), s)
  {
    hide ParseText, ParseMetadata, ParseConfiguration;
    PrimitivesShrink();
    forall u: seq<Byte>
      ensures Shrinks(ParseMetadata(u), u) && Shrinks(ParseConfiguration(u, z), u)
    {
      MetadataShrinks(u);
      ConfigurationShrinks(u, z);
    }
  }

  lemma MetadataShrinks(s: seq<Byte>)
    ensures Shrinks(ParseMetadata(s), s)
  {
    hide ParseText;
    PrimitivesShrink();
  }

  lemma ConfigurationShrinks(s: seq<Byte>, z: Recovery)
    ensures Shrinks(ParseConfiguration(s, z), s)
  {
    hide ParseU32, ParseI32, ParseText, ParseItems, ParsePoint;
    PrimitivesShrink();
    forall u: seq<Byte>
      ensures Shrinks(ParseItems(u, ParsePoint), u)
    {
      ItemsShrink(u, ParsePoint);
    }
  }

  // ----- size -----

  method AddConfiguration(b: SizeBuilder, x: Configuration)
    modifies b
    ensures b.size == old(b.size) + SizeOfConfiguration(x)
  {
    b.AddIndefiniteArrayStart();
    b.AddUint(x.kind);
    b.AddInt(x.samplingRateMs);
    b.AddUint(x.interpolationMethod);
    if x.channel.Some? { b.AddUint(x.channel.value); }
    b.AddTstr(x.connectionString);
    b.AddTstr(x.scriptPath);
    if x.calibrationTable.Some? {
      var n := TableSize(x.calibrationTable.value);
      b.AddSize(n);
    }
    if x.expression.Some? { b.AddTstr(x.expression.value); }
  }

  method TableSize(points: seq<Point>) returns (n: nat)
    ensures n == SizeOfTable(points)
  {
    hide SizeOfAll;
    var b := new SizeBuilder();
    b.AddIndefiniteArrayStart();
    NothingYet(points, SizeOfPoint);
    var i := 0;
    while i < |points|
      invariant 0 <= i <= |points| && fresh(b)
      invariant b.size == 2 + SizeOfAll(points[..i], SizeOfPoint)
    {
      SizeOfPrefix(points, i, SizeOfPoint);
      b.AddFloat(points[i].key);
      b.AddFloat(points[i].value);
      i := i + 1;
    }
    assert points[..i] == points;
    n := b.size;
  }

  method AddSensor(b: SizeBuilder, x: Sensor)
    modifies b
    ensures b.size == old(b.size) + SizeOfSensor(x)
  {
    hide SizeOfText, SizeOfConfiguration;
    b.AddIndefiniteArrayStart();
    b.AddTstr(x.id);
    b.AddIndefiniteArrayStart();
    b.AddTstr(x.metadata.name);
    b.AddTstr(x.metadata.unit);
    b.AddTstr(x.metadata.description);
    AddConfiguration(b, x.configuration);
  }

  method GetSize(x: Config) returns (n: nat)
    ensures n == SizeOfConfig(x)
  {
    hide SizeOfAll, SizeOfSensor;
    var b := new SizeBuilder();
    b.AddIndefiniteArrayStart();
    b.AddIndefiniteArrayStart();
    NothingYet(x.sensors, SizeOfSensor);
    var i := 0;
    while i < |x.sensors|
      invariant 0 <= i <= |x.sensors| && fresh(b)
      invariant b.size == 4 + SizeOfAll(x.sensors[..i], SizeOfSensor)
    {
      SizeOfPrefix(x.sensors, i, SizeOfSensor);
      AddSensor(b, x.sensors[i]);
      i := i + 1;
    }
    assert x.sensors[..i] == x.sensors;
    b.AddUint(x.checksum);
    n := b.size;
  }

  // ----- serializing -----

  /** The buffer of the computed size is always enough, and the encoding fills it to the last byte. A
      calibration map of fewer than two points is what makes it fail, with no bytes. */
  method Serialize(x: Config) returns (bytes: seq<Byte>)
    ensures bytes == if EncodableAll(x.sensors) then PutConfig(x, []) else []
    ensures ConfigItem(x).Legal() && bytes == if EncodableAll(x.sensors) then Wire(ConfigItem(x)) else []
  {
    ConfigIsWire(x, []);
    hide PutConfig, SizeOfConfig, Wire, ConfigItem, EncodableAll;
    var n := GetSize(x);
    var buffer := new Byte[n](_ => 0);
    var w := new Writer(buffer);
    var ok := EncodeConfig(w, x);
    if !ok { return []; }
    assert w.pos == n;
    assert [] + PutConfig(x, []) == PutConfig(x, []);
    bytes := buffer[..];
  }

  /** Any stored configuration is read back, from any bytes that begin with its encoding. */
  method Deserialize(bytes: seq<Byte>, z: Recovery) returns (x: Option<Config>, used: nat)
    ensures x == (if ParseConfig(bytes, z).None? then None else Some(ParseConfig(bytes, z).value.value))
    ensures x.Some? ==> used <= |bytes| && bytes[used..] == ParseConfig(bytes, z).value.rest
    ensures forall y: Config, t: seq<Byte> :: bytes == PutConfig(y, t) ==> x == Some(y) && used == SizeOfConfig(y)
  {
    var r := new Reader(bytes);
    x := DecodeConfig(r, z);
    used := r.pos;
    forall y: Config, t: seq<Byte> | bytes == PutConfig(y, t)
      ensures x == Some(y) && used == SizeOfConfig(y)
    {
      ConfigCodes(y, t, z);
    }
  }
}
