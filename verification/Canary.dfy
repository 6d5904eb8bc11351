/** The canary's OTLP request: one gauge point with a run id and a timestamp, and its way back. */
module Canary {
  import opened Schema
  import opened Protobuf
  import opened Utf8

  /** The texts of a request that do not depend on the run. */
  datatype Names = Names(
    serviceKey: string, service: string, environmentKey: string, environment: string,
    scope: string, metric: string, runIdKey: string)

  const CANARY := Names(
    "service.name", "auto-shop-ingest-canary", "deployment.environment", "hml",
    "auto-shop.observability.canary", "auto_shop_new_relic_ingest_canary", "canary.run_id")

  const MAX_REQUEST_BYTES := 2048
  const MAX_FIXED64 := 0xFFFF_FFFF_FFFF_FFFF

  /** 1.0 as a little-endian IEEE 754 double. */
  const ONE: seq<byte> := [0, 0, 0, 0, 0, 0, 0xF0, 0x3F]

  // ---- fixed-width numbers ----

  function ToLittleEndian(n: nat, width: nat): (b: seq<byte>)
    ensures |b| == width
  {
    if width == 0 then [] else [n % 256] + ToLittleEndian(n / 256, width - 1)
  }

  function FromLittleEndian(b: seq<byte>): nat {
    if b == [] then 0 else b[0] + 256 * FromLittleEndian(b[1..])
  }

  function Power256(width: nat): nat {
    if width == 0 then 1 else 256 * Power256(width - 1)
  }

  lemma {:induction false} LittleEndianRoundTrip(n: nat, width: nat)
    requires n < Power256(width)
    ensures FromLittleEndian(ToLittleEndian(n, width)) == n
  {
    if width > 0 {
      LittleEndianRoundTrip(n / 256, width - 1);
      assert ToLittleEndian(n, width)[1..] == ToLittleEndian(n / 256, width - 1);
    }
  }

  // ---- the request ----

  predicate RunIdChar(c: char) {
    'A' <= c <= 'Z' || 'a' <= c <= 'z' || '0' <= c <= '9' || c == '_' || c == '-'
  }

  predicate ValidRunId(s: string) {
    1 <= |s| <= 64 && forall i :: 0 <= i < |s| ==> RunIdChar(s[i])
  }

  function BytesField(number: nat, value: seq<byte>): Field {
    Field(number, 2, value)
  }

  function TextField(number: nat, value: string): Field {
    BytesField(number, EncodeText(value))
  }

  /** Messages of one, two and three fields. */
  function One(f: Field): seq<byte>
    requires Writable(f)
  {
    Encode(f)
  }

  function Two(f: Field, g: Field): seq<byte>
    requires Writable(f) && Writable(g)
  {
    Encode(f) + Encode(g)
  }

  function Three(f: Field, g: Field, h: Field): seq<byte>
    requires Writable(f) && Writable(g) && Writable(h)
  {
    Encode(f) + Encode(g) + Encode(h)
  }

  function KeyValue(key: string, value: string): seq<byte> {
    Two(TextField(1, key), BytesField(2, One(TextField(1, value))))
  }

  function Resource(names: Names): seq<byte> {
    Two(BytesField(1, KeyValue(names.serviceKey, names.service)), BytesField(1, KeyValue(names.environmentKey, names.environment)))
  }

  function DataPoint(names: Names, runId: string, timestamp: nat): seq<byte> {
    Three(Field(3, 1, ToLittleEndian(timestamp, 8)), Field(4, 1, ONE), BytesField(7, KeyValue(names.runIdKey, runId)))
  }

  function Gauge(names: Names, runId: string, timestamp: nat): seq<byte> {
    One(BytesField(1, DataPoint(names, runId, timestamp)))
  }

  function Metric(names: Names, runId: string, timestamp: nat): seq<byte> {
    Two(TextField(1, names.metric), BytesField(5, Gauge(names, runId, timestamp)))
  }

  function ScopeMetrics(names: Names, runId: string, timestamp: nat): seq<byte> {
    Two(BytesField(1, One(TextField(1, names.scope))), BytesField(2, Metric(names, runId, timestamp)))
  }

  function ResourceMetrics(names: Names, runId: string, timestamp: nat): seq<byte> {
    Two(BytesField(1, Resource(names)), BytesField(2, ScopeMetrics(names, runId, timestamp)))
  }

  function Request(names: Names, runId: string, timestamp: nat): seq<byte> {
    One(BytesField(1, ResourceMetrics(names, runId, timestamp)))
  }

  datatype Built = Body(bytes: seq<byte>) | BadRunId | BadTimestamp | OutOfRange | TooLarge

  /** Build the request, or refuse it for one of four reasons. */
  function BuildRequest(names: Names, runId: string, timestamp: int): Built {
    if !ValidRunId(runId) then BadRunId
    else if timestamp <= 0 then BadTimestamp
    else if timestamp > MAX_FIXED64 then OutOfRange
    else if |Request(names, runId, timestamp)| > MAX_REQUEST_BYTES then TooLarge
    else Body(Request(names, runId, timestamp))
  }

  // ---- the size ----

  lemma BytesFieldSize(number: nat, value: seq<byte>)
    requires number <= 15 && |value| < 16384
    ensures |Encode(BytesField(number, value))| <= |value| + 3
  {
    VarintLength(8 * number + 2);
    VarintLength(|value|);
  }

  lemma KeyValueSize(key: string, value: string)
    requires |key| <= 64 && |value| <= 64
    ensures |KeyValue(key, value)| <= 4 * |key| + 4 * |value| + 9
  {
    BytesFieldSize(1, EncodeText(value));
    BytesFieldSize(1, EncodeText(key));
    BytesFieldSize(2, One(TextField(1, value)));
  }

  ghost predicate Short(names: Names) {
    && |names.serviceKey| <= 64 && |names.service| <= 64 && |names.environmentKey| <= 64 && |names.environment| <= 64
    && |names.scope| <= 64 && |names.metric| <= 64 && |names.runIdKey| <= 64
  }

  lemma ResourceSize(names: Names)
    requires Short(names)
    ensures |Resource(names)| <= 4 * (|names.serviceKey| + |names.service| + |names.environmentKey| + |names.environment|) + 24
  {
    KeyValueSize(names.serviceKey, names.service);
    KeyValueSize(names.environmentKey, names.environment);
    BytesFieldSize(1, KeyValue(names.serviceKey, names.service));
    BytesFieldSize(1, KeyValue(names.environmentKey, names.environment));
  }

  lemma MetricSize(names: Names, runId: string, timestamp: nat)
    requires Short(names) && |runId| <= 64
    ensures |Metric(names, runId, timestamp)| <= 4 * (|names.metric| + |names.runIdKey| + |runId|) + 40
  {
    VarintLength(25);
    VarintLength(33);
    KeyValueSize(names.runIdKey, runId);
    BytesFieldSize(7, KeyValue(names.runIdKey, runId));
    BytesFieldSize(1, DataPoint(names, runId, timestamp));
    BytesFieldSize(5, Gauge(names, runId, timestamp));
    BytesFieldSize(1, EncodeText(names.metric));
  }

  lemma RequestSize(names: Names, runId: string, timestamp: nat)
    requires Short(names) && |runId| <= 64
    ensures |Request(names, runId, timestamp)| <=
            4 * (|names.serviceKey| + |names.service| + |names.environmentKey| + |names.environment|
                 + |names.scope| + |names.metric| + |names.runIdKey| + |runId|) + 82
  {
    ResourceSize(names);
    MetricSize(names, runId, timestamp);
    BytesFieldSize(1, EncodeText(names.scope));
    BytesFieldSize(1, One(TextField(1, names.scope)));
    BytesFieldSize(2, Metric(names, runId, timestamp));
    BytesFieldSize(1, Resource(names));
    BytesFieldSize(2, ScopeMetrics(names, runId, timestamp));
    BytesFieldSize(1, ResourceMetrics(names, runId, timestamp));
  }

  /** Names with which every request fits. */
  ghost predicate Compact(names: Names) {
    && Short(names)
    && |names.serviceKey| + |names.service| + |names.environmentKey| + |names.environment|
       + |names.scope| + |names.metric| + |names.runIdKey| <= 400
  }

  lemma CanaryIsCompact()
    ensures Compact(CANARY)
  {
  }

  /** The size error is unreachable: a request is built exactly for a valid run id and a positive 64-bit timestamp. */
  lemma BuildSucceedsIff(names: Names, runId: string, timestamp: int)
    requires Compact(names)
    ensures BuildRequest(names, runId, timestamp).Body? <==> ValidRunId(runId) && 0 < timestamp <= MAX_FIXED64
    ensures BuildRequest(names, runId, timestamp) != TooLarge
  {
    if ValidRunId(runId) && timestamp > 0 { RequestSize(names, runId, timestamp); }
  }

  // ---- the way back ----

  /** The value of the one field with this number, if it has the wire type asked for. */
  function OneField(data: seq<byte>, number: nat, wire: nat): Option<seq<byte>> {
    match ParseFields(data, 0)
    case None => None
    case Some(fs) =>
      var values := ValuesOf(fs, number);
      if |values| == 1 && values[0].0 == wire then Some(values[0].1) else None
  }

  /** Follow a path of length-delimited fields, one of each. */
  function Descend(data: seq<byte>, path: seq<nat>): Option<seq<byte>>
    decreases |path|
  {
    if path == [] then Some(data)
    else
      match OneField(data, path[0], 2)
      case None => None
      case Some(inner) => Descend(inner, path[1..])
  }

  /** What a field contributes to the values of a number. */
  function Hit(f: Field, number: nat): seq<(nat, seq<byte>)> {
    if f.number == number then [(f.wire, f.value)] else []
  }

  lemma ValuesOfNext(fs: seq<Field>, f: Field, number: nat)
    ensures ValuesOf(fs + [f], number) == ValuesOf(fs, number) + Hit(f, number)
  {
  }

  lemma EncodeAllNext(f: Field, fs: seq<Field>)
    requires Writable(f) && forall i :: 0 <= i < |fs| ==> Writable(fs[i])
    ensures EncodeAll([f] + fs) == Encode(f) + EncodeAll(fs)
  {
  }

  lemma OneAsFields(f: Field)
    requires Writable(f)
    ensures EncodeAll([f]) == One(f)
    ensures forall number: nat :: ValuesOf([f], number) == if f.number == number then [(f.wire, f.value)] else []
  {
  }

  lemma TwoAsFields(f: Field, g: Field)
    requires Writable(f) && Writable(g)
    ensures EncodeAll([f, g]) == Two(f, g)
    ensures forall number: nat :: ValuesOf([f, g], number) == ValuesOf([f], number) + ValuesOf([g], number)
  {
    OneAsFields(f);
    OneAsFields(g);
    EncodeAllNext(f, [g]);
    assert [f] + [g] == [f, g];
    forall number: nat { ValuesOfNext([f], g, number); }
  }

  lemma ThreeAsFields(f: Field, g: Field, h: Field)
    requires Writable(f) && Writable(g) && Writable(h)
    ensures EncodeAll([f, g, h]) == Three(f, g, h)
  {
    TwoAsFields(g, h);
    OneAsFields(h);
    EncodeAllNext(f, [g, h]);
    assert [f] + [g, h] == [f, g, h];
  }

  lemma OneReads(f: Field)
    requires Writable(f)
    ensures OneField(One(f), f.number, f.wire) == Some(f.value)
  {
    OneAsFields(f);
    MessageRoundTrip([f]);
  }

  lemma TwoReads(f: Field, g: Field)
    requires Writable(f) && Writable(g) && f.number != g.number
    ensures OneField(Two(f, g), f.number, f.wire) == Some(f.value)
    ensures OneField(Two(f, g), g.number, g.wire) == Some(g.value)
  {
    OneAsFields(f);
    OneAsFields(g);
    TwoAsFields(f, g);
    MessageRoundTrip([f, g]);
  }

  /** A message whose fields carry one value under a number yields that value. */
  lemma OneFieldOf(fs: seq<Field>, number: nat, wire: nat, value: seq<byte>)
    requires forall i :: 0 <= i < |fs| ==> Writable(fs[i])
    requires ValuesOf(fs, number) == [(wire, value)]
    ensures OneField(EncodeAll(fs), number, wire) == Some(value)
  {
    MessageRoundTrip(fs);
  }

  lemma ThreeValues(f: Field, g: Field, h: Field, number: nat)
    ensures ValuesOf([f, g, h], number) == Hit(f, number) + Hit(g, number) + Hit(h, number)
  {
    var none: seq<Field> := [];
    var one := none + [f];
    var two := one + [g];
    ValuesOfNext(none, f, number);
    ValuesOfNext(one, g, number);
    ValuesOfNext(two, h, number);
    assert two + [h] == [f, g, h];
  }

  lemma ThreeReads(f: Field, g: Field, h: Field)
    requires Writable(f) && Writable(g) && Writable(h) && f.number != g.number && f.number != h.number && g.number != h.number
    ensures OneField(Three(f, g, h), f.number, f.wire) == Some(f.value)
    ensures OneField(Three(f, g, h), g.number, g.wire) == Some(g.value)
    ensures OneField(Three(f, g, h), h.number, h.wire) == Some(h.value)
  {
    ThreeAsFields(f, g, h);
    ReadsOf(f, g, h, f);
    ReadsOf(f, g, h, g);
    ReadsOf(f, g, h, h);
  }

  lemma ReadsOf(f: Field, g: Field, h: Field, x: Field)
    requires Writable(f) && Writable(g) && Writable(h) && f.number != g.number && f.number != h.number && g.number != h.number
    requires x == f || x == g || x == h
    ensures OneField(EncodeAll([f, g, h]), x.number, x.wire) == Some(x.value)
  {
    ThreeValues(f, g, h, x.number);
    OneFieldOf([f, g, h], x.number, x.wire, x.value);
  }

  /** The key and the value of a KeyValue message, as text. */
  function KeyValueText(data: seq<byte>): Option<(string, string)> {
    match (OneField(data, 1, 2), Descend(data, [2, 1]))
    case (Some(key), Some(value)) =>
      (match (DecodeText(key), DecodeText(value))
       case (Some(k), Some(v)) => Some((k, v))
       case _ => None)
    case _ => None
  }

  lemma KeyValueRoundTrip(key: string, value: string)
    ensures KeyValueText(KeyValue(key, value)) == Some((key, value))
  {
    TwoReads(TextField(1, key), BytesField(2, One(TextField(1, value))));
    OneReads(TextField(1, value));
    TextRoundTrip(key);
    TextRoundTrip(value);
    assert [2, 1][1..] == [1] && [1][1..] == [];
  }

  lemma DescendStep(data: seq<byte>, inner: seq<byte>, number: nat, rest: seq<nat>)
    requires OneField(data, number, 2) == Some(inner)
    ensures Descend(data, [number] + rest) == Descend(inner, rest)
  {
  }

  /** The path of field numbers from the request to its point. */
  const POINT_PATH: seq<nat> := [1] + ([2] + ([2] + ([5] + ([1] + []))))

  lemma RequestReachesPoint(names: Names, runId: string, timestamp: nat)
    ensures Descend(Request(names, runId, timestamp), POINT_PATH) == Some(DataPoint(names, runId, timestamp))
  {
    OneReads(BytesField(1, ResourceMetrics(names, runId, timestamp)));
    TwoReads(BytesField(1, Resource(names)), BytesField(2, ScopeMetrics(names, runId, timestamp)));
    TwoReads(BytesField(1, One(TextField(1, names.scope))), BytesField(2, Metric(names, runId, timestamp)));
    TwoReads(TextField(1, names.metric), BytesField(5, Gauge(names, runId, timestamp)));
    OneReads(BytesField(1, DataPoint(names, runId, timestamp)));
    DescendStep(Request(names, runId, timestamp), ResourceMetrics(names, runId, timestamp), 1, [2] + ([2] + ([5] + ([1] + []))));
    DescendStep(ResourceMetrics(names, runId, timestamp), ScopeMetrics(names, runId, timestamp), 2, [2] + ([5] + ([1] + [])));
    DescendStep(ScopeMetrics(names, runId, timestamp), Metric(names, runId, timestamp), 2, [5] + ([1] + []));
    DescendStep(Metric(names, runId, timestamp), Gauge(names, runId, timestamp), 5, [1] + []);
    DescendStep(Gauge(names, runId, timestamp), DataPoint(names, runId, timestamp), 1, []);
  }

  /** What the point of a request says: its timestamp, its value and its run id. */
  datatype Point = Point(timestamp: nat, value: seq<byte>, attribute: (string, string))

  function ReadPoint(request: seq<byte>): Option<Point> {
    match Descend(request, POINT_PATH)
    case None => None
    case Some(point) =>
      (match (OneField(point, 3, 1), OneField(point, 4, 1), OneField(point, 7, 2))
       case (Some(time), Some(value), Some(kv)) =>
         (match KeyValueText(kv)
          case Some(text) => Some(Point(FromLittleEndian(time), value, text))
          case None => None)
       case _ => None)
  }

  lemma PointRoundTrip(names: Names, runId: string, timestamp: nat)
    requires timestamp <= MAX_FIXED64
    ensures ReadPoint(Request(names, runId, timestamp)) == Some(Point(timestamp, ONE, (names.runIdKey, runId)))
  {
    RequestReachesPoint(names, runId, timestamp);
    ThreeReads(Field(3, 1, ToLittleEndian(timestamp, 8)), Field(4, 1, ONE), BytesField(7, KeyValue(names.runIdKey, runId)));
    KeyValueRoundTrip(names.runIdKey, runId);
    assert Power256(8) == 0x1_0000_0000_0000_0000;
    LittleEndianRoundTrip(timestamp, 8);
  }

  /** Every request that is built decodes to exactly the run id and the timestamp it was built from. */
  lemma RequestRoundTrip(names: Names, runId: string, timestamp: int)
    requires BuildRequest(names, runId, timestamp).Body?
    ensures ReadPoint(BuildRequest(names, runId, timestamp).bytes) == Some(Point(timestamp, ONE, (names.runIdKey, runId)))
  {
    PointRoundTrip(names, runId, timestamp);
  }

  // ---- all that a request says ----

  /** The texts of key-value messages, in order. */
  function TextsOf(values: seq<(nat, seq<byte>)>): Option<seq<(string, string)>> {
    if values == [] then Some([])
    else
      var n := |values| - 1;
      match (TextsOf(values[..n]), if values[n].0 == 2 then KeyValueText(values[n].1) else None)
      case (Some(before), Some(text)) => Some(before + [text])
      case _ => None
  }

  function ReadPairs(data: seq<byte>, number: nat): Option<seq<(string, string)>> {
    match ParseFields(data, 0)
    case None => None
    case Some(fs) => TextsOf(ValuesOf(fs, number))
  }

  function ReadText(data: seq<byte>, number: nat): Option<string> {
    match OneField(data, number, 2)
    case None => None
    case Some(bytes) => DecodeText(bytes)
  }

  /** The resource's attributes, the scope, the metric and the point of a request. */
  datatype Content = Content(resource: seq<(string, string)>, scope: string, metric: string, point: Point)

  const RESOURCE_PATH: seq<nat> := [1] + ([1] + [])
  const SCOPE_PATH: seq<nat> := [1] + ([2] + ([1] + []))
  const METRIC_PATH: seq<nat> := [1] + ([2] + ([2] + []))

  function ReadAt(request: seq<byte>, path: seq<nat>): seq<byte> {
    var found := Descend(request, path);
    if found.Some? then found.value else []
  }

  function ReadRequest(request: seq<byte>): Option<Content> {
    match (ReadPairs(ReadAt(request, RESOURCE_PATH), 1), ReadText(ReadAt(request, SCOPE_PATH), 1),
           ReadText(ReadAt(request, METRIC_PATH), 1), ReadPoint(request))
    case (Some(resource), Some(scope), Some(metric), Some(point)) => Some(Content(resource, scope, metric, point))
    case _ => None
  }

  lemma TwoPairsRead(k1: string, v1: string, k2: string, v2: string)
    ensures ReadPairs(Two(BytesField(1, KeyValue(k1, v1)), BytesField(1, KeyValue(k2, v2))), 1) == Some([(k1, v1), (k2, v2)])
  {
    var f, g := BytesField(1, KeyValue(k1, v1)), BytesField(1, KeyValue(k2, v2));
    TwoAsFields(f, g);
    MessageRoundTrip([f, g]);
    TwoValues(f, g);
    KeyValueRoundTrip(k1, v1);
    KeyValueRoundTrip(k2, v2);
    TwoTexts(f.value, g.value, (k1, v1), (k2, v2));
  }

  lemma TwoValues(f: Field, g: Field)
    requires f.number == 1 && g.number == 1
    ensures ValuesOf([f, g], 1) == [(f.wire, f.value), (g.wire, g.value)]
  {
    var none: seq<Field> := [];
    ValuesOfNext(none, f, 1);
    assert none + [f] == [f];
    ValuesOfNext([f], g, 1);
    assert [f] + [g] == [f, g];
  }

  lemma TwoTexts(a: seq<byte>, b: seq<byte>, x: (string, string), y: (string, string))
    requires KeyValueText(a) == Some(x) && KeyValueText(b) == Some(y)
    ensures TextsOf([(2, a), (2, b)]) == Some([x, y])
  {
    var none: seq<(nat, seq<byte>)> := [];
    TextsNext(none, a, x, []);
    TextsNext(none + [(2, a)], b, y, [] + [x]);
    assert none + [(2, a)] + [(2, b)] == [(2, a), (2, b)] && [] + [x] + [y] == [x, y];
  }

  lemma TextsNext(values: seq<(nat, seq<byte>)>, bytes: seq<byte>, text: (string, string), before: seq<(string, string)>)
    requires TextsOf(values) == Some(before) && KeyValueText(bytes) == Some(text)
    ensures TextsOf(values + [(2, bytes)]) == Some(before + [text])
  {
    assert (values + [(2, bytes)])[..|values|] == values;
  }

  lemma RequestReachesParts(names: Names, runId: string, timestamp: nat)
    ensures Descend(Request(names, runId, timestamp), RESOURCE_PATH) == Some(Resource(names))
    ensures Descend(Request(names, runId, timestamp), SCOPE_PATH) == Some(One(TextField(1, names.scope)))
    ensures Descend(Request(names, runId, timestamp), METRIC_PATH) == Some(Metric(names, runId, timestamp))
  {
    var request, rm, sm := Request(names, runId, timestamp), ResourceMetrics(names, runId, timestamp), ScopeMetrics(names, runId, timestamp);
    OneReads(BytesField(1, rm));
    TwoReads(BytesField(1, Resource(names)), BytesField(2, sm));
    TwoReads(BytesField(1, One(TextField(1, names.scope))), BytesField(2, Metric(names, runId, timestamp)));
    DescendStep(request, rm, 1, [1] + []);
    DescendStep(rm, Resource(names), 1, []);
    DescendStep(request, rm, 1, [2] + ([1] + []));
    DescendStep(request, rm, 1, [2] + ([2] + []));
    DescendStep(rm, sm, 2, [1] + []);
    DescendStep(rm, sm, 2, [2] + []);
    DescendStep(sm, One(TextField(1, names.scope)), 1, []);
    DescendStep(sm, Metric(names, runId, timestamp), 2, []);
  }

  /** Every request that is built says exactly what it was built from: both resource attributes in order, the scope, the
      metric, the timestamp, the value one and the run id. */
  lemma RequestSaysAll(names: Names, runId: string, timestamp: int)
    requires BuildRequest(names, runId, timestamp).Body?
    ensures ReadRequest(BuildRequest(names, runId, timestamp).bytes) ==
            Some(Content([(names.serviceKey, names.service), (names.environmentKey, names.environment)], names.scope, names.metric,
                         Point(timestamp, ONE, (names.runIdKey, runId))))
  {
    AllRead(names, runId, timestamp);
  }

  lemma AllRead(names: Names, runId: string, timestamp: nat)
    requires timestamp <= MAX_FIXED64
    ensures ReadRequest(Request(names, runId, timestamp)) ==
            Some(Content([(names.serviceKey, names.service), (names.environmentKey, names.environment)], names.scope, names.metric,
                         Point(timestamp, ONE, (names.runIdKey, runId))))
  {
    var request := Request(names, runId, timestamp);
    RequestReachesParts(names, runId, timestamp);
    assert ReadAt(request, RESOURCE_PATH) == Resource(names) && ReadAt(request, SCOPE_PATH) == One(TextField(1, names.scope));
    assert ReadAt(request, METRIC_PATH) == Metric(names, runId, timestamp);
    PartsRead(names, runId, timestamp);
    PointRoundTrip(names, runId, timestamp);
  }

  lemma PartsRead(names: Names, runId: string, timestamp: nat)
    ensures ReadPairs(Resource(names), 1) == Some([(names.serviceKey, names.service), (names.environmentKey, names.environment)])
    ensures ReadText(One(TextField(1, names.scope)), 1) == Some(names.scope)
    ensures ReadText(Metric(names, runId, timestamp), 1) == Some(names.metric)
  {
    TwoPairsRead(names.serviceKey, names.service, names.environmentKey, names.environment);
    OneReads(TextField(1, names.scope));
    TextRoundTrip(names.scope);
    TwoReads(TextField(1, names.metric), BytesField(5, Gauge(names, runId, timestamp)));
    TextRoundTrip(names.metric);
  }

  function Delimited(bytes: seq<byte>): seq<byte> {
    Varint(|bytes|) + bytes
  }

  /** The tags of the OTLP metric messages, byte by byte: fields 3, 4 and 7 of the point (fixed, fixed, message), 1 of the
      gauge, 1 and 5 of the metric. */
  lemma MetricTags(names: Names, runId: string, timestamp: nat)
    ensures DataPoint(names, runId, timestamp) ==
            ([25] + ToLittleEndian(timestamp, 8)) + ([33] + ONE) + ([58] + Delimited(KeyValue(names.runIdKey, runId)))
    ensures Gauge(names, runId, timestamp) == [10] + Delimited(DataPoint(names, runId, timestamp))
    ensures Metric(names, runId, timestamp) ==
            [10] + Delimited(EncodeText(names.metric)) + ([42] + Delimited(Gauge(names, runId, timestamp)))
  {
    FixedTag(3, ToLittleEndian(timestamp, 8));
    FixedTag(4, ONE);
    BytesTag(7, KeyValue(names.runIdKey, runId));
    BytesTag(1, DataPoint(names, runId, timestamp));
    BytesTag(1, EncodeText(names.metric));
    BytesTag(5, Gauge(names, runId, timestamp));
  }

  /** Around the metric: fields 1 and 2 of the scope and of the resource, 1 of the request. */
  lemma EnvelopeTags(names: Names, runId: string, timestamp: nat)
    ensures ScopeMetrics(names, runId, timestamp) ==
            [10] + Delimited([10] + Delimited(EncodeText(names.scope))) + ([18] + Delimited(Metric(names, runId, timestamp)))
    ensures ResourceMetrics(names, runId, timestamp) ==
            [10] + Delimited(Resource(names)) + ([18] + Delimited(ScopeMetrics(names, runId, timestamp)))
    ensures Request(names, runId, timestamp) == [10] + Delimited(ResourceMetrics(names, runId, timestamp))
  {
    BytesTag(1, EncodeText(names.scope));
    BytesTag(1, One(TextField(1, names.scope)));
    BytesTag(2, Metric(names, runId, timestamp));
    BytesTag(1, Resource(names));
    BytesTag(2, ScopeMetrics(names, runId, timestamp));
    BytesTag(1, ResourceMetrics(names, runId, timestamp));
  }

  lemma FixedTag(number: nat, value: seq<byte>)
    requires number < 16 && |value| == 8
    ensures Encode(Field(number, 1, value)) == [8 * number + 1] + value
  {
  }

  lemma BytesTag(number: nat, value: seq<byte>)
    requires number < 16
    ensures Encode(BytesField(number, value)) == [8 * number + 2] + Delimited(value)
  {
  }

  /** What a call answers, for texts that fit. */
  lemma BuildAnswers(names: Names, runId: string, timestamp: int)
    requires Compact(names)
    ensures var valid := 1 <= |runId| <= 64 && forall i :: 0 <= i < |runId| ==>
              'A' <= runId[i] <= 'Z' || 'a' <= runId[i] <= 'z' || '0' <= runId[i] <= '9' || runId[i] == '_' || runId[i] == '-';
            BuildRequest(names, runId, timestamp) ==
            if !valid then BadRunId
            else if timestamp <= 0 then BadTimestamp
            else if timestamp >= 0x1_0000_0000_0000_0000 then OutOfRange
            else Body(Request(names, runId, timestamp))
  {
    BuildSucceedsIff(names, runId, timestamp);
  }

  /** Fixed-width numbers start with their lowest byte. */
  lemma LowestByteFirst()
    ensures ToLittleEndian(0x0102_0304, 8) == [4, 3, 2, 1, 0, 0, 0, 0]
  {
  }

  /** The bytes of one are those of a double with sign 0, biased exponent 1023 and fraction 0. */
  lemma OneIsOne()
    ensures FromLittleEndian(ONE) == 1023 * 0x10_0000_0000_0000
  {
    assert ONE[1..][1..][1..][1..][1..][1..] == [0xF0, 0x3F];
  }
}
