/** Conversion of one exported batch: records in order, each pointing at its scope's view. */
module LogBatch {
  import opened Bytes
  import opened KeyOrder
  import opened LogValues
  import opened PoolLayout
  import opened LogMeaning
  import opened LogFlattener

  const EXPORT_MAX_RECORDS: nat := 65_536
  const U64_MAX: nat := 0xFFFF_FFFF_FFFF_FFFF

  /** A borrowed scope. Two records share a scope when they hold the same reference. */
  class InstrumentationScope {
    const name: Text
    const version: Option<Text>
    const schemaUrl: Option<Text>
    const attributes: seq<Keyed<Value>>

    constructor (name: Text, version: Option<Text>, schemaUrl: Option<Text>, attributes: seq<Keyed<Value>>) {
      this.name := name;
      this.version := version;
      this.schemaUrl := schemaUrl;
      this.attributes := attributes;
    }
  }

  datatype TraceIds = TraceIds(traceId: Text, spanId: Text, flags: Option<Byte>)

  /** An upstream record; times are nanoseconds from the Unix epoch, negative before it. */
  datatype Record = Record(timestamp: Option<int>, observed: Option<int>, severity: Option<nat>,
                           severityText: Option<Text>, eventName: Option<Text>, target: Option<Text>,
                           body: Option<AnyValue>, attributes: seq<Keyed<AnyValue>>, trace: Option<TraceIds>)

  datatype Resource = Resource(attributes: seq<Keyed<Value>>, schemaUrl: Option<Text>)

  /** The bits of `present_fields`. */
  datatype Fields = Fields(timestamp: bool, observedTimestamp: bool, traceContext: bool, severityText: bool,
                           eventName: bool, target: bool, body: bool)

  /** Pointers into the storage are indices of the vector they address; `None` is NULL. */
  datatype ScopeView = ScopeView(name: Text, version: Text, schemaUrl: Text, attributes: Option<nat>,
                                 attributeCount: nat, valueNodes: Option<nat>, valueNodeCount: nat)

  datatype RecordView = RecordView(present: Fields, timestamp: nat, observed: nat, severity: nat,
                                   severityText: Text, eventName: Text, target: Text, body: LogValue,
                                   attributes: Option<nat>, attributeCount: nat, valueNodes: Option<nat>,
                                   valueNodeCount: nat, trace: TraceIds, scope: Option<nat>)

  datatype Storage = Storage(resourceAttributes: seq<Node>, resourceNodes: seq<Node>, resourceSchemaUrl: Text,
                             scopeAttributes: seq<seq<Node>>, scopeNodes: seq<seq<Node>>,
                             recordAttributes: seq<seq<Node>>, recordNodes: seq<seq<Node>>,
                             scopes: seq<ScopeView>, records: seq<RecordView>)

  // ----- the specification -----

  /** How scope and resource attributes, and record attributes, are given to the flattener. */
  function AttributeSources(attributes: seq<Keyed<Value>>): seq<Keyed<Source>> {
    seq(|attributes|, k requires 0 <= k < |attributes| => Keyed(attributes[k].key, Attribute(attributes[k].value)))
  }

  function AnySources(attributes: seq<Keyed<AnyValue>>): seq<Keyed<Source>> {
    seq(|attributes|, k requires 0 <= k < |attributes| => Keyed(attributes[k].key, Any(attributes[k].value)))
  }

  predicate TextFits(t: Option<Text>) { t.Some? ==> |t.value| <= MAX_STRING_LEN }

  function TextOrEmpty(t: Option<Text>): Text { if t.Some? then t.value else [] }

  predicate TimeFits(t: Option<int>) { t.Some? ==> 0 <= t.value <= U64_MAX }

  function TimeOrZero(t: Option<int>): nat
    requires TimeFits(t)
  {
    if t.Some? then t.value else 0
  }

  /** Limits of scope and resource attributes. */
  predicate AttributesFit(attributes: seq<Keyed<Value>>) {
    && |attributes| <= MAX_ATTRIBUTES && AttributesNodes(attributes) <= MAX_VALUE_NODES
    && forall k :: 0 <= k < |attributes| ==>
      |attributes[k].key| <= MAX_STRING_LEN && AttributeFits(attributes[k].value, MAX_VALUE_DEPTH)
  }

  function AttributesNodes(attributes: seq<Keyed<Value>>): nat {
    if attributes == [] then 0 else AttributeNodes(attributes[0].value) + AttributesNodes(attributes[1..])
  }

  predicate ScopeFits(s: InstrumentationScope) {
    |s.name| <= MAX_STRING_LEN && TextFits(s.version) && TextFits(s.schemaUrl) && AttributesFit(s.attributes)
  }

  predicate HeaderFits(r: Record) {
    && TimeFits(r.timestamp) && TimeFits(r.observed)
    && TextFits(r.severityText) && TextFits(r.eventName) && TextFits(r.target)
  }

  predicate RecordFits(r: Record) {
    && HeaderFits(r)
    && |r.attributes| <= MAX_ATTRIBUTES
    && (forall k :: 0 <= k < |r.attributes| ==>
         |r.attributes[k].key| <= MAX_STRING_LEN && ValueFits(r.attributes[k].value, MAX_VALUE_DEPTH))
    && (r.body.Some? ==> ValueFits(r.body.value, MAX_VALUE_DEPTH))
    && (if r.body.Some? then ValueNodes(r.body.value) else 0) + EntryNodes(r.attributes) <= MAX_VALUE_NODES
  }

  predicate ResourceFits(r: Resource) { AttributesFit(r.attributes) && TextFits(r.schemaUrl) }

  const ZERO8: Text := [0, 0, 0, 0, 0, 0, 0, 0]

  /** The view's header is the record's, and tells absent from empty. */
  ghost predicate IsHeader(v: RecordView, r: Record)
    requires HeaderFits(r)
  {
    && v.present == Fields(r.timestamp.Some?, r.observed.Some?, r.trace.Some?, r.severityText.Some?, r.eventName.Some?,
                           r.target.Some?, r.body.Some?)
    && v.timestamp == TimeOrZero(r.timestamp) && v.observed == TimeOrZero(r.observed)
    && v.severity == (if r.severity.Some? then r.severity.value else 0)
    && v.severityText == TextOrEmpty(r.severityText) && v.eventName == TextOrEmpty(r.eventName)
    && v.target == TextOrEmpty(r.target)
    && IsTrace(v.trace, r.trace)
  }

  ghost predicate IsTrace(t: TraceIds, upstream: Option<TraceIds>) {
    if upstream.None? then t == TraceIds(ZERO8 + ZERO8, ZERO8, Some(0))
    else
      && t.traceId == upstream.value.traceId && t.spanId == upstream.value.spanId
      && t.flags == Some(if upstream.value.flags.Some? then upstream.value.flags.value else 0)
  }

  /** The attributes are shown in order, each under its own key, in the owner's own pool. */
  ghost predicate AttributesShown(attributes: seq<Node>, nodes: seq<Node>, upstream: seq<Keyed<Value>>) {
    && |attributes| == |upstream|
    && forall k :: 0 <= k < |upstream| ==>
      attributes[k].key == upstream[k].key && ShowsAttribute(nodes, attributes[k].value, upstream[k].value)
  }

  /** The same for the body and attributes of a record. */
  ghost predicate RecordShown(body: LogValue, attributes: seq<Node>, nodes: seq<Node>, r: Record) {
    && (if r.body.Some? then Shows(nodes, body, r.body.value) else body == EmptyValue)
    && |attributes| == |r.attributes|
    && forall k :: 0 <= k < |r.attributes| ==>
      attributes[k].key == r.attributes[k].key && Shows(nodes, attributes[k].value, r.attributes[k].value)
  }

  /** The view's header is the record's, its arrays show the record in a breadth-first pool. */
  ghost predicate IsRecordView(v: RecordView, attributes: seq<Node>, nodes: seq<Node>, r: Record)
    requires RecordFits(r)
  {
    && IsHeader(v, r)
    && v.attributeCount == |attributes| && v.valueNodeCount == |nodes|
    && RecordShown(v.body, attributes, nodes, r)
    && IsFlattening(Flattened(v.body, attributes, nodes), r.body, AnySources(r.attributes))
  }

  ghost predicate IsScopeView(v: ScopeView, attributes: seq<Node>, nodes: seq<Node>, s: InstrumentationScope) {
    && v.name == s.name && v.version == TextOrEmpty(s.version) && v.schemaUrl == TextOrEmpty(s.schemaUrl)
    && v.attributeCount == |attributes| && v.valueNodeCount == |nodes|
    && AttributesShown(attributes, nodes, s.attributes)
    && IsFlattening(Flattened(EmptyValue, attributes, nodes), None, AttributeSources(s.attributes))
  }

  ghost function AddScope(known: seq<InstrumentationScope>, s: InstrumentationScope): seq<InstrumentationScope> {
    if s in known then known else known + [s]
  }

  /** The distinct scopes of a batch in the order they first occur. */
  ghost function FirstSeen(batch: seq<(Record, InstrumentationScope)>): seq<InstrumentationScope> {
    if batch == [] then []
    else AddScope(FirstSeen(batch[..|batch| - 1]), batch[|batch| - 1].1)
  }

  lemma {:induction false} FirstSeenIsTheScopes(batch: seq<(Record, InstrumentationScope)>)
    ensures forall j, k :: 0 <= j < k < |FirstSeen(batch)| ==> FirstSeen(batch)[j] != FirstSeen(batch)[k]
    ensures forall i :: 0 <= i < |batch| ==> batch[i].1 in FirstSeen(batch)
    ensures forall s :: s in FirstSeen(batch) ==> exists i :: 0 <= i < |batch| && batch[i].1 == s
  {
    if batch != [] {
      var n := |batch| - 1;
      FirstSeenIsTheScopes(batch[..n]);
      forall i | 0 <= i < |batch| ensures batch[i].1 in FirstSeen(batch) {
        if i < n { assert batch[..n][i] == batch[i]; }
      }
      forall s | s in FirstSeen(batch) ensures exists i :: 0 <= i < |batch| && batch[i].1 == s {
        if s != batch[n].1 {
          var i :| 0 <= i < n && batch[..n][i].1 == s;
          assert batch[i].1 == s;
        }
      }
    }
  }

  /** The whole view of a batch: records in upstream order, one view per distinct scope, every
      pointer at its own vector and every record at the view of its own scope. */
  ghost predicate IsBatchView(st: Storage, batch: seq<(Record, InstrumentationScope)>, resource: Resource)
    requires forall i :: 0 <= i < |batch| ==> RecordFits(batch[i].0)
  {
    && |st.scopes| == |st.scopeAttributes| == |st.scopeNodes| == |FirstSeen(batch)|
    && |st.records| == |st.recordAttributes| == |st.recordNodes| == |batch|
    && (forall k :: 0 <= k < |FirstSeen(batch)| ==>
         && st.scopes[k].attributes == Some(k) && st.scopes[k].valueNodes == Some(k)
         && IsScopeView(st.scopes[k], st.scopeAttributes[k], st.scopeNodes[k], FirstSeen(batch)[k]))
    && (forall i :: 0 <= i < |batch| ==>
         && st.records[i].attributes == Some(i) && st.records[i].valueNodes == Some(i)
         && IsRecordView(st.records[i], st.recordAttributes[i], st.recordNodes[i], batch[i].0)
         && st.records[i].scope.Some? && st.records[i].scope.value < |FirstSeen(batch)|
         && FirstSeen(batch)[st.records[i].scope.value] == batch[i].1)
    && st.resourceSchemaUrl == TextOrEmpty(resource.schemaUrl)
    && AttributesShown(st.resourceAttributes, st.resourceNodes, resource.attributes)
    && IsFlattening(Flattened(EmptyValue, st.resourceAttributes, st.resourceNodes), None,
      AttributeSources(resource.attributes))
  }

  /** Records of one scope share one view, records of different scopes do not. */
  lemma ScopesShared(st: Storage, batch: seq<(Record, InstrumentationScope)>, resource: Resource, i: nat, j: nat)
    requires forall k :: 0 <= k < |batch| ==> RecordFits(batch[k].0)
    requires IsBatchView(st, batch, resource) && i < |batch| && j < |batch|
    ensures st.records[i].scope == st.records[j].scope <==> batch[i].1 == batch[j].1
  {
    hide IsScopeView, IsRecordView, IsFlattening, RecordFits;
    FirstSeenIsTheScopes(batch);
  }

  // ----- the conversion -----

  method TimestampNanos(t: int) returns (r: ConversionResult<nat>)
    ensures r.Converted? <==> 0 <= t <= U64_MAX
    ensures r.Converted? ==> r.value == t
  {
    if t < 0 {
      return Failed("exported log timestamp predates the Unix epoch");
    }
    if t > U64_MAX {
      return Failed("exported log timestamp exceeds the u64 range");
    }
    r := Converted(t);
  }

  method OptionalStringView(t: Option<Text>) returns (r: ConversionResult<Text>)
    ensures r.Converted? <==> TextFits(t)
    ensures r.Converted? <==> t.None? || |t.value| <= MAX_STRING_LEN
    ensures r.Converted? ==> r.value == TextOrEmpty(t) == if t.Some? then t.value else []
  {
    if t.None? {
      return Converted([]);
    }
    if |t.value| > MAX_STRING_LEN {
      return Failed("exported log string exceeds the limit");
    }
    r := Converted(t.value);
  }

  datatype ConvertedRecord = ConvertedRecord(view: RecordView, scopeIndex: nat, attributes: seq<Node>, nodes: seq<Node>)

  method ConvertTimes(record: Record, fields: Fields) returns (r: ConversionResult<(nat, nat)>, present: Fields)
    requires !fields.timestamp && !fields.observedTimestamp
    ensures r.Converted? <==> TimeFits(record.timestamp) && TimeFits(record.observed)
    ensures r.Converted? ==>
      && r.value == (TimeOrZero(record.timestamp), TimeOrZero(record.observed))
      && present == fields.(timestamp := record.timestamp.Some?, observedTimestamp := record.observed.Some?)
  {
    present := fields;
    var timestamp, observed := 0, 0;
    if record.timestamp.Some? {
      var t := TimestampNanos(record.timestamp.value);
      if t.Failed? { return Failed(t.reason), fields; }
      timestamp := t.value;
      present := present.(timestamp := true);
    }
    if record.observed.Some? {
      var t := TimestampNanos(record.observed.value);
      if t.Failed? { return Failed(t.reason), fields; }
      observed := t.value;
      present := present.(observedTimestamp := true);
    }
    r := Converted((timestamp, observed));
  }

  method ConvertTexts(record: Record, fields: Fields) returns (r: ConversionResult<(Text, Text, Text)>, present: Fields)
    requires !fields.severityText && !fields.eventName && !fields.target
    ensures r.Converted? <==> TextFits(record.severityText) && TextFits(record.eventName) && TextFits(record.target)
    ensures r.Converted? ==>
      && r.value == (TextOrEmpty(record.severityText), TextOrEmpty(record.eventName), TextOrEmpty(record.target))
      && present == fields.(severityText := record.severityText.Some?, eventName := record.eventName.Some?,
                            target := record.target.Some?)
  {
    present := fields;
    var severityText := OptionalStringView(record.severityText);
    if severityText.Failed? { return Failed(severityText.reason), fields; }
    if record.severityText.Some? { present := present.(severityText := true); }
    var eventName := OptionalStringView(record.eventName);
    if eventName.Failed? { return Failed(eventName.reason), fields; }
    if record.eventName.Some? { present := present.(eventName := true); }
    var target := OptionalStringView(record.target);
    if target.Failed? { return Failed(target.reason), fields; }
    if record.target.Some? { present := present.(target := true); }
    r := Converted((severityText.value, eventName.value, target.value));
  }

  /** Zeros stand for an absent trace context and for absent flags. */
  method ConvertTrace(trace: Option<TraceIds>) returns (r: TraceIds)
    ensures IsTrace(r, trace)
    ensures trace.Some? ==> r.traceId == trace.value.traceId && r.spanId == trace.value.spanId
    ensures trace.Some? && trace.value.flags.Some? ==> r.flags == trace.value.flags
  {
    r := TraceIds(ZERO8 + ZERO8, ZERO8, Some(0));
    if trace.Some? {
      r := r.(traceId := trace.value.traceId);
      r := r.(spanId := trace.value.spanId);
      r := r.(flags := Some(if trace.value.flags.Some? then trace.value.flags.value else 0));
    }
  }

  /** Times, texts and trace identity, with the presence bits, arrays still empty. */
  method ConvertHeader(record: Record) returns (r: ConversionResult<RecordView>)
    ensures r.Converted? <==> HeaderFits(record)
    ensures r.Converted? ==> IsHeader(r.value, record)
    ensures r.Converted? ==>
      && (r.value.present.timestamp <==> record.timestamp.Some?)
      && (record.timestamp.Some? ==> r.value.timestamp == record.timestamp.value)
      && (r.value.present.observedTimestamp <==> record.observed.Some?)
      && (record.observed.Some? ==> r.value.observed == record.observed.value)
      && (r.value.present.severityText <==> record.severityText.Some?)
      && (record.severityText.Some? ==> r.value.severityText == record.severityText.value)
      && (r.value.present.eventName <==> record.eventName.Some?)
      && (record.eventName.Some? ==> r.value.eventName == record.eventName.value)
      && (r.value.present.target <==> record.target.Some?)
      && (record.target.Some? ==> r.value.target == record.target.value)
      && (record.severity.Some? ==> r.value.severity == record.severity.value)
      && (r.value.present.body <==> record.body.Some?)
      && (r.value.present.traceContext <==> record.trace.Some?)
      && (record.trace.Some? ==> r.value.trace.spanId == record.trace.value.spanId)
  {
    var present := Fields(false, false, false, false, false, false, false);
    var times, texts;
    times, present := ConvertTimes(record, present);
    if times.Failed? { return Failed(times.reason); }
    texts, present := ConvertTexts(record, present);
    if texts.Failed? { return Failed(texts.reason); }
    if record.body.Some? { present := present.(body := true); }
    var trace := ConvertTrace(record.trace);
    hide IsTrace;
    if record.trace.Some? { present := present.(traceContext := true); }
    r := Converted(RecordView(present, times.value.0, times.value.1,
      if record.severity.Some? then record.severity.value else 0,
      texts.value.0, texts.value.1, texts.value.2, EmptyValue, None, 0, None, 0, trace, None));
  }

  /** The list of sources that a record hands to the flattener. */
  method RecordSources(attributes: seq<Keyed<AnyValue>>) returns (sources: seq<Keyed<Source>>)
    ensures sources == AnySources(attributes) && |sources| == |attributes|
    ensures forall k :: 0 <= k < |sources| ==> sources[k] == Keyed(attributes[k].key, Any(attributes[k].value))
  {
    sources := [];
    for n := 0 to |attributes|
      invariant |sources| == n
      invariant forall k :: 0 <= k < n ==> sources[k] == Keyed(attributes[k].key, Any(attributes[k].value))
    {
      sources := sources + [Keyed(attributes[n].key, Any(attributes[n].value))];
    }
  }

  /** The same for a scope or a resource. */
  method OwnerSources(attributes: seq<Keyed<Value>>) returns (sources: seq<Keyed<Source>>)
    ensures sources == AttributeSources(attributes) && |sources| == |attributes|
    ensures forall k :: 0 <= k < |sources| ==> sources[k] == Keyed(attributes[k].key, Attribute(attributes[k].value))
  {
    sources := [];
    for n := 0 to |attributes|
      invariant |sources| == n
      invariant forall k :: 0 <= k < n ==> sources[k] == Keyed(attributes[k].key, Attribute(attributes[k].value))
    {
      sources := sources + [Keyed(attributes[n].key, Attribute(attributes[n].value))];
    }
  }

  method ConvertRecord(record: Record, scopeIndex: nat) returns (r: ConversionResult<ConvertedRecord>)
    ensures r.Converted? <==> RecordFits(record)
    ensures r.Converted? ==>
      && IsRecordView(r.value.view, r.value.attributes, r.value.nodes, record)
      && r.value.scopeIndex == scopeIndex
    ensures r.Converted? ==>
      && (record.body.Some? ==> Shows(r.value.nodes, r.value.view.body, record.body.value))
      && |r.value.attributes| == |record.attributes|
      && forall k :: 0 <= k < |record.attributes| ==>
        && r.value.attributes[k].key == record.attributes[k].key
        && Shows(r.value.nodes, r.value.attributes[k].value, record.attributes[k].value)
  {
    RecordFitsIff(record);
    hide IsFlattening, AnySources, HeaderFits, OwnerFits, Shows, ShowsSource, RecordFits;
    var header := ConvertHeader(record);
    if header.Failed? { return Failed(header.reason); }
    AnySourcesAt(record.attributes);
    var sources := RecordSources(record.attributes);
    var f := FlattenOwner(record.body, sources);
    if f.Failed? { return Failed(f.reason); }
    RecordIsShown(f.value, record);
    var view := header.value.(
      body := f.value.body, attributeCount := |f.value.attributes|, valueNodeCount := |f.value.nodes|);
    r := Converted(ConvertedRecord(view, scopeIndex, f.value.attributes, f.value.nodes));
  }

  lemma RecordIsShown(f: Flattened, record: Record)
    requires |f.attributes| == |record.attributes| == |AnySources(record.attributes)|
    requires if record.body.Some? then Shows(f.nodes, f.body, record.body.value) else f.body == EmptyValue
    requires forall k :: 0 <= k < |record.attributes| ==>
      && f.attributes[k].key == AnySources(record.attributes)[k].key
      && ShowsSource(f.nodes, f.attributes[k].value, AnySources(record.attributes)[k].value)
    ensures RecordShown(f.body, f.attributes, f.nodes, record)
  {
    hide Shows;
  }

  lemma AttributesAreShown(f: Flattened, attributes: seq<Keyed<Value>>)
    requires |f.attributes| == |attributes| == |AttributeSources(attributes)|
    requires forall k :: 0 <= k < |attributes| ==>
      && f.attributes[k].key == AttributeSources(attributes)[k].key
      && ShowsSource(f.nodes, f.attributes[k].value, AttributeSources(attributes)[k].value)
    ensures AttributesShown(f.attributes, f.nodes, attributes)
  {
    hide ShowsAttribute;
  }

  lemma {:induction false} AnyNodes(attributes: seq<Keyed<AnyValue>>)
    ensures AllNodes(AnySources(attributes)) == EntryNodes(attributes)
  {
    hide ValueNodes;
    if attributes != [] {
      AnyNodes(attributes[1..]);
      assert AnySources(attributes)[1..] == AnySources(attributes[1..]);
    }
  }

  lemma {:induction false} AttributeSourceNodes(attributes: seq<Keyed<Value>>)
    ensures AllNodes(AttributeSources(attributes)) == AttributesNodes(attributes)
  {
    hide AttributeNodes;
    if attributes != [] {
      AttributeSourceNodes(attributes[1..]);
      assert AttributeSources(attributes)[1..] == AttributeSources(attributes[1..]);
    }
  }

  lemma RecordFitsIff(record: Record)
    ensures RecordFits(record) <==> HeaderFits(record) && OwnerFits(record.body, AnySources(record.attributes))
  {
    AnyNodes(record.attributes);
    hide ValueFits, ValueNodes, EntryNodes, AllNodes, HeaderFits;
    var sources := AnySources(record.attributes);
    assert forall k :: 0 <= k < |sources| ==>
      && sources[k].key == record.attributes[k].key
      && SourceFits(sources[k].value, MAX_VALUE_DEPTH) == ValueFits(record.attributes[k].value, MAX_VALUE_DEPTH);
  }

  lemma AttributesFitIff(attributes: seq<Keyed<Value>>)
    ensures AttributesFit(attributes) <==> OwnerFits(None, AttributeSources(attributes))
    ensures |AttributeSources(attributes)| == |attributes|
    ensures forall k :: 0 <= k < |attributes| ==> !AttributeSources(attributes)[k].value.Scalar?
  {
    AttributeSourceNodes(attributes);
    hide AttributeFits, AttributesNodes, AllNodes;
    var sources := AttributeSources(attributes);
    assert forall k :: 0 <= k < |sources| ==>
      && sources[k].key == attributes[k].key
      && SourceFits(sources[k].value, MAX_VALUE_DEPTH) == AttributeFits(attributes[k].value, MAX_VALUE_DEPTH);
  }

  lemma AnySourcesAt(attributes: seq<Keyed<AnyValue>>)
    ensures |AnySources(attributes)| == |attributes|
    ensures forall k :: 0 <= k < |attributes| ==> !AnySources(attributes)[k].value.Scalar?
  {
  }

  datatype ConvertedScope = ConvertedScope(view: ScopeView, attributes: seq<Node>, nodes: seq<Node>)

  method ConvertScope(scope: InstrumentationScope) returns (r: ConversionResult<ConvertedScope>)
    ensures r.Converted? <==> ScopeFits(scope)
    ensures r.Converted? ==> IsScopeView(r.value.view, r.value.attributes, r.value.nodes, scope)
    ensures r.Converted? ==>
      && |r.value.attributes| == |scope.attributes|
      && forall k :: 0 <= k < |scope.attributes| ==>
        && r.value.attributes[k].key == scope.attributes[k].key
        && ShowsAttribute(r.value.nodes, r.value.attributes[k].value, scope.attributes[k].value)
  {
    AttributesFitIff(scope.attributes);
    hide AttributesFit, OwnerFits, IsFlattening, ShowsSource, AttributeSources, AttributesShown;
    var sources := OwnerSources(scope.attributes);
    var f := FlattenOwner(None, sources);
    if f.Failed? { return Failed(f.reason); }
    AttributesAreShown(f.value, scope.attributes);
    if |scope.name| > MAX_STRING_LEN {
      return Failed("exported log string exceeds the limit");
    }
    var version := OptionalStringView(scope.version);
    if version.Failed? { return Failed(version.reason); }
    var schemaUrl := OptionalStringView(scope.schemaUrl);
    if schemaUrl.Failed? { return Failed(schemaUrl.reason); }
    r := Converted(ConvertedScope(
      ScopeView(scope.name, version.value, schemaUrl.value, None, |f.value.attributes|, None, |f.value.nodes|),
      f.value.attributes, f.value.nodes));
  }

  /** `iter().position`: where a scope pointer already stands. */
  method Position(keys: seq<InstrumentationScope>, scope: InstrumentationScope) returns (r: Option<nat>)
    ensures r.Some? ==> r.value < |keys| && keys[r.value] == scope
    ensures r.None? ==> scope !in keys
  {
    for i := 0 to |keys|
      invariant scope !in keys[..i]
    {
      if keys[i] == scope { return Some(i); }
    }
    return None;
  }

  /** Interior pointers are taken once every vector has its final length. */
  method PatchScopes(scopes: seq<ScopeView>) returns (r: seq<ScopeView>)
    ensures |r| == |scopes|
    ensures forall k :: 0 <= k < |r| ==> r[k] == scopes[k].(attributes := Some(k), valueNodes := Some(k))
  {
    r := scopes;
    for index := 0 to |scopes|
      invariant |r| == |scopes|
      invariant forall k :: 0 <= k < |r| ==>
        r[k] == if k < index then scopes[k].(attributes := Some(k), valueNodes := Some(k)) else scopes[k]
    {
      r := r[index := r[index].(attributes := Some(index), valueNodes := Some(index))];
    }
  }

  method PatchRecords(records: seq<RecordView>, scopeOf: seq<nat>) returns (r: seq<RecordView>)
    requires |records| == |scopeOf|
    ensures |r| == |records|
    ensures forall k :: 0 <= k < |r| ==>
      r[k] == records[k].(attributes := Some(k), valueNodes := Some(k), scope := Some(scopeOf[k]))
  {
    r := records;
    for index := 0 to |records|
      invariant |r| == |records|
      invariant forall k :: 0 <= k < |r| ==>
        r[k] == if k < index then records[k].(attributes := Some(k), valueNodes := Some(k), scope := Some(scopeOf[k]))
                else records[k]
    {
      r := r[index := r[index].(attributes := Some(index), valueNodes := Some(index), scope := Some(scopeOf[index]))];
    }
  }

  lemma ScopesPatched(scopes: seq<ScopeView>, patched: seq<ScopeView>, attributes: seq<seq<Node>>,
                      nodes: seq<seq<Node>>, keys: seq<InstrumentationScope>)
    requires |scopes| == |patched| == |attributes| == |nodes| == |keys|
    requires forall k :: 0 <= k < |scopes| ==> patched[k] == scopes[k].(attributes := Some(k), valueNodes := Some(k))
    requires forall k :: 0 <= k < |keys| ==> IsScopeView(scopes[k], attributes[k], nodes[k], keys[k])
    ensures forall k :: 0 <= k < |keys| ==> IsScopeView(patched[k], attributes[k], nodes[k], keys[k])
  {
    hide IsFlattening;
  }

  lemma RecordsPatched(records: seq<RecordView>, patched: seq<RecordView>, attributes: seq<seq<Node>>,
                       nodes: seq<seq<Node>>, batch: seq<(Record, InstrumentationScope)>, scopeOf: seq<nat>)
    requires |records| == |patched| == |attributes| == |nodes| == |batch| == |scopeOf|
    requires forall k :: 0 <= k < |records| ==>
      patched[k] == records[k].(attributes := Some(k), valueNodes := Some(k), scope := Some(scopeOf[k]))
    requires forall k :: 0 <= k < |batch| ==>
      RecordFits(batch[k].0) && IsRecordView(records[k], attributes[k], nodes[k], batch[k].0)
    ensures forall k :: 0 <= k < |batch| ==> IsRecordView(patched[k], attributes[k], nodes[k], batch[k].0)
  {
    hide IsFlattening, RecordFits;
  }

  /** The four parallel scope vectors. */
  datatype ScopeTable = ScopeTable(views: seq<ScopeView>, keys: seq<InstrumentationScope>,
                                   attributes: seq<seq<Node>>, nodes: seq<seq<Node>>)

  ghost predicate ScopesOk(t: ScopeTable) {
    && |t.views| == |t.attributes| == |t.nodes| == |t.keys|
    && forall k :: 0 <= k < |t.keys| ==>
      IsScopeView(t.views[k], t.attributes[k], t.nodes[k], t.keys[k]) && ScopeFits(t.keys[k])
  }

  /** Find a scope's index, converting and appending the scope when it is new. */
  method ScopeIndex(t: ScopeTable, scope: InstrumentationScope) returns (r: ConversionResult<nat>, t': ScopeTable)
    requires ScopesOk(t)
    ensures r.Failed? ==> !ScopeFits(scope)
    ensures r.Converted? ==>
      && ScopesOk(t') && t'.keys == AddScope(t.keys, scope) && ScopeFits(scope)
      && t.keys <= t'.keys && r.value < |t'.keys| && t'.keys[r.value] == scope
  {
    hide ScopeFits, IsScopeView;
    var known := Position(t.keys, scope);
    if known.Some? {
      return Converted(known.value), t;
    }
    var converted := ConvertScope(scope);
    if converted.Failed? { return Failed(converted.reason), t; }
    t' := ScopeTable(t.views + [converted.value.view], t.keys + [scope],
                     t.attributes + [converted.value.attributes], t.nodes + [converted.value.nodes]);
    r := Converted(|t'.views| - 1);
  }

  /** The four parallel record vectors. */
  datatype RecordTable = RecordTable(views: seq<RecordView>, scopes: seq<nat>,
                                     attributes: seq<seq<Node>>, nodes: seq<seq<Node>>)

  ghost predicate RecordsOk(t: RecordTable, keys: seq<InstrumentationScope>,
                            batch: seq<(Record, InstrumentationScope)>, n: nat)
    requires n <= |batch|
  {
    && |t.views| == |t.scopes| == |t.attributes| == |t.nodes| == n
    && forall i :: 0 <= i < n ==>
      && RecordFits(batch[i].0) && ScopeFits(batch[i].1)
      && IsRecordView(t.views[i], t.attributes[i], t.nodes[i], batch[i].0)
      && t.scopes[i] < |keys| && keys[t.scopes[i]] == batch[i].1
  }

  /** Convert a record and append it to the four parallel record vectors. */
  method AppendRecord(t: RecordTable, record: Record, scopeIndex: nat, ghost keys: seq<InstrumentationScope>,
                      ghost batch: seq<(Record, InstrumentationScope)>, ghost n: nat)
    returns (r: ConversionResult<()>, t': RecordTable)
    requires n < |batch| && RecordsOk(t, keys, batch, n) && record == batch[n].0
    requires ScopeFits(batch[n].1) && scopeIndex < |keys| && keys[scopeIndex] == batch[n].1
    ensures r.Failed? ==> !RecordFits(record)
    ensures r.Converted? ==> RecordsOk(t', keys, batch, n + 1)
  {
    hide RecordFits, IsRecordView, ScopeFits;
    var converted := ConvertRecord(record, scopeIndex);
    if converted.Failed? { return Failed(converted.reason), t; }
    t' := RecordTable(t.views + [converted.value.view], t.scopes + [converted.value.scopeIndex],
                      t.attributes + [converted.value.attributes], t.nodes + [converted.value.nodes]);
    r := Converted(());
  }

  lemma NoScopes()
    ensures ScopesOk(ScopeTable([], [], [], []))
  {
  }

  lemma KeysGrow(t: RecordTable, keys: seq<InstrumentationScope>, keys': seq<InstrumentationScope>,
                 batch: seq<(Record, InstrumentationScope)>, n: nat)
    requires n <= |batch| && RecordsOk(t, keys, batch, n) && keys <= keys'
    ensures RecordsOk(t, keys', batch, n)
  {
    hide RecordFits, IsRecordView, ScopeFits;
  }

  lemma Assembled(scopes: ScopeTable, records: RecordTable, st: Storage,
                  batch: seq<(Record, InstrumentationScope)>, resource: Resource)
    requires ScopesOk(scopes) && RecordsOk(records, scopes.keys, batch, |batch|) && scopes.keys == FirstSeen(batch)
    requires |st.scopes| == |scopes.views| && forall k :: 0 <= k < |st.scopes| ==>
      st.scopes[k] == scopes.views[k].(attributes := Some(k), valueNodes := Some(k))
    requires |st.records| == |batch| && forall k :: 0 <= k < |st.records| ==>
      st.records[k] == records.views[k].(attributes := Some(k), valueNodes := Some(k), scope := Some(records.scopes[k]))
    requires st.scopeAttributes == scopes.attributes && st.scopeNodes == scopes.nodes
    requires st.recordAttributes == records.attributes && st.recordNodes == records.nodes
    requires st.resourceSchemaUrl == TextOrEmpty(resource.schemaUrl)
    requires IsFlattening(Flattened(EmptyValue, st.resourceAttributes, st.resourceNodes), None,
      AttributeSources(resource.attributes))
    requires AttributesShown(st.resourceAttributes, st.resourceNodes, resource.attributes)
    ensures IsBatchView(st, batch, resource)
  {
    hide RecordFits, IsRecordView, ScopeFits, IsScopeView, IsFlattening, FirstSeen, AttributesShown;
    ScopesPatched(scopes.views, st.scopes, scopes.attributes, scopes.nodes, scopes.keys);
    RecordsPatched(records.views, st.records, records.attributes, records.nodes, batch, records.scopes);
  }

  /** What the view of a batch says of every record, field by field. */
  lemma BatchShown(st: Storage, batch: seq<(Record, InstrumentationScope)>, resource: Resource)
    requires forall i :: 0 <= i < |batch| ==> RecordFits(batch[i].0)
    requires IsBatchView(st, batch, resource)
    ensures |st.records| == |st.recordAttributes| == |st.recordNodes| == |batch|
    ensures forall i :: 0 <= i < |batch| ==> |st.recordAttributes[i]| == |batch[i].0.attributes|
    ensures forall i, k :: 0 <= i < |batch| && 0 <= k < |batch[i].0.attributes| ==>
      && k < |st.recordAttributes[i]|
      && st.recordAttributes[i][k].key == batch[i].0.attributes[k].key
      && Shows(st.recordNodes[i], st.recordAttributes[i][k].value, batch[i].0.attributes[k].value)
    ensures forall i :: 0 <= i < |batch| && batch[i].0.body.Some? ==>
      Shows(st.recordNodes[i], st.records[i].body, batch[i].0.body.value)
    ensures forall i :: 0 <= i < |batch| ==>
      var j := st.records[i].scope;
      && j.Some? && j.value < |st.scopeAttributes| == |st.scopeNodes|
      && AttributesShown(st.scopeAttributes[j.value], st.scopeNodes[j.value], batch[i].1.attributes)
    ensures AttributesShown(st.resourceAttributes, st.resourceNodes, resource.attributes)
  {
    hide RecordFits, Shows, AttributesShown, IsFlattening, IsHeader;
  }

  /** The loop over the batch: scopes found or converted, records converted. */
  method ConvertRecords(batch: seq<(Record, InstrumentationScope)>)
    returns (r: ConversionResult<()>, scopes: ScopeTable, records: RecordTable)
    ensures r.Converted? <==>
      |batch| <= EXPORT_MAX_RECORDS && forall i :: 0 <= i < |batch| ==> RecordFits(batch[i].0) && ScopeFits(batch[i].1)
    ensures r.Converted? ==>
      ScopesOk(scopes) && scopes.keys == FirstSeen(batch) && RecordsOk(records, scopes.keys, batch, |batch|)
  {
    hide RecordFits, ScopeFits, IsFlattening, ScopesOk;
    scopes, records := ScopeTable([], [], [], []), RecordTable([], [], [], []);
    NoScopes();
    for n := 0 to |batch|
      invariant n <= EXPORT_MAX_RECORDS && scopes.keys == FirstSeen(batch[..n])
      invariant ScopesOk(scopes) && RecordsOk(records, scopes.keys, batch, n)
    {
      if n + 1 > EXPORT_MAX_RECORDS {
        return Failed("exported log batch carries too many records"), scopes, records;
      }
      var (record, scope) := batch[n];
      assert batch[..n + 1][..n] == batch[..n];
      ghost var before := scopes.keys;
      var scopeIndex;
      scopeIndex, scopes := ScopeIndex(scopes, scope);
      if scopeIndex.Failed? { return Failed(scopeIndex.reason), scopes, records; }
      KeysGrow(records, before, scopes.keys, batch, n);
      var appended;
      appended, records := AppendRecord(records, record, scopeIndex.value, scopes.keys, batch, n);
      if appended.Failed? { return Failed(appended.reason), scopes, records; }
    }
    assert batch[..|batch|] == batch;
    r := Converted(());
  }

  lemma TablesAligned(scopes: ScopeTable, records: RecordTable, batch: seq<(Record, InstrumentationScope)>)
    requires ScopesOk(scopes) && RecordsOk(records, scopes.keys, batch, |batch|)
    ensures |scopes.views| == |scopes.keys| && |records.views| == |records.scopes| == |batch|
  {
  }

  /** Everything converts or nothing does. */
  method ConvertBatch(batch: seq<(Record, InstrumentationScope)>, resource: Resource)
    returns (r: ConversionResult<Storage>)
    ensures r.Converted? <==>
      && |batch| <= EXPORT_MAX_RECORDS && ResourceFits(resource)
      && forall i :: 0 <= i < |batch| ==> RecordFits(batch[i].0) && ScopeFits(batch[i].1)
    ensures r.Converted? ==> IsBatchView(r.value, batch, resource)
    ensures r.Converted? ==> forall i, k :: 0 <= i < |batch| && 0 <= k < |batch[i].0.attributes| ==>
      && k < |r.value.recordAttributes[i]|
      && r.value.recordAttributes[i][k].key == batch[i].0.attributes[k].key
      && Shows(r.value.recordNodes[i], r.value.recordAttributes[i][k].value, batch[i].0.attributes[k].value)
    ensures r.Converted? ==> forall i :: 0 <= i < |batch| && batch[i].0.body.Some? ==>
      Shows(r.value.recordNodes[i], r.value.records[i].body, batch[i].0.body.value)
    ensures r.Converted? ==> forall i :: 0 <= i < |batch| ==>
      var st, j := r.value, r.value.records[i].scope;
      && j.Some? && j.value < |st.scopeAttributes| == |st.scopeNodes|
      && AttributesShown(st.scopeAttributes[j.value], st.scopeNodes[j.value], batch[i].1.attributes)
    ensures r.Converted? ==>
      AttributesShown(r.value.resourceAttributes, r.value.resourceNodes, resource.attributes)
  {
    AttributesFitIff(resource.attributes);
    hide RecordFits, ScopeFits, IsFlattening, OwnerFits, AttributesFit, IsBatchView, ScopesOk, RecordsOk;
    hide AttributeSources, ShowsSource, AttributesShown, Shows, ShowsAttribute;
    var sources := OwnerSources(resource.attributes);
    var resourceFlattened := FlattenOwner(None, sources);
    if resourceFlattened.Failed? { return Failed(resourceFlattened.reason); }
    AttributesAreShown(resourceFlattened.value, resource.attributes);
    var tables, scopes, records := ConvertRecords(batch);
    if tables.Failed? { return Failed(tables.reason); }
    TablesAligned(scopes, records, batch);
    var schemaUrl := OptionalStringView(resource.schemaUrl);
    if schemaUrl.Failed? { return Failed(schemaUrl.reason); }
    var patchedScopes := PatchScopes(scopes.views);
    var patchedRecords := PatchRecords(records.views, records.scopes);
    var storage := Storage(resourceFlattened.value.attributes, resourceFlattened.value.nodes, schemaUrl.value,
      scopes.attributes, scopes.nodes, records.attributes, records.nodes, patchedScopes, patchedRecords);
    Assembled(scopes, records, storage, batch, resource);
    BatchShown(storage, batch, resource);
    r := Converted(storage);
  }
}
