/** Extraction and injection of a span context. */
module TracePropagation {
  import opened Bytes
  import opened Outcome
  import opened Utf8
  import opened TraceParent
  import opened TraceState

  datatype SpanContext = SpanContext(traceId: Text, spanId: Text, flags: Byte, remote: bool, traceState: Text)

  /** The identifiers are arrays of fixed size and the state is a string. */
  ghost predicate WellTyped(c: SpanContext) {
    |c.traceId| == 16 && |c.spanId| == 8 && WellFormed(c.traceState)
  }

  /** `is_valid` */
  predicate IsValid(c: SpanContext) { !AllZero(c.traceId) && !AllZero(c.spanId) }

  function ParentOf(c: SpanContext): Parent { Parent(0, c.traceId, c.spanId, c.flags) }

  /** What is extracted from a readable pair of headers. */
  ghost predicate Reads(tp: Text, ts: Text, c: SpanContext) {
    && (exists version :: Laid(tp, Parent(version, c.traceId, c.spanId, c.flags)))
    && c.remote && c.traceState == if IsTracestate(ts) then ts else []
  }

  /** What extraction does: an unusable `traceparent` is reported first, an ill-formed
      `tracestate` is dropped, one that is not even a string is reported. */
  ghost predicate Extracts(tp: Text, ts: Text, r: Result<SpanContext>) {
    if !WellFormed(tp) then r == Failure(InvalidUtf8)
    else if !IsTraceparent(tp) then r == Failure(InvalidArgument)
    else if !WellFormed(ts) then r == Failure(InvalidUtf8)
    else r.Success? && Reads(tp, ts, r.value)
  }

  /** `otel_trace_propagation_extract` */
  method Extract(traceparent: Text, tracestate: Text) returns (r: Result<SpanContext>)
    ensures Extracts(traceparent, tracestate, r)
    ensures !WellFormed(traceparent) ==> r == Failure(InvalidUtf8)
    ensures WellFormed(traceparent) ==> (r == Failure(InvalidArgument) <==> !IsTraceparent(traceparent))
    ensures WellFormed(traceparent) && IsTraceparent(traceparent) ==>
      (r == Failure(InvalidUtf8) <==> !WellFormed(tracestate))
    ensures r.Success? ==> r.value.remote && r.value.traceState == if IsTracestate(tracestate) then tracestate else []
  {
    hide WellFormed, IsTracestate, Laid;
    if !WellFormed(traceparent) {
      return Failure(InvalidUtf8);
    }
    var parent := ParseTraceparent(traceparent);
    if parent.None? {
      return Failure(InvalidArgument);
    }
    if !WellFormed(tracestate) {
      return Failure(InvalidUtf8);
    }
    var valid := ValidateTracestate(tracestate);
    var p := parent.value;
    var owned := if valid then tracestate else [];
    assert Laid(traceparent, Parent(p.version, p.traceId, p.spanId, p.flags));
    r := Success(SpanContext(p.traceId, p.spanId, p.flags, true, owned));
  }

  /** Two headers determine the result. */
  lemma ExtractsOnce(tp: Text, ts: Text, r: Result<SpanContext>, q: Result<SpanContext>)
    requires Extracts(tp, ts, r) && Extracts(tp, ts, q)
    ensures r == q
  {
    hide Laid, IsTracestate, WellFormed, IsTraceparent;
    if WellFormed(tp) && IsTraceparent(tp) && WellFormed(ts) {
      var v :| Laid(tp, Parent(v, r.value.traceId, r.value.spanId, r.value.flags));
      var w :| Laid(tp, Parent(w, q.value.traceId, q.value.spanId, q.value.flags));
      LaidOnce(tp, Parent(v, r.value.traceId, r.value.spanId, r.value.flags),
        Parent(w, q.value.traceId, q.value.spanId, q.value.flags));
    }
  }

  // ----- injection -----

  function RenderedParent(c: SpanContext): Text { Frame(ParentOf(c)) }

  /** What an injector reports: whether it succeeded, and the length it stored, if any. */
  datatype Report = Report(ok: bool, outLen: Option<nat>)

  /** A buffer after an injector has run: filled from the front, or untouched. */
  function Filled(rendered: Text, before: Text, ok: bool): Text {
    if ok && |rendered| <= |before| then rendered + before[|rendered|..] else before
  }

  /** The shared tail of the injectors: report the length; without a buffer that is all; copy
      when the capacity suffices. */
  method CopyOut(rendered: Text, buffer: array?<Byte>) returns (report: Report)
    modifies if buffer == null then {} else {buffer}
    ensures report == Report(buffer == null || |rendered| <= buffer.Length, Some(|rendered|))
    ensures buffer != null ==> buffer[..] == Filled(rendered, old(buffer[..]), report.ok)
    ensures buffer != null && |rendered| <= buffer.Length ==>
      buffer[..|rendered|] == rendered && buffer[|rendered|..] == old(buffer[|rendered|..])
    ensures buffer != null && |rendered| > buffer.Length ==> buffer[..] == old(buffer[..])
  {
    if buffer == null {
      return Report(true, Some(|rendered|));
    }
    if buffer.Length < |rendered| {
      return Report(false, Some(|rendered|));
    }
    for i := 0 to |rendered|
      invariant buffer[..i] == rendered[..i]
      invariant buffer[i..] == old(buffer[..])[i..]
    {
      buffer[i] := rendered[i];
    }
    report := Report(true, Some(|rendered|));
  }

  /** `otel_trace_propagation_inject_traceparent` */
  method InjectTraceparent(c: SpanContext, buffer: array?<Byte>) returns (report: Report)
    requires WellTyped(c)
    modifies if buffer == null then {} else {buffer}
    ensures report ==
      if IsValid(c) then Report(buffer == null || TRACEPARENT_LEN <= buffer.Length, Some(TRACEPARENT_LEN))
      else Report(false, None)
    ensures buffer != null ==> buffer[..] == Filled(RenderedParent(c), old(buffer[..]), report.ok)
  {
    hide WellFormed;
    if !IsValid(c) {
      return Report(false, None);
    }
    var rendered := RenderTraceparent(c);
    report := CopyOut(rendered, buffer);
  }

  method RenderTraceparent(c: SpanContext) returns (rendered: Text)
    ensures rendered == RenderedParent(c)
  {
    ZeroVersion();
    hide Hex;
    rendered := [0x30, 0x30, DASH];
    rendered := EncodeHex(c.traceId, rendered);
    rendered := rendered + [DASH];
    rendered := EncodeHex(c.spanId, rendered);
    rendered := rendered + [DASH];
    rendered := EncodeHex([c.flags], rendered);
  }

  lemma ZeroVersion()
    ensures Hex([0]) == [0x30, 0x30] && [0x30, 0x30, DASH] == Hex([0]) + [DASH]
  {
  }

  /** `otel_trace_propagation_inject_tracestate` */
  method InjectTracestate(c: SpanContext, buffer: array?<Byte>) returns (report: Report)
    requires WellTyped(c)
    modifies if buffer == null then {} else {buffer}
    ensures report == if IsValid(c) then Report(buffer == null || |c.traceState| <= buffer.Length, Some(|c.traceState|))
                      else Report(false, None)
    ensures buffer != null ==> buffer[..] == Filled(c.traceState, old(buffer[..]), report.ok)
  {
    if !IsValid(c) {
      return Report(false, None);
    }
    report := CopyOut(c.traceState, buffer);
  }

  // ----- injection, then extraction -----

  lemma DigitsAreAscii(bytes: Text)
    ensures Ascii(Hex(bytes))
  {
    forall k | 0 <= k < |Hex(bytes)| ensures Hex(bytes)[k] < 0x80 {
      HexAt(bytes, k / 2);
    }
  }

  lemma FrameIsAscii(p: Parent)
    ensures Ascii(Frame(p))
  {
    DigitsAreAscii([p.version]);
    DigitsAreAscii(p.traceId);
    DigitsAreAscii(p.spanId);
    DigitsAreAscii([p.flags]);
    OneAscii(DASH);
    hide Ascii, Hex;
    var a := Hex([p.version]) + [DASH];
    var b := a + Hex(p.traceId);
    var c := b + [DASH];
    var d := c + Hex(p.spanId);
    var e := d + [DASH];
    AsciiAppend(Hex([p.version]), [DASH]);
    AsciiAppend(a, Hex(p.traceId));
    AsciiAppend(b, [DASH]);
    AsciiAppend(c, Hex(p.spanId));
    AsciiAppend(d, [DASH]);
    AsciiAppend(e, Hex([p.flags]));
  }

  lemma RenderedIsLaid(c: SpanContext)
    requires WellTyped(c) && IsValid(c)
    ensures Laid(RenderedParent(c), ParentOf(c)) && WellFormed(RenderedParent(c))
  {
    FrameIsAscii(ParentOf(c));
    AsciiIsWellFormed(RenderedParent(c));
    hide Hex, WellFormed;
    assert RenderedParent(c)[..TRACEPARENT_LEN] == Frame(ParentOf(c));
  }

  /** A valid context survives: both identifiers and all eight flag bits always, its state
      exactly when it is in the grammar; what comes back is marked remote. */
  lemma ExtractInjected(c: SpanContext, r: Result<SpanContext>)
    requires WellTyped(c) && IsValid(c) && Extracts(RenderedParent(c), c.traceState, r)
    ensures r == Success(c.(remote := true, traceState := if IsTracestate(c.traceState) then c.traceState else []))
    ensures r == Success(c.(remote := true)) <==> IsTracestate(c.traceState)
  {
    RenderedIsLaid(c);
    EmptyIsTracestate();
    hide Laid, IsTracestate, WellFormed, RenderedParent;
    var tp := RenderedParent(c);
    var v :| Laid(tp, Parent(v, r.value.traceId, r.value.spanId, r.value.flags));
    LaidOnce(tp, Parent(v, r.value.traceId, r.value.spanId, r.value.flags), ParentOf(c));
  }

  // ----- extraction, then injection -----

  /** A version-00 header is reproduced byte for byte; of a higher version the known fields
      are, under version 00; an accepted state is reproduced, a rejected one becomes empty. */
  lemma InjectExtracted(tp: Text, ts: Text, r: Result<SpanContext>)
    requires Extracts(tp, ts, r) && r.Success?
    ensures WellTyped(r.value) && IsValid(r.value) && |tp| >= TRACEPARENT_LEN
    ensures RenderedParent(r.value) == [0x30, 0x30] + tp[2..TRACEPARENT_LEN]
    ensures tp[..2] == [0x30, 0x30] ==> RenderedParent(r.value) == tp
    ensures r.value.traceState == if IsTracestate(ts) then ts else []
  {
    hide IsTracestate, Laid, WellFormed, IsTraceparent;
    var c := r.value;
    var v :| Laid(tp, Parent(v, c.traceId, c.spanId, c.flags));
    ZeroVersion();
    EmptyIsUtf8();
    LaidFacts(tp, Parent(v, c.traceId, c.spanId, c.flags));
    var rest := [DASH] + Hex(c.traceId) + [DASH] + Hex(c.spanId) + [DASH] + Hex([c.flags]);
    var head := tp[..TRACEPARENT_LEN];
    hide Hex;
    assert head == Hex([v]) + rest;
    assert head[2..] == rest && tp[2..TRACEPARENT_LEN] == head[2..] && tp[..2] == head[..2] == Hex([v]);
    assert RenderedParent(c) == [0x30, 0x30] + rest;
    if tp[..2] == [0x30, 0x30] {
      HexInjective([v], [0]);
      assert [v][0] == [0][0];
      assert tp[TRACEPARENT_LEN..] == [] && tp == head;
    }
  }

  lemma EmptyIsUtf8()
    ensures WellFormed([])
  {
  }

  lemma LaidFacts(tp: Text, p: Parent)
    requires Laid(tp, p)
    ensures IdsOk(p.traceId, p.spanId) && |tp| >= TRACEPARENT_LEN
    ensures tp[..TRACEPARENT_LEN] == Frame(p) && TailOk(p.version, tp[TRACEPARENT_LEN..])
  {
  }
}
