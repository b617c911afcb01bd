/** The request for one event (sink.go), in the binary mode of the CloudEvents HTTP
    Protocol Binding 1.0.2, and the event its receiver reads. */
module BinaryRequest {
  import opened HeaderValue
  import opened Prelude
  import opened SinkClient
  import Text

  /** canonicalHeaderKey, for an ASCII first letter. */
  function CanonicalHeaderKey(k: string): (h: string)
    ensures |h| == |k| && (k != "" ==> h[1..] == k[1..])
    ensures k != "" && 'a' <= k[0] <= 'z' ==> 'A' <= h[0] <= 'Z' && h[0] as int - 'A' as int == k[0] as int - 'a' as int
    ensures k != "" && !('a' <= k[0] <= 'z') ==> h == k
  {
    if k != "" && 'a' <= k[0] <= 'z' then [(k[0] as int - 32) as char] + k[1..] else k
  }

  function HeaderName(attribute: string): string {
    "Ce-" + CanonicalHeaderKey(attribute)
  }

  /** The header stands for the attribute: names of headers are compared without case. */
  predicate StandsFor(header: string, attribute: string) {
    Text.ToLower(header) == "ce-" + attribute
  }

  function AttributeOf(header: string): string {
    if |header| < 3 then "" else Text.ToLower(header)[3..]
  }

  lemma HeaderNamesAttribute(a: string)
    requires AttributeName(a)
    ensures StandsFor(HeaderName(a), a) && AttributeOf(HeaderName(a)) == a
  {
    var h := HeaderName(a);
    forall i | 0 <= i < |h| ensures Text.ToLower(h)[i] == ("ce-" + a)[i] {
      LowerAt(h, i);
    }
    assert ("ce-" + a)[3..] == a;
  }

  lemma OtherHeader(h: string, a: string)
    requires |h| > 1 && Text.Lower(h[1]) != 'e'
    ensures !StandsFor(h, a)
  {
    LowerAt(h, 1);
    assert ("ce-" + a)[1] == 'e';
  }

  type Headers = map<string, string>

  const CONTENT_TYPE: string := "Content-Type"

  ghost predicate Named(attributes: map<string, string>) {
    forall a | a in attributes :: AttributeName(a)
  }

  /** One header for each attribute, and no other. */
  ghost predicate Carries(headers: Headers, attributes: map<string, string>) {
    && (forall a | a in attributes :: HeaderName(a) in headers && headers[HeaderName(a)] == attributes[a])
    && (forall h | h in headers :: AttributeOf(h) in attributes && h == HeaderName(AttributeOf(h)))
  }

  lemma HeadersDistinct(a: string, b: string)
    requires AttributeName(a) && AttributeName(b) && a != b
    ensures HeaderName(a) != HeaderName(b)
  {
    HeaderNamesAttribute(a);
    HeaderNamesAttribute(b);
  }

  lemma OthersApart(attributes: map<string, string>, a: string)
    requires Named(attributes) && AttributeName(a)
    ensures forall b | b in attributes && b != a :: HeaderName(b) != HeaderName(a)
  {
    forall b | b in attributes && b != a ensures HeaderName(b) != HeaderName(a) {
      HeadersDistinct(a, b);
    }
  }

  lemma CarriesMore(headers: Headers, attributes: map<string, string>, a: string, h: string, v: string)
    requires Carries(headers, attributes) && h == HeaderName(a) && AttributeOf(h) == a
    requires forall b | b in attributes && b != a :: HeaderName(b) != h
    ensures Carries(headers[h := v], attributes[a := v])
  {
  }

  /** Setting one more header changes no other attribute: no two of them share one. */
  lemma CarriesNext(headers: Headers, attributes: map<string, string>, a: string, v: string)
    requires Carries(headers, attributes) && Named(attributes) && AttributeName(a)
    ensures Carries(headers[HeaderName(a) := v], attributes[a := v])
  {
    OthersApart(attributes, a);
    HeaderNamesAttribute(a);
    CarriesMore(headers, attributes, a, HeaderName(a), v);
  }

  datatype Request = Request(headers: Headers, body: string)

  /** The attributes of an event that get a header: there is none for the dataschema. */
  function Required(ev: CloudEvent): map<string, string> {
    map["specversion" := ev.specVersion]["id" := ev.id]["source" := ev.source]["type" := ev.kind]
  }

  function Core(ev: CloudEvent): map<string, string> {
    var timed := if ev.time.Some? then Required(ev)["time" := ev.time.value] else Required(ev);
    if ev.subject != "" then timed["subject" := ev.subject] else timed
  }

  function Attributes(ev: CloudEvent): map<string, string> {
    Core(ev) + ev.extensions
  }

  function ContentType(ev: CloudEvent): string {
    if ev.dataContentType == "" then "application/json" else ev.dataContentType
  }

  ghost predicate CarriesWith(headers: Headers, attributes: map<string, string>, contentType: string) {
    && CONTENT_TYPE in headers && headers[CONTENT_TYPE] == contentType
    && Carries(headers - {CONTENT_TYPE}, attributes) && Named(attributes)
  }

  /** The request has one header for each attribute, the Content-Type, and no other. */
  ghost predicate Encodes(req: Request, ev: CloudEvent) {
    CarriesWith(req.headers, Attributes(ev), ContentType(ev)) && req.body == ev.data
  }

  /** A literal of the code is the header of this attribute. */
  predicate IsHeaderOf(h: string, a: string) {
    AttributeName(a) && h == HeaderName(a)
  }

  lemma VersionHeader()
    ensures IsHeaderOf("Ce-Specversion", "specversion")
  {
  }

  lemma IdHeader()
    ensures IsHeaderOf("Ce-Id", "id")
  {
  }

  lemma KindHeaders()
    ensures IsHeaderOf("Ce-Source", "source") && IsHeaderOf("Ce-Type", "type")
  {
  }

  lemma OptionalHeaders()
    ensures IsHeaderOf("Ce-Time", "time") && IsHeaderOf("Ce-Subject", "subject")
  {
  }

  method Set(headers: Headers, h: string, v: string, ghost attributes: map<string, string>, ghost a: string)
    returns (after: Headers)
    requires Carries(headers, attributes) && Named(attributes) && IsHeaderOf(h, a)
    ensures after == headers[h := v]
    ensures Carries(after, attributes[a := v]) && Named(attributes[a := v])
  {
    CarriesNext(headers, attributes, a, v);
    after := headers[h := v];
  }

  method SetRequired(ev: CloudEvent) returns (headers: Headers)
    ensures Carries(headers, Required(ev)) && Named(Required(ev))
  {
    VersionHeader();
    IdHeader();
    KindHeaders();
    ghost var attributes: map<string, string> := map[];
    headers := map[];
    headers := Set(headers, "Ce-Specversion", ev.specVersion, attributes, "specversion");
    attributes := attributes["specversion" := ev.specVersion];
    headers := Set(headers, "Ce-Id", ev.id, attributes, "id");
    attributes := attributes["id" := ev.id];
    headers := Set(headers, "Ce-Source", ev.source, attributes, "source");
    attributes := attributes["source" := ev.source];
    headers := Set(headers, "Ce-Type", ev.kind, attributes, "type");
  }

  method SetCore(ev: CloudEvent) returns (headers: Headers)
    ensures Carries(headers, Core(ev)) && Named(Core(ev))
  {
    OptionalHeaders();
    ghost var attributes := Required(ev);
    headers := SetRequired(ev);
    if ev.time.Some? {
      headers := Set(headers, "Ce-Time", ev.time.value, attributes, "time");
      attributes := attributes["time" := ev.time.value];
    }
    if ev.subject != "" {
      headers := Set(headers, "Ce-Subject", ev.subject, attributes, "subject");
    }
  }

  lemma ContentTypeApart(a: string)
    ensures HeaderName(a) != CONTENT_TYPE && !StandsFor(CONTENT_TYPE, a)
  {
    var h: string := CONTENT_TYPE;
    assert h[1] == 'o' && HeaderName(a)[1] == 'e';
    OtherHeader(h, a);
  }

  lemma SetBeside(m: Headers, other: string, h: string, v: string)
    requires h != other
    ensures m[h := v] - {other} == (m - {other})[h := v]
  {
  }

  lemma NextWith(headers: Headers, attributes: map<string, string>, contentType: string, a: string, v: string)
    requires CarriesWith(headers, attributes, contentType) && AttributeName(a)
    ensures CarriesWith(headers[HeaderName(a) := v], attributes[a := v], contentType)
  {
    ContentTypeApart(a);
    SetBeside(headers, CONTENT_TYPE, HeaderName(a), v);
    CarriesNext(headers - {CONTENT_TYPE}, attributes, a, v);
  }

  lemma MergeNext(core: map<string, string>, more: map<string, string>, todo: set<string>, k: string)
    requires k in more && k in todo
    ensures (core + (more - todo))[k := more[k]] == core + (more - (todo - {k}))
  {
  }

  lemma StartWith(headers: Headers, attributes: map<string, string>, contentType: string)
    requires Carries(headers, attributes) && Named(attributes)
    ensures CarriesWith(headers[CONTENT_TYPE := contentType], attributes, contentType)
  {
    if CONTENT_TYPE in headers {
      ContentTypeApart(AttributeOf(CONTENT_TYPE));
    }
    assert headers[CONTENT_TYPE := contentType] - {CONTENT_TYPE} == headers;
  }

  /** The range loop over the extensions, in any order. */
  method SetExtensions(start: Headers, extensions: map<string, string>, ghost core: map<string, string>,
                       ghost contentType: string)
    returns (headers: Headers)
    requires CarriesWith(start, core, contentType) && Named(extensions)
    ensures CarriesWith(headers, core + extensions, contentType)
  {
    headers := start;
    var todo := extensions.Keys;
    assert core + (extensions - todo) == core;
    while todo != {}
      invariant todo <= extensions.Keys
      invariant CarriesWith(headers, core + (extensions - todo), contentType)
    {
      var k :| k in todo;
      NextWith(headers, core + (extensions - todo), contentType, k, extensions[k]);
      MergeNext(core, extensions, todo, k);
      headers := headers[HeaderName(k) := extensions[k]];
      todo := todo - {k};
    }
    assert extensions - todo == extensions;
  }

  /** buildBinaryRequest: one Header.Set after the other. */
  method BuildBinaryRequest(ev: CloudEvent) returns (req: Request)
    ensures Encodes(req, ev)
  {
    var headers := SetCore(ev);
    var contentType := ev.dataContentType;
    if contentType == "" {
      contentType := "application/json";
    }
    StartWith(headers, Core(ev), contentType);
    headers := headers[CONTENT_TYPE := contentType];
    headers := SetExtensions(headers, ev.extensions, Core(ev), contentType);
    req := Request(headers, ev.data);
  }

  /** What the request says, header by header. */
  lemma AttributeHeader(req: Request, ev: CloudEvent, a: string, h: string)
    requires Encodes(req, ev) && a in Attributes(ev) && IsHeaderOf(h, a)
    ensures h in req.headers && req.headers[h] == Attributes(ev)[a]
  {
    assert h in req.headers - {CONTENT_TYPE};
  }

  lemma SentVersionAndId(req: Request, ev: CloudEvent)
    requires Encodes(req, ev)
    ensures "Ce-Specversion" in req.headers && req.headers["Ce-Specversion"] == ev.specVersion
    ensures "Ce-Id" in req.headers && req.headers["Ce-Id"] == ev.id
  {
    CoreAttributes(ev);
    VersionHeader();
    IdHeader();
    AttributeHeader(req, ev, "specversion", "Ce-Specversion");
    AttributeHeader(req, ev, "id", "Ce-Id");
  }

  lemma SentSourceAndType(req: Request, ev: CloudEvent)
    requires Encodes(req, ev)
    ensures "Ce-Source" in req.headers && req.headers["Ce-Source"] == ev.source
    ensures "Ce-Type" in req.headers && req.headers["Ce-Type"] == ev.kind
  {
    CoreAttributes(ev);
    KindHeaders();
    AttributeHeader(req, ev, "source", "Ce-Source");
    AttributeHeader(req, ev, "type", "Ce-Type");
  }

  lemma SentTimeAndSubject(req: Request, ev: CloudEvent)
    requires Encodes(req, ev)
    ensures ev.time.Some? ==> "Ce-Time" in req.headers && req.headers["Ce-Time"] == ev.time.value
    ensures ev.subject != "" ==> "Ce-Subject" in req.headers && req.headers["Ce-Subject"] == ev.subject
  {
    CoreAttributes(ev);
    OptionalHeaders();
    if ev.time.Some? {
      AttributeHeader(req, ev, "time", "Ce-Time");
    }
    if ev.subject != "" {
      AttributeHeader(req, ev, "subject", "Ce-Subject");
    }
  }

  lemma SentContent(req: Request, ev: CloudEvent)
    requires Encodes(req, ev)
    ensures "Content-Type" in req.headers && req.body == ev.data
    ensures req.headers["Content-Type"] == if ev.dataContentType == "" then "application/json" else ev.dataContentType
  {
  }

  // ---------------------------------------------------------------------------
  // What the sink receives
  // ---------------------------------------------------------------------------

  /** What a receiver reads for an attribute: the value of the header that stands for it. */
  ghost function Field(headers: Headers, a: string): Option<string> {
    if exists h :: h in headers && StandsFor(h, a) then
      var h :| h in headers && StandsFor(h, a);
      Some(ReadValue(headers[h]))
    else None
  }

  lemma StandsForOnly(h: string, a: string)
    requires StandsFor(h, a)
    ensures AttributeOf(h) == a && h != CONTENT_TYPE
  {
    ContentTypeApart(a);
    assert ("ce-" + a)[3..] == a;
  }

  lemma StandsForCarried(headers: Headers, attributes: map<string, string>, h: string, a: string)
    requires Carries(headers - {CONTENT_TYPE}, attributes) && h in headers && StandsFor(h, a)
    ensures a in attributes && h == HeaderName(a) && headers[h] == attributes[a]
  {
    StandsForOnly(h, a);
    assert h in headers - {CONTENT_TYPE};
  }

  lemma FieldCarried(headers: Headers, attributes: map<string, string>, a: string)
    requires Carries(headers - {CONTENT_TYPE}, attributes) && Named(attributes)
    ensures Field(headers, a) == if a in attributes then Some(ReadValue(attributes[a])) else None
  {
    if a in attributes {
      HeaderNamesAttribute(a);
      assert HeaderName(a) in headers - {CONTENT_TYPE};
    }
    if Field(headers, a).Some? {
      var h :| h in headers && StandsFor(h, a) && Field(headers, a) == Some(ReadValue(headers[h]));
      StandsForCarried(headers, attributes, h, a);
    }
  }

  ghost function FieldOr(headers: Headers, a: string): string {
    if Field(headers, a).Some? then Field(headers, a).value else ""
  }

  ghost function ExtensionsOf(headers: Headers): Extensions {
    var names := set h | h in headers :: AttributeOf(h);
    map n: ExtensionName | n in names && Field(headers, n).Some? :: Field(headers, n).value
  }

  /** The event a receiver reads from a binary-mode request. There is no header for
      the dataschema. */
  ghost function ReadEvent(req: Request): CloudEvent {
    var h := req.headers;
    CloudEvent(FieldOr(h, "specversion"), FieldOr(h, "id"), FieldOr(h, "source"), FieldOr(h, "type"), Field(h, "time"),
               FieldOr(h, "subject"), if CONTENT_TYPE in h then Trim(h[CONTENT_TYPE]) else "", "",
               ExtensionsOf(h), req.body)
  }

  /** The request arrives, unless it has a value no HTTP client sends. */
  ghost function Received(req: Request): Option<CloudEvent> {
    if forall h | h in req.headers :: Sendable(req.headers[h]) then Some(ReadEvent(req)) else None
  }

  lemma SendableHeaders(req: Request, ev: CloudEvent)
    requires Encodes(req, ev)
    ensures (forall h | h in req.headers :: Sendable(req.headers[h])) <==> SendableEvent(ev)
  {
    var attributes, others := Attributes(ev), req.headers - {CONTENT_TYPE};
    if SendableEvent(ev) {
      forall h | h in req.headers ensures Sendable(req.headers[h]) {
        if h != CONTENT_TYPE {
          assert h in others && others[h] == attributes[AttributeOf(h)];
        }
      }
    } else if Sendable(ContentType(ev)) {
      var a :| a in attributes && !Sendable(attributes[a]);
      assert others[HeaderName(a)] == attributes[a];
    }
  }

  ghost predicate SendableEvent(ev: CloudEvent) {
    Sendable(ContentType(ev)) && forall a | a in Attributes(ev) :: Sendable(Attributes(ev)[a])
  }

  /** The core attributes are what the event says, and no extension hides one. */
  lemma CoreAttributes(ev: CloudEvent)
    ensures var all := Attributes(ev);
            && (forall a | a in {"specversion", "id", "source", "type"} :: a in all)
            && all["specversion"] == ev.specVersion && all["id"] == ev.id
            && all["source"] == ev.source && all["type"] == ev.kind
            && ("time" in all <==> ev.time.Some?) && (ev.time.Some? ==> all["time"] == ev.time.value)
            && ("subject" in all <==> ev.subject != "") && (ev.subject != "" ==> all["subject"] == ev.subject)
  {
    forall a | a in CORE ensures a !in ev.extensions {
    }
  }

  lemma ExtensionAttributes(ev: CloudEvent, n: ExtensionName)
    ensures n in Attributes(ev) <==> n in ev.extensions
    ensures n in ev.extensions ==> Attributes(ev)[n] == ev.extensions[n]
  {
    assert forall a | a in Core(ev) :: a in CORE;
  }

  /** The event as it is read back, attribute by attribute. */
  function Reread(ev: CloudEvent): CloudEvent {
    CloudEvent(ReadValue(ev.specVersion), ReadValue(ev.id), ReadValue(ev.source), ReadValue(ev.kind),
               if ev.time.Some? then Some(ReadValue(ev.time.value)) else None,
               if ev.subject != "" then ReadValue(ev.subject) else "",
               Trim(ContentType(ev)), "", map n | n in ev.extensions :: ReadValue(ev.extensions[n]), ev.data)
  }

  lemma ExtensionField(headers: Headers, n: ExtensionName)
    ensures n in ExtensionsOf(headers) <==> Field(headers, n).Some?
    ensures n in ExtensionsOf(headers) ==> ExtensionsOf(headers)[n] == Field(headers, n).value
  {
    if Field(headers, n).Some? {
      var h :| h in headers && StandsFor(h, n);
      assert ("ce-" + n)[3..] == n == AttributeOf(h);
    }
  }

  lemma ExtensionReread(req: Request, ev: CloudEvent, n: ExtensionName)
    requires Encodes(req, ev)
    ensures Field(req.headers, n) == if n in ev.extensions then Some(ReadValue(ev.extensions[n])) else None
  {
    FieldCarried(req.headers, Attributes(ev), n);
    ExtensionAttributes(ev, n);
  }

  lemma SameExtensions(headers: Headers, wanted: Extensions)
    requires forall n: ExtensionName :: Field(headers, n) == if n in wanted then Some(wanted[n]) else None
    ensures ExtensionsOf(headers) == wanted
  {
    forall n: ExtensionName ensures n in ExtensionsOf(headers) <==> n in wanted {
      ExtensionField(headers, n);
    }
  }

  lemma ExtensionsReread(req: Request, ev: CloudEvent)
    requires Encodes(req, ev)
    ensures ExtensionsOf(req.headers) == Reread(ev).extensions
  {
    forall n: ExtensionName
      ensures Field(req.headers, n) == if n in ev.extensions then Some(ReadValue(ev.extensions[n])) else None
    {
      ExtensionReread(req, ev, n);
    }
    SameExtensions(req.headers, Reread(ev).extensions);
  }

  lemma CoreReread(req: Request, ev: CloudEvent)
    requires Encodes(req, ev)
    ensures ReadEvent(req) == Reread(ev).(extensions := ExtensionsOf(req.headers))
  {
    CoreAttributes(ev);
    var h, all := req.headers, Attributes(ev);
    FieldCarried(h, all, "specversion");
    FieldCarried(h, all, "id");
    FieldCarried(h, all, "source");
    FieldCarried(h, all, "type");
    FieldCarried(h, all, "time");
    FieldCarried(h, all, "subject");
  }

  /** What arrives, of every event: nothing if some value cannot be sent, and else each
      attribute as a receiver reads its value. */
  lemma ReceivedReread(req: Request, ev: CloudEvent)
    requires Encodes(req, ev)
    ensures Received(req) == if SendableEvent(ev) then Some(Reread(ev)) else None
  {
    SendableHeaders(req, ev);
    ExtensionsReread(req, ev);
    CoreReread(req, ev);
  }

  /** An event without a dataschema, all of whose values can be sent and mean themselves. */
  ghost predicate Transparent(ev: CloudEvent) {
    && ev.dataSchema == ""
    && Sendable(ContentType(ev)) && !OuterBlank(ContentType(ev))
    && forall a | a in Attributes(ev) :: Sendable(Attributes(ev)[a]) && Plain(Attributes(ev)[a])
  }

  lemma RereadCore(ev: CloudEvent)
    ensures Reread(ev).(extensions := ev.extensions) == ev.(dataContentType := ContentType(ev)) <==>
            && ev.dataSchema == "" && !OuterBlank(ContentType(ev))
            && Plain(ev.specVersion) && Plain(ev.id) && Plain(ev.source) && Plain(ev.kind)
            && (ev.time.Some? ==> Plain(ev.time.value)) && (ev.subject != "" ==> Plain(ev.subject))
  {
    ReadsBack(ev.specVersion);
    ReadsBack(ev.id);
    ReadsBack(ev.source);
    ReadsBack(ev.kind);
    ReadsBack(ev.subject);
    if ev.time.Some? {
      ReadsBack(ev.time.value);
    }
  }

  lemma RereadExtensions(ev: CloudEvent)
    ensures Reread(ev).extensions == ev.extensions <==> forall n | n in ev.extensions :: Plain(ev.extensions[n])
  {
    forall n | n in ev.extensions ensures Reread(ev).extensions[n] == ev.extensions[n] <==> Plain(ev.extensions[n]) {
      ReadsBack(ev.extensions[n]);
    }
  }

  lemma TransparentParts(ev: CloudEvent)
    ensures Transparent(ev) <==>
              && SendableEvent(ev) && ev.dataSchema == "" && !OuterBlank(ContentType(ev))
              && Plain(ev.specVersion) && Plain(ev.id) && Plain(ev.source) && Plain(ev.kind)
              && (ev.time.Some? ==> Plain(ev.time.value)) && (ev.subject != "" ==> Plain(ev.subject))
              && forall n | n in ev.extensions :: Plain(ev.extensions[n])
  {
    CoreAttributes(ev);
    forall n | n in ev.extensions ensures n in Attributes(ev) && Attributes(ev)[n] == ev.extensions[n] {
      ExtensionAttributes(ev, n);
    }
    forall a | a in Attributes(ev)
      ensures a in ev.extensions || a in {"specversion", "id", "source", "type", "time", "subject"}
    {
    }
  }

  /** The sink reads the event back, with the content type filled in, exactly if the
      event is transparent: it has no dataschema, which the request never carries, and
      no value that cannot be sent, is blank at an end, is a quoted string or has a
      percent escape, because the code sends every value as it is. */
  lemma BinaryRoundTrip(req: Request, ev: CloudEvent)
    requires Encodes(req, ev)
    ensures Received(req) == Some(ev.(dataContentType := ContentType(ev))) <==> Transparent(ev)
  {
    ReceivedReread(req, ev);
    TransparentParts(ev);
    RereadCore(ev);
    RereadExtensions(ev);
  }

  lemma EscapeIsRead()
    ensures ReadValue("%41") == "A"
  {
    var v := "%41";
    assert Trim(v) == v && Unquote(v) == v;
    assert EscapeAt(v, 0) && v[3..] == "";
  }

  /** A subject of "%41" arrives as "A". */
  lemma EscapeIsDecoded(req: Request, ev: CloudEvent)
    requires Encodes(req, ev) && SendableEvent(ev) && ev.subject == "%41"
    ensures Received(req).Some? && Received(req).value.subject == "A"
  {
    ReceivedReread(req, ev);
    EscapeIsRead();
  }

  /** An extension as the sink reads it: the event's own if no override names it, and
      else an override's. */
  ghost predicate ReadOnTop(base: Extensions, overrides: map<string, string>, got: Extensions, n: ExtensionName) {
    && (n in got <==> n in base || exists k :: k in overrides && Names(k, n))
    && (n in got ==>
          || (n in base && got[n] == ReadValue(base[n]) && forall k | k in overrides :: !Names(k, n))
          || (exists k | k in overrides :: Names(k, n) && got[n] == ReadValue(overrides[k])))
  }

  lemma MergedReread(ev: CloudEvent, overrides: map<string, string>, sent: Extensions, n: ExtensionName)
    requires Merged(ev.extensions, overrides, sent)
    ensures ReadOnTop(ev.extensions, overrides, Reread(ev.(extensions := sent)).extensions, n)
  {
  }

  /** What Send transmits is the event with the overrides on top, and nothing else of it
      changed. */
  lemma OverridesReachTheSink(req: Request, ev: CloudEvent, overrides: map<string, string>, order: seq<string>,
                              n: ExtensionName)
    requires RangeOrder(overrides, order)
    requires Encodes(req, ev.(extensions := Applied(ev.extensions, overrides, order)))
    requires Received(req).Some?
    ensures Received(req).value.(extensions := map[]) == Reread(ev).(extensions := map[])
    ensures ReadOnTop(ev.extensions, overrides, Received(req).value.extensions, n)
  {
    var sent := Applied(ev.extensions, overrides, order);
    OverridesOnTop(ev.extensions, overrides, order);
    ReceivedReread(req, ev.(extensions := sent));
    MergedReread(ev, overrides, sent, n);
  }

  /** An override that does not clash is read as it was given exactly if its value means
      itself. */
  lemma OverrideReadAsGiven(req: Request, ev: CloudEvent, overrides: map<string, string>, order: seq<string>,
                            k: string, n: ExtensionName)
    requires RangeOrder(overrides, order)
    requires Encodes(req, ev.(extensions := Applied(ev.extensions, overrides, order)))
    requires Received(req).Some? && ClashFree(overrides) && k in overrides && Names(k, n)
    ensures n in Received(req).value.extensions
    ensures Received(req).value.extensions[n] == overrides[k] <==> Plain(overrides[k])
  {
    OverridesReachTheSink(req, ev, overrides, order, n);
    ReadsBack(overrides[k]);
  }
}
