/**
 * Trace contexts (src/shared/services/tracing.service.ts) and how they travel: over HTTP
 * (src/shared/services/traced-http.service.ts to the interceptor of the next service) and through
 * Bull to the email processor (src/shared/services/queue.service.ts,
 * src/shared/modules/queue/processors/email.processor.ts).
 */
module Tracing {
  import opened Prelude
  import opened Redaction

  type Headers = map<string, string>

  datatype Context = Context(traceId: string, requestId: Option<string>, correlationId: Option<string>)

  /** a || b for strings that may be undefined. */
  function Or(a: Option<string>, b: string): string {
    if a.Some? && a.value != "" then a.value else b
  }

  function Get(headers: Headers, name: string): Option<string> {
    if name in headers then Some(headers[name]) else None
  }

  // ---- contexts and headers ----------------------------------------------------------------

  function CreateContext(traceId: Option<string>, requestId: Option<string>, correlationId: Option<string>,
                         uuid1: string, uuid2: string): Context
  {
    var trace := Or(traceId, uuid1);
    Context(trace, Some(Or(requestId, uuid2)), Some(Or(correlationId, trace)))
  }

  function Entry(name: string, value: Option<string>): Headers {
    if value.Some? && value.value != "" then map[name := value.value] else map[]
  }

  /** One header for each id that is there and not empty. */
  function HeadersOf(context: Option<Context>): Headers {
    match context
    case None => map[]
    case Some(c) => Entry("x-trace-id", Some(c.traceId)) + Entry("x-request-id", c.requestId) + Entry("x-correlation-id", c.correlationId)
  }

  method GetTracingHeaders(context: Option<Context>) returns (headers: Headers)
    ensures headers == HeadersOf(context)
  {
    headers := map[];
    if context.Some? && context.value.traceId != "" {
      headers := headers["x-trace-id" := context.value.traceId];
    }
    if context.Some? && context.value.requestId.Some? && context.value.requestId.value != "" {
      headers := headers["x-request-id" := context.value.requestId.value];
    }
    if context.Some? && context.value.correlationId.Some? && context.value.correlationId.value != "" {
      headers := headers["x-correlation-id" := context.value.correlationId.value];
    }
  }

  function ExtractFromHeaders(headers: Headers, uuid1: string, uuid2: string): Context {
    var trace := Or(Get(headers, "x-trace-id"), uuid1);
    Context(trace, Some(Or(Get(headers, "x-request-id"), uuid2)), Some(Or(Get(headers, "x-correlation-id"), trace)))
  }

  /** What is read from the headers: each id that is there and not empty, a new one, or the trace id for the correlation. */
  lemma HeadersAreRead(headers: Headers, uuid1: string, uuid2: string)
    ensures var c := ExtractFromHeaders(headers, uuid1, uuid2);
            && c.traceId == (if "x-trace-id" in headers && headers["x-trace-id"] != "" then headers["x-trace-id"] else uuid1)
            && c.requestId == Some(if "x-request-id" in headers && headers["x-request-id"] != "" then headers["x-request-id"] else uuid2)
            && c.correlationId == Some(if "x-correlation-id" in headers && headers["x-correlation-id"] != ""
                                       then headers["x-correlation-id"] else c.traceId)
  {}

  /** createContext keeps the ids it is given, and makes up the others; the correlation id is the trace id by default. */
  lemma MissingIdsAreMade(trace: string, request: string, correlation: string, uuid1: string, uuid2: string)
    requires trace != "" && request != "" && correlation != ""
    ensures CreateContext(Some(trace), Some(request), Some(correlation), uuid1, uuid2) == Context(trace, Some(request), Some(correlation))
    ensures CreateContext(Some(trace), Some(request), None, uuid1, uuid2) == Context(trace, Some(request), Some(trace))
    ensures CreateContext(None, None, None, uuid1, uuid2) == Context(uuid1, Some(uuid2), Some(uuid1))
  {}

  /** Three ids, none of them empty. */
  predicate Full(c: Context) {
    && c.traceId != ""
    && c.requestId.Some? && c.requestId.value != ""
    && c.correlationId.Some? && c.correlationId.value != ""
  }

  lemma HeadersLookedUp(c: Context)
    ensures Get(HeadersOf(Some(c)), "x-trace-id") == if c.traceId != "" then Some(c.traceId) else None
    ensures Get(HeadersOf(Some(c)), "x-request-id") == if c.requestId.GetOr("") != "" then c.requestId else None
    ensures Get(HeadersOf(Some(c)), "x-correlation-id") == if c.correlationId.GetOr("") != "" then c.correlationId else None
  {}

  /** Reading the headers back undoes writing them exactly for full contexts. */
  lemma HeadersRoundTripExactlyWhenFull(c: Context, uuid1: string, uuid2: string)
    requires uuid1 != "" && uuid2 != ""
    ensures ExtractFromHeaders(HeadersOf(Some(c)), uuid1, uuid2) == c <==> Full(c)
  {
    HeadersLookedUp(c);
  }

  // ---- hops --------------------------------------------------------------------------------

  /** enrichRequestWithTracing: the tracing headers win over the caller's. */
  function EnrichRequest(configured: Headers, context: Option<Context>): Headers {
    configured + HeadersOf(context)
  }

  /** Only the headers of ids that are there are set; all other headers of the caller stay. */
  lemma OwnHeadersStay(configured: Headers, context: Option<Context>)
    ensures var sent := EnrichRequest(configured, context);
            && (forall h :: h !in {"x-trace-id", "x-request-id", "x-correlation-id"} ==> Get(sent, h) == Get(configured, h))
            && (context.None? ==> sent == configured)
            && (context.Some? ==>
                  var c := context.value;
                  && Get(sent, "x-trace-id") == (if c.traceId != "" then Some(c.traceId) else Get(configured, "x-trace-id"))
                  && Get(sent, "x-request-id") == (if c.requestId.GetOr("") != "" then c.requestId else Get(configured, "x-request-id"))
                  && Get(sent, "x-correlation-id") ==
                     (if c.correlationId.GetOr("") != "" then c.correlationId else Get(configured, "x-correlation-id")))
  {
    if context.Some? { HeadersLookedUp(context.value); }
    assert HeadersOf(context).Keys <= {"x-trace-id", "x-request-id", "x-correlation-id"};
    hide HeadersOf;
  }

  type Payload = map<string, Json>

  /** A field of a JSON value; undefined when there is none. Arrays and primitives have no such fields. */
  function Field(j: Option<Json>, name: string): Option<Json> {
    if j.Some? && j.value.Obj? && name in j.value.fields then Some(j.value.fields[name]) else None
  }

  function AsText(j: Option<Json>): Option<string> {
    if j.Some? && j.value.Str? then Some(j.value.s) else None
  }

  /** The payload that QueueService.add hands on; an undefined field does not survive serialisation. */
  function EnrichPayload(payload: Payload, context: Option<Context>): (r: Payload)
    ensures forall k :: k != "traceId" && k != "parentRequestId" ==> (k in r <==> k in payload) && (k in r ==> r[k] == payload[k])
    ensures AsText(Field(Some(Obj(r)), "traceId")) == if context.Some? then Some(context.value.traceId) else None
    ensures AsText(Field(Some(Obj(r)), "parentRequestId")) == if context.Some? then context.value.requestId else None
  {
    payload - {"traceId", "parentRequestId"}
    + (if context.Some? then map["traceId" := Str(context.value.traceId)] else map[])
    + (if context.Some? && context.value.requestId.Some?
       then map["parentRequestId" := Str(context.value.requestId.value)] else map[])
  }

  /** Neither undefined nor null, false, zero or the empty text. */
  predicate Truthy(j: Option<Json>) {
    j.Some? && j.value != Null && j.value != Bool(false) && j.value != Num(0.0) && j.value != Str("")
  }

  /** The context in which the email processor runs a job: job.data.payload?.traceId, or a new id. */
  function JobContext(data: Json, jobId: string, uuid: string): Context {
    var trace := Or(AsText(Field(Field(Some(data), "payload"), "traceId")), uuid);
    CreateContext(Some(trace), Some("job-" + jobId), Some(trace), uuid, uuid)
  }

  /** What add puts into Bull: the message with the enriched payload. */
  function BullData(envelope: Payload, payload: Payload, context: Option<Context>): Json {
    Obj(envelope["payload" := Obj(EnrichPayload(payload, context))])
  }

  /** The job's data has the message's other fields as they were, and the enriched payload. */
  lemma EnvelopeStays(envelope: Payload, payload: Payload, context: Option<Context>, k: string)
    ensures Field(Some(BullData(envelope, payload, context)), k) ==
              if k == "payload" then Some(Obj(EnrichPayload(payload, context)))
              else if k in envelope then Some(envelope[k]) else None
  {}

  datatype Hop =
    | Http(configured: Headers, uuid1: string, uuid2: string)
    | EmailJob(envelope: Payload, payload: Payload, jobId: string, uuid: string)

  function AfterHop(c: Context, hop: Hop): Context {
    match hop
    case Http(configured, uuid1, uuid2) => ExtractFromHeaders(EnrichRequest(configured, Some(c)), uuid1, uuid2)
    case EmailJob(envelope, payload, jobId, uuid) => JobContext(BullData(envelope, payload, Some(c)), jobId, uuid)
  }

  function AfterHops(c: Context, hops: seq<Hop>): Context {
    if hops == [] then c else AfterHop(AfterHops(c, hops[..|hops| - 1]), hops[|hops| - 1])
  }

  lemma HttpHopKeepsContext(c: Context, configured: Headers, uuid1: string, uuid2: string)
    requires Full(c)
    ensures AfterHop(c, Http(configured, uuid1, uuid2)) == c
  {
    var h := HeadersOf(Some(c));
    HeadersLookedUp(c);
    assert "x-trace-id" in h && "x-request-id" in h && "x-correlation-id" in h;
  }

  lemma JobHopKeepsTrace(c: Context, hop: Hop)
    requires Full(c) && hop.EmailJob?
    ensures AfterHop(c, hop) == Context(c.traceId, Some("job-" + hop.jobId), Some(c.traceId))
  {
    var payload := EnrichPayload(hop.payload, Some(c));
    assert payload["traceId"] == Str(c.traceId);
    var data := BullData(hop.envelope, hop.payload, Some(c));
    assert Field(Some(data), "payload") == Some(Obj(payload));
    assert "job-" + hop.jobId != "";
  }

  /** The id of the last job on the way. */
  function LastJob(hops: seq<Hop>): Option<string> {
    if hops == [] then None
    else
      var hop := hops[|hops| - 1];
      if hop.EmailJob? then Some(hop.jobId) else LastJob(hops[..|hops| - 1])
  }

  /**
   * Any mix of hops, in one line: HTTP hops alone keep the whole context; once there was a job the
   * trace id is still the same, the correlation id equals it, and the request id names the last job.
   */
  lemma {:induction false} HopsInClosedForm(c: Context, hops: seq<Hop>)
    requires Full(c)
    ensures AfterHops(c, hops) ==
              match LastJob(hops)
              case None => c
              case Some(id) => Context(c.traceId, Some("job-" + id), Some(c.traceId))
    ensures Full(AfterHops(c, hops))
  {
    if hops != [] {
      var before, hop := AfterHops(c, hops[..|hops| - 1]), hops[|hops| - 1];
      HopsInClosedForm(c, hops[..|hops| - 1]);
      if hop.Http? { HttpHopKeepsContext(before, hop.configured, hop.uuid1, hop.uuid2); }
      else { JobHopKeepsTrace(before, hop); assert "job-" + hop.jobId != ""; }
    }
  }

  /** Whatever headers a request comes with, the interceptor's context is full, so the above applies from there. */
  lemma {:induction false} ExtractedContextsAreFull(headers: Headers, uuid1: string, uuid2: string, hops: seq<Hop>)
    requires uuid1 != "" && uuid2 != ""
    ensures Full(ExtractFromHeaders(headers, uuid1, uuid2))
    ensures AfterHops(ExtractFromHeaders(headers, uuid1, uuid2), hops).traceId == Or(Get(headers, "x-trace-id"), uuid1)
  {
    HopsInClosedForm(ExtractFromHeaders(headers, uuid1, uuid2), hops);
  }
}
