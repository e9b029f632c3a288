/** Trace-id propagation shared by the services: reuse an incoming id when it is a valid UUID, otherwise
    mint a fresh one, and keep it in the logging context only while the work runs. */
module Tracing {
  import opened Base
  import opened JavaText
  import opened Servlet

  const TraceIdHeader: string := "X-Trace-Id"
  const TraceIdMdcKey: string := "traceId"

  /** The per-thread logging context (slf4j MDC). */
  class Mdc {
    var entries: map<string, string>

    constructor ()
      ensures entries == map[]
    {
      entries := map[];
    }
  }

  /** Map.get with null for a missing key. */
  function Lookup(m: map<string, string>, key: string): (r: Option<string>)
    ensures r.Some? <==> key in m
    ensures r.Some? ==> r.value == m[key]
  {
    if key in m then Some(m[key]) else None
  }

  /** A UUID parser that accepts every id in canonical form, as UUID.fromString does. */
  ghost predicate AcceptsCanonical(parse: UuidParser)
  {
    forall u :: ParsesAsUuid(parse, UuidToString(u))
  }

  /** The id a request or message runs under: the incoming one when it parses, else a fresh random one. */
  function ChooseTraceId(incoming: Option<string>, parse: UuidParser, freshId: Uuid): (r: string)
    ensures incoming.Some? && ParsesAsUuid(parse, incoming.value) ==> r == incoming.value
    ensures !(incoming.Some? && ParsesAsUuid(parse, incoming.value)) ==> r == UuidToString(freshId)
  {
    if incoming.Some? && ParsesAsUuid(parse, incoming.value) then incoming.value else UuidToString(freshId)
  }

  /** Whatever arrives, the chosen id is itself a valid UUID. */
  lemma ChosenTraceIdIsValid(incoming: Option<string>, parse: UuidParser, freshId: Uuid)
    requires AcceptsCanonical(parse)
    ensures ParsesAsUuid(parse, ChooseTraceId(incoming, parse, freshId))
  {
    if !(incoming.Some? && ParsesAsUuid(parse, incoming.value)) {
      assert ParsesAsUuid(parse, UuidToString(freshId));
    }
  }

  /** An incoming id that already is a valid UUID is kept whatever fresh id is on offer. */
  lemma ValidIncomingIdIsKept(incoming: string, parse: UuidParser, freshId1: Uuid, freshId2: Uuid)
    requires ParsesAsUuid(parse, incoming)
    ensures ChooseTraceId(Some(incoming), parse, freshId1) == ChooseTraceId(Some(incoming), parse, freshId2) == incoming
  {
  }

  /** The request's headers, name and value, in the order the request carries them. */
  type RequestHeaders = seq<(string, string)>

  /** HttpServletRequest.getHeader: the value of the first header whose name equals `name` ignoring
      case, or null when there is none. */
  function GetHeader(headers: RequestHeaders, name: string): (r: Option<string>)
    ensures r.None? <==> forall i :: 0 <= i < |headers| ==> !EqualsIgnoreCase(headers[i].0, name)
    ensures r.Some? ==>
      exists i :: 0 <= i < |headers| && headers[i].1 == r.value && EqualsIgnoreCase(headers[i].0, name)
        && forall j :: 0 <= j < i ==> !EqualsIgnoreCase(headers[j].0, name)
  {
    if headers == [] then None
    else if EqualsIgnoreCase(headers[0].0, name) then Some(headers[0].1)
    else
      var r := GetHeader(headers[1..], name);
      assert forall i :: 1 <= i < |headers| ==> headers[i] == headers[1..][i - 1];
      if r.Some? then
        var k :| 0 <= k < |headers[1..]| && headers[1..][k].1 == r.value && EqualsIgnoreCase(headers[1..][k].0, name)
          && forall j :: 0 <= j < k ==> !EqualsIgnoreCase(headers[1..][j].0, name);
        assert headers[k + 1] == headers[1..][k];
        r
      else r
  }

  /** HTTP/2 sends header names in lower case; "x-trace-id" still names the trace header. */
  lemma LowerCaseTraceHeaderMatches()
    ensures EqualsIgnoreCase("x-trace-id", TraceIdHeader)
  {
    var a: string := "x-trace-id";
    var b: string := TraceIdHeader;
    assert |ToLower(a)| == |ToLower(b)| == 10;
    forall i | 0 <= i < 10
      ensures ToLower(a)[i] == ToLower(b)[i]
    {
      assert ToLower(a)[i] == LowerChar(a[i]) && ToLower(b)[i] == LowerChar(b[i]);
    }
  }

  /** TraceIdInterceptor.extractOrGenerateTraceId on the request's X-Trace-Id header, whatever the case
      of its name. */
  function ExtractOrGenerateTraceId(requestHeaders: RequestHeaders, parse: UuidParser, freshId: Uuid): (r: string)
    ensures var incoming := GetHeader(requestHeaders, TraceIdHeader);
      && (incoming.Some? && ParsesAsUuid(parse, incoming.value) ==> r == incoming.value)
      && (!(incoming.Some? && ParsesAsUuid(parse, incoming.value)) ==> r == UuidToString(freshId))
  {
    ChooseTraceId(GetHeader(requestHeaders, TraceIdHeader), parse, freshId)
  }

  /** The first header named like X-Trace-Id, in any case, is the one read. */
  lemma FirstMatchingHeaderIsRead(name: string, value: string, rest: RequestHeaders)
    requires EqualsIgnoreCase(name, TraceIdHeader)
    ensures GetHeader([(name, value)] + rest, TraceIdHeader) == Some(value)
  {
    var headers := [(name, value)] + rest;
    assert headers[0] == (name, value);
  }

  /** A valid id sent under any spelling of the header name is reused, so "x-trace-id" is kept. */
  lemma HeaderNameCaseIsIgnored(value: string, rest: RequestHeaders, parse: UuidParser, freshId: Uuid)
    requires ParsesAsUuid(parse, value)
    ensures ExtractOrGenerateTraceId([("x-trace-id", value)] + rest, parse, freshId) == value
  {
    LowerCaseTraceHeaderMatches();
    FirstMatchingHeaderIsRead("x-trace-id", value, rest);
  }

  /** TraceIdInterceptor.preHandle: the same id goes to the context and to the response header, and the
      request always proceeds. */
  method PreHandle(requestHeaders: RequestHeaders, parse: UuidParser, freshId: Uuid, mdc: Mdc, response: HttpResponse)
    returns (proceed: bool)
    modifies mdc, response
    ensures proceed
    ensures var id := ExtractOrGenerateTraceId(requestHeaders, parse, freshId);
      && mdc.entries == old(mdc.entries)[TraceIdMdcKey := id]
      && response.headers == old(response.headers)[TraceIdHeader := id]
    ensures response.status == old(response.status) && response.body == old(response.body)
  {
    var traceId := ExtractOrGenerateTraceId(requestHeaders, parse, freshId);
    mdc.entries := mdc.entries[TraceIdMdcKey := traceId];
    response.headers := response.headers[TraceIdHeader := traceId];
    proceed := true;
  }

  /** TraceIdInterceptor.afterCompletion: the trace key goes, every other key stays. */
  method AfterCompletion(mdc: Mdc)
    modifies mdc
    ensures mdc.entries == old(mdc.entries) - {TraceIdMdcKey}
  {
    mdc.entries := mdc.entries - {TraceIdMdcKey};
  }

  /** Around a whole request the context ends as it began, less any trace key it held before. */
  lemma RequestLeavesContextClean(before: map<string, string>, id: string)
    ensures (before[TraceIdMdcKey := id] - {TraceIdMdcKey}) == before - {TraceIdMdcKey}
    ensures TraceIdMdcKey !in before ==> (before[TraceIdMdcKey := id] - {TraceIdMdcKey}) == before
  {
  }

  /** org.springframework.amqp.core.Message: a header value is a String or some other object, which
      shows here only through its toString. */
  datatype HeaderValue = StringHeader(text: string) | OtherHeader(rendered: string)

  datatype MessageProperties = MessageProperties(headers: map<string, HeaderValue>)

  datatype Message = Message(properties: Option<MessageProperties>)

  /** An argument of the intercepted listener call. */
  datatype Argument = MessageArgument(message: Message) | OtherArgument

  /** The first argument that is a Message, if any. */
  function FirstMessage(args: seq<Argument>): (r: Option<Message>)
    ensures r.None? <==> forall i :: 0 <= i < |args| ==> !args[i].MessageArgument?
    ensures r.Some? ==>
      exists i :: 0 <= i < |args| && args[i] == MessageArgument(r.value)
        && forall j :: 0 <= j < i ==> !args[j].MessageArgument?
  {
    if args == [] then None
    else if args[0].MessageArgument? then Some(args[0].message)
    else
      var r := FirstMessage(args[1..]);
      assert forall i :: 1 <= i < |args| ==> args[i] == args[1..][i - 1];
      if r.Some? then
        var k :| 0 <= k < |args[1..]| && args[1..][k] == MessageArgument(r.value)
          && forall j :: 0 <= j < k ==> !args[1..][j].MessageArgument?;
        assert args[k + 1] == MessageArgument(r.value);
        r
      else r
  }

  /** The advice's search over the arguments: stop at the first Message. */
  method FindMessage(args: seq<Argument>) returns (m: Option<Message>)
    ensures m == FirstMessage(args)
  {
    m := None;
    var i := 0;
    while i < |args|
      invariant 0 <= i <= |args|
      invariant m.None? ==> FirstMessage(args) == FirstMessage(args[i..])
      invariant m.Some? ==> m == FirstMessage(args)
      decreases |args| - i
    {
      assert args[i..][1..] == args[i + 1..];
      if args[i].MessageArgument? {
        m := Some(args[i].message);
        break;
      }
      i := i + 1;
    }
  }

  /** RabbitTraceInterceptorConfig.extractTraceId: a Message without properties raises a
      NullPointerException before any id is chosen. */
  function ExtractTraceId(message: Option<Message>, parse: UuidParser, freshId: Uuid): (r: Result<string, string>)
    ensures message.None? ==> r == Success(UuidToString(freshId))
    ensures message.Some? && message.value.properties.None? ==> r == Failure(NullPointer)
    ensures message.Some? && message.value.properties.Some? ==>
      var headers := message.value.properties.value.headers;
      r == Success(
        if TraceIdHeader in headers && headers[TraceIdHeader].StringHeader?
           && ParsesAsUuid(parse, headers[TraceIdHeader].text)
        then headers[TraceIdHeader].text
        else UuidToString(freshId))
  {
    if message.None? then Success(UuidToString(freshId))
    else if message.value.properties.None? then Failure(NullPointer)
    else
      var headers := message.value.properties.value.headers;
      var incoming := if TraceIdHeader in headers && headers[TraceIdHeader].StringHeader?
        then Some(headers[TraceIdHeader].text) else None;
      Success(ChooseTraceId(incoming, parse, freshId))
  }

  const NullPointer: string := "NullPointerException"

  /** The listener advice: find the message, choose the id, run the invocation with the id in the
      context, and remove the key afterwards whether the invocation returned or threw. */
  method AdviseListenerCall<T>(mdc: Mdc, args: seq<Argument>, parse: UuidParser, freshId: Uuid,
                               proceed: map<string, string> -> Result<T, string>)
    returns (r: Result<T, string>)
    modifies mdc
    ensures var chosen := ExtractTraceId(FirstMessage(args), parse, freshId);
      && (chosen.Failure? ==> r == Failure(chosen.error) && mdc.entries == old(mdc.entries))
      && (chosen.Success? ==>
            && r == proceed(old(mdc.entries)[TraceIdMdcKey := chosen.value])
            && mdc.entries == old(mdc.entries) - {TraceIdMdcKey})
  {
    var message := FindMessage(args);
    var traceId := ExtractTraceId(message, parse, freshId);
    if traceId.Failure? {
      return Failure(traceId.error);
    }
    mdc.entries := mdc.entries[TraceIdMdcKey := traceId.value];
    r := proceed(mdc.entries);
    mdc.entries := mdc.entries - {TraceIdMdcKey};
  }

  /** Every listener invocation runs under a valid UUID trace id unless the message lacks properties. */
  lemma ListenerRunsUnderValidId(args: seq<Argument>, parse: UuidParser, freshId: Uuid)
    requires AcceptsCanonical(parse)
    requires FirstMessage(args).None? || FirstMessage(args).value.properties.Some?
    ensures ExtractTraceId(FirstMessage(args), parse, freshId).Success?
    ensures ParsesAsUuid(parse, ExtractTraceId(FirstMessage(args), parse, freshId).value)
  {
    var message := FirstMessage(args);
    if message.None? {
      ChosenTraceIdIsValid(None, parse, freshId);
    } else {
      var headers := message.value.properties.value.headers;
      var incoming := if TraceIdHeader in headers && headers[TraceIdHeader].StringHeader?
        then Some(headers[TraceIdHeader].text) else None;
      ChosenTraceIdIsValid(incoming, parse, freshId);
    }
  }
}
