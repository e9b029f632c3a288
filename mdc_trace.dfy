/** The audit service's own trace scoping around a consumed message: its "traceId" header, when present
    and not blank, is put in the logging context for the duration of the action. */
module MdcTrace {
  import opened Base
  import opened JavaText
  import opened Tracing

  const TraceIdHeaderName: string := "traceId"
  const MdcKey: string := "traceId"

  /** Object.toString of a header value. */
  function HeaderText(h: HeaderValue): string
  {
    match h
    case StringHeader(text) => text
    case OtherHeader(rendered) => rendered
  }

  /** The header's string form, or None when the message, its properties or the header is missing. */
  function IncomingTraceId(message: Option<Message>): (r: Option<string>)
    ensures r.Some? <==>
      message.Some? && message.value.properties.Some?
      && TraceIdHeaderName in message.value.properties.value.headers
    ensures r.Some? ==> r.value == HeaderText(message.value.properties.value.headers[TraceIdHeaderName])
  {
    if message.Some? && message.value.properties.Some?
       && TraceIdHeaderName in message.value.properties.value.headers
    then Some(HeaderText(message.value.properties.value.headers[TraceIdHeaderName]))
    else None
  }

  /** The context the action sees: the key is set only for a present, non-blank header. */
  function ActionContext(before: map<string, string>, message: Option<Message>): (ctx: map<string, string>)
    ensures MdcKey in ctx <==> MdcKey in before || (IncomingTraceId(message).Some? && !IsBlank(IncomingTraceId(message).value))
    ensures IncomingTraceId(message).Some? && !IsBlank(IncomingTraceId(message).value) ==>
      ctx[MdcKey] == IncomingTraceId(message).value
    ensures forall k :: k != MdcKey ==> (k in ctx <==> k in before)
    ensures forall k :: k in before && (k != MdcKey || !(IncomingTraceId(message).Some? && !IsBlank(IncomingTraceId(message).value))) ==>
      ctx[k] == before[k]
  {
    var traceId := IncomingTraceId(message);
    if traceId.Some? && !IsBlank(traceId.value) then before[MdcKey := traceId.value] else before
  }

  /** withTraceId: run the action once under the message's trace id and always remove the key after,
      whether the action returned or threw. */
  method WithTraceId<T>(mdc: Mdc, message: Option<Message>, action: map<string, string> -> T) returns (r: T)
    modifies mdc
    ensures r == action(ActionContext(old(mdc.entries), message))
    ensures mdc.entries == old(mdc.entries) - {MdcKey}
  {
    var traceId: Option<string> := None;
    if message.Some? && message.value.properties.Some? {
      var headers := message.value.properties.value.headers;
      if TraceIdHeaderName in headers {
        traceId := Some(HeaderText(headers[TraceIdHeaderName]));
      }
    }
    if traceId.Some? && !IsBlank(traceId.value) {
      mdc.entries := mdc.entries[MdcKey := traceId.value];
    }
    r := action(mdc.entries);
    mdc.entries := mdc.entries - {MdcKey};
  }

  /** A blank header never reaches the context: the action sees exactly the context from before. */
  lemma BlankHeaderIsIgnored(before: map<string, string>, headers: map<string, HeaderValue>)
    requires TraceIdHeaderName in headers && IsBlank(HeaderText(headers[TraceIdHeaderName]))
    ensures ActionContext(before, Some(Message(Some(MessageProperties(headers))))) == before
  {
  }

  /** A message without properties behaves like no message at all. */
  lemma MissingPropertiesIsNoMessage(before: map<string, string>)
    ensures ActionContext(before, Some(Message(None))) == ActionContext(before, None) == before
  {
  }
}
