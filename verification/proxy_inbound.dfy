/**
 * The proxy's inbound allow-list pipeline for raw cross-frame messages: origin first, then
 * an empty payload, then the bus envelope shape, then the channel the envelope names. Each
 * rejection has its log line; an accepted envelope is handed to the local bus exactly once.
 */
module ProxyInbound {
  import opened Wrappers
  import opened JsValues
  import opened Seqs
  import opened ProxyControl

  const ProxyTag: string := "MessageProxy"
  const RefusedOriginText: string := "Message refused, origin not registered: "
  const NotForBusText: string := "Message Ignored, not intended for the bus."
  const NoPayloadText: string := "Message Ignored, it contains no payload"

  /** The fields a bus message carries on the wire; `isError` is optional. */
  const EnvelopeFields: seq<string> := ["direction", "correlationId", "channel", "payload", "senderId"]

  datatype Verdict =
    | RefusedOrigin(origin: string)
    | NoPayload
    | NotForBus
    | UnauthorizedChannel(channel: string)
    | Accept(channel: string, payload: JsValue)

  datatype LogLevel = Warn | Debug

  /** A logger call: level, message text and source tag. */
  datatype LogLine = LogLine(level: LogLevel, text: string, tag: string)

  /** The data is a bus message: an object with every envelope field and a string channel. */
  predicate IsEnvelope(data: JsValue) {
    && data.Obj?
    && (forall i :: 0 <= i < |EnvelopeFields| ==> EnvelopeFields[i] in Names(data.props))
    && Field(data.props, "channel").Some?
    && Field(data.props, "channel").value.Str?
  }

  /** Classifies a message event's origin and data against the policy. */
  function Classify(p: Control, origin: string, data: JsValue): (v: Verdict)
    ensures v.RefusedOrigin? <==> origin !in p.allowedOrigins
    ensures v.RefusedOrigin? ==> v.origin == origin
    ensures v.NoPayload? <==> origin in p.allowedOrigins && IsFalsy(data)
    ensures v.NotForBus? <==> origin in p.allowedOrigins && !IsFalsy(data) && !IsEnvelope(data)
    ensures v.Accept? || v.UnauthorizedChannel? <==> origin in p.allowedOrigins && !IsFalsy(data) && IsEnvelope(data)
    ensures v.Accept? ==> v.channel in p.authorizedChannels
    ensures v.UnauthorizedChannel? ==> v.channel !in p.authorizedChannels
    ensures v.Accept? || v.UnauthorizedChannel? ==> Field(data.props, "channel") == Some(Str(v.channel))
    ensures v.Accept? ==> Field(data.props, "payload") == Some(v.payload)
  {
    if origin !in p.allowedOrigins then RefusedOrigin(origin)
    else if IsFalsy(data) then NoPayload
    else if !IsEnvelope(data) then NotForBus
    else
      var channel := Field(data.props, "channel").value.s;
      if channel !in p.authorizedChannels then UnauthorizedChannel(channel)
      else
        assert "payload" == EnvelopeFields[3];
        Accept(channel, Field(data.props, "payload").value)
  }

  /**
   * The log line each verdict produces: a warning naming the refused origin, or a debug line
   * for data not meant for the bus. The texts for an unauthorized channel and for an accepted
   * message are not fixed by the tests, so none is modelled.
   */
  function LogFor(v: Verdict): (r: Option<LogLine>)
    ensures r.Some? <==> v.RefusedOrigin? || v.NoPayload? || v.NotForBus?
    ensures r.Some? ==> r.value.tag == ProxyTag
    ensures r.Some? ==> (r.value.level == Warn <==> v.RefusedOrigin?)
    ensures v.RefusedOrigin? ==> && |r.value.text| == |RefusedOriginText| + |v.origin|
                                 && r.value.text[..|RefusedOriginText|] == RefusedOriginText
                                 && r.value.text[|RefusedOriginText|..] == v.origin
    ensures v.NoPayload? ==> r == Some(LogLine(Debug, NoPayloadText, ProxyTag))
    ensures v.NotForBus? ==> r == Some(LogLine(Debug, NotForBusText, ProxyTag))
  {
    match v
    case RefusedOrigin(origin) => Some(LogLine(Warn, RefusedOriginText + origin, ProxyTag))
    case NoPayload => Some(LogLine(Debug, NoPayloadText, ProxyTag))
    case NotForBus => Some(LogLine(Debug, NotForBusText, ProxyTag))
    case UnauthorizedChannel(_) => None
    case Accept(_, _) => None
  }

  /** What an accepted verdict injects into the local bus: one (channel, payload) send. */
  function Injected(v: Verdict): (r: seq<(string, JsValue)>)
    ensures |r| == (if v.Accept? then 1 else 0)
    ensures v.Accept? ==> r[0] == (v.channel, v.payload)
  {
    if v.Accept? then [(v.channel, v.payload)] else []
  }

  /** A message event reaches the pipeline only while the proxy listens. */
  function HandleInbound(p: Control, origin: string, data: JsValue): (r: Option<Verdict>)
    ensures r.Some? <==> p.listening
    ensures r.Some? ==> r.value == Classify(p, origin, data)
  {
    if p.listening then Some(Classify(p, origin, data)) else None
  }

  // ---------------------------------------------------------------------------------------
  // Properties

  /** Nothing reaches the bus unless every check passed. */
  lemma AcceptedMeansAuthorized(p: Control, origin: string, data: JsValue)
    ensures |Injected(Classify(p, origin, data))| > 0 <==>
            origin in p.allowedOrigins && !IsFalsy(data) && IsEnvelope(data)
            && Field(data.props, "channel").value.s in p.authorizedChannels
  {
  }

  /** Removing an origin makes every later message from it a refusal. */
  lemma RemovedOriginIsRefused(p: Control, origin: string, data: JsValue)
    ensures Classify(RemoveAllowedTargetOrigin(p, origin), origin, data) == RefusedOrigin(origin)
  {
  }

  /** Adding an origin means its messages are no longer refused for their origin. */
  lemma AddedOriginIsNotRefused(p: Control, origin: string, data: JsValue)
    ensures !Classify(AddAllowedTargetOrigin(p, origin), origin, data).RefusedOrigin?
  {
    assert AddAllowedTargetOrigin(p, origin).allowedOrigins[|p.allowedOrigins|] == origin;
  }

  /** A stopped proxy ignores every message; starting it again restores the pipeline. */
  lemma StoppedProxyIgnoresMessages(p: Control, origin: string, data: JsValue)
    ensures HandleInbound(StopListening(p), origin, data).None?
    ensures HandleInbound(StartListening(StopListening(p)), origin, data) == Some(Classify(p, origin, data))
  {
  }

  /** The unregistered-origin test: the karma origin is refused with the exact warning. */
  lemma UnregisteredOriginScenario()
    ensures var p := EnableMessageProxy(ProxyConfig(["auth-chan1"], Parent, ["http://something.else"], true, None));
            LogFor(Classify(p, "http://localhost:9876", Str("hello melody!")))
            == Some(LogLine(Warn, "Message refused, origin not registered: http://localhost:9876", "MessageProxy"))
  {
    assert RefusedOriginText + "http://localhost:9876" == "Message refused, origin not registered: http://localhost:9876";
  }

  /** The not-for-the-bus tests: a plain string and an object without envelope fields. */
  lemma NotForBusScenario()
    ensures var p := EnableMessageProxy(ProxyConfig(["auth-chan1"], Parent, ["http://localhost:9876"], true, None));
            && LogFor(Classify(p, "http://localhost:9876", Str("hello melody!")))
               == Some(LogLine(Debug, "Message Ignored, not intended for the bus.", "MessageProxy"))
            && LogFor(Classify(p, "http://localhost:9876", Obj([Property("data", Str("hi fox!"))])))
               == Some(LogLine(Debug, "Message Ignored, not intended for the bus.", "MessageProxy"))
  {
    var fox := Obj([Property("data", Str("hi fox!"))]);
    assert Names(fox.props) == ["data"];
    assert EnvelopeFields[0] !in Names(fox.props);
  }

  /** The no-payload test: an empty string gets the no-payload line, not the not-for-bus one. */
  lemma NoPayloadScenario()
    ensures var p := EnableMessageProxy(ProxyConfig(["auth-chan1"], Parent, ["http://localhost:9876"], true, None));
            LogFor(Classify(p, "http://localhost:9876", Str("")))
            == Some(LogLine(Debug, "Message Ignored, it contains no payload", "MessageProxy"))
  {
  }

  /** A well-formed envelope from an allowed origin on an authorized channel is injected once. */
  lemma EnvelopeDeliveredOnceScenario(payload: JsValue)
    ensures var p := EnableMessageProxy(ProxyConfig(["auth-chan1"], Parent, ["http://x"], true, None));
            var envelope := Obj([Property("direction", Str("request")), Property("correlationId", Str("1")),
                                 Property("channel", Str("auth-chan1")), Property("payload", payload),
                                 Property("senderId", Str("s"))]);
            Injected(Classify(p, "http://x", envelope)) == [("auth-chan1", payload)]
  {
    var props := [Property("direction", Str("request")), Property("correlationId", Str("1")),
                  Property("channel", Str("auth-chan1")), Property("payload", payload),
                  Property("senderId", Str("s"))];
    assert Names(props) == ["direction", "correlationId", "channel", "payload", "senderId"];
    assert Field(props[3..], "payload") == Some(payload);
    assert Field(props[2..], "channel") == Some(Str("auth-chan1"));
    assert Field(props[2..], "payload") == Some(payload) by { assert props[2..][1..] == props[3..]; }
    assert Field(props, "channel") == Some(Str("auth-chan1")) by { assert props[1..][1..] == props[2..]; }
    assert Field(props, "payload") == Some(payload) by { assert props[1..][1..] == props[2..]; }
  }
}
