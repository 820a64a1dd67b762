/** The two `/webhook` endpoints: the GET verification handshake and the
    POST event envelope, with the handlers the POST route dispatches to. */
module Webhook {
  import opened Wrappers
  import opened Js
  import opened Template
  import opened Pager

  /** What an Express handler does with its response object. */
  datatype HttpResult =
    | Send(status: int, body: Value)  // res.status(status).send(body)
    | SendStatus(status: int)         // res.sendStatus(status)
    | Silent                          // the handler returns without answering
    | Threw                           // an exception escapes to the framework

  /** The configured verify token, `undefined` when the variable is unset. */
  function SecretValue(secret: Option<string>): Value {
    match secret
    case Some(s) => Str(s)
    case None => Undefined
  }

  /** GET /webhook: the subscription handshake for the query parameters
      `hub.mode`, `hub.verify_token` and `hub.challenge`. */
  function Verify(mode: Value, token: Value, challenge: Value, secret: Option<string>): (r: HttpResult)
    ensures r == Send(200, challenge) || r == SendStatus(403) || r == Silent
    ensures r == Send(200, challenge) <==> mode == Str("subscribe") && Truthy(token) && token == SecretValue(secret)
    ensures r == SendStatus(403) <==>
      Truthy(mode) && Truthy(token) && !(mode == Str("subscribe") && token == SecretValue(secret))
    ensures r == Silent <==> !Truthy(mode) || !Truthy(token)
  {
    if Truthy(mode) && Truthy(token) then
      if mode == Str("subscribe") && token == SecretValue(secret) then Send(200, challenge)
      else SendStatus(403)
    else Silent
  }

  /** An incoming text or attachment message. */
  datatype ReceivedMessage = ReceivedMessage(text: Value, attachments: Value)

  /** An incoming postback; its payload is the cursor of an earlier reply. */
  datatype ReceivedPostback = ReceivedPostback(payload: int)

  /** One messaging event. `sender` is the sender's `id`, or `None` when the
      event has no `sender` object; a `None` message or postback stands for
      one that is absent or falsy (`null`, `""`, `0`, `false`), since the
      routing tests truthiness. */
  datatype Event = Event(sender: Option<Value>, message: Option<ReceivedMessage>, postback: Option<ReceivedPostback>)

  /** One entry of the envelope; a missing `messaging` array behaves like an empty one. */
  datatype Entry = Entry(messaging: seq<Event>)

  /** The POST body: `kind` is its `object` field; `entry` is `None` when it is not an array. */
  datatype Envelope = Envelope(kind: Value, entry: Option<seq<Entry>>)

  /** A handler invocation with the sender's id. */
  datatype Dispatch =
    | HandleMessage(psid: Value, message: ReceivedMessage)
    | HandlePostback(psid: Value, postback: ReceivedPostback)

  /** What the POST route did: per entry handled, the handler it invoked (if
      any), and how it answered. */
  datatype Routed = Routed(handled: seq<Option<Dispatch>>, http: HttpResult)

  /** An entry whose first event and its sender can be read without throwing. */
  predicate Readable(e: Entry) {
    |e.messaging| > 0 && e.messaging[0].sender.Some?
  }

  /** The handler for a readable event: message first, then postback. */
  function Choose(ev: Event): Option<Dispatch>
    requires ev.sender.Some?
  {
    if ev.message.Some? then Some(HandleMessage(ev.sender.value, ev.message.value))
    else if ev.postback.Some? then Some(HandlePostback(ev.sender.value, ev.postback.value))
    else None
  }

  /** The `forEach` over the entries, stopping at the first entry whose
      first event cannot be read (there the source throws). */
  function Walk(es: seq<Entry>): (hs: seq<Option<Dispatch>>)
    ensures |hs| <= |es|
    ensures |hs| < |es| ==> !Readable(es[|hs|])
    ensures forall k :: 0 <= k < |hs| ==>
      && Readable(es[k])
      && var ev := es[k].messaging[0];
      && (ev.message.Some? ==> hs[k] == Some(HandleMessage(ev.sender.value, ev.message.value)))
      && (ev.message.None? && ev.postback.Some? ==> hs[k] == Some(HandlePostback(ev.sender.value, ev.postback.value)))
      && (ev.message.None? && ev.postback.None? ==> hs[k] == None)
  {
    if es == [] || !Readable(es[0]) then []
    else [Choose(es[0].messaging[0])] + Walk(es[1..])
  }

  /** POST /webhook: only page subscriptions are routed; every entry's first
      event goes to at most one handler; the batch is then acknowledged. */
  function Route(body: Envelope): (r: Routed)
    ensures body.kind != Str("page") ==> r == Routed([], SendStatus(404))
    ensures body.kind == Str("page") && body.entry.None? ==> r == Routed([], Threw)
    ensures body.kind == Str("page") && body.entry.Some? ==>
      var es := body.entry.value;
      && |r.handled| <= |es|
      && (r.http == Send(200, Str("EVENT_RECEIVED")) <==> |r.handled| == |es|)
      && (r.http == Threw <==> |r.handled| < |es|)
      && (|r.handled| < |es| ==> !Readable(es[|r.handled|]))
      && (forall k :: 0 <= k < |r.handled| ==>
            && Readable(es[k])
            && var ev := es[k].messaging[0];
            && (ev.message.Some? ==> r.handled[k] == Some(HandleMessage(ev.sender.value, ev.message.value)))
            && (ev.message.None? && ev.postback.Some? ==> r.handled[k] == Some(HandlePostback(ev.sender.value, ev.postback.value)))
            && (ev.message.None? && ev.postback.None? ==> r.handled[k] == None))
  {
    if body.kind != Str("page") then Routed([], SendStatus(404))
    else
      match body.entry
      case None => Routed([], Threw)
      case Some(es) =>
        var hs := Walk(es);
        Routed(hs, if |hs| == |es| then Send(200, Str("EVENT_RECEIVED")) else Threw)
  }

  /** The cursor a handler starts the pager from, or `None` when it sends
      nothing: a text message starts at 0, a postback at its payload, and a
      message without text (an attachment) gets no reply. */
  function StartCursor(d: Dispatch): Option<int> {
    match d
    case HandleMessage(_, m) => if Truthy(m.text) then Some(0) else None
    case HandlePostback(_, pb) => Some(pb.payload)
  }

  /** A handler: build the default response, run the pager on it, and hand
      the result to the Send API. `None` means no reply is built at all. */
  method Handle(d: Dispatch, feed: Feed, fuel: nat) returns (r: Option<PageResult>)
    ensures r.None? <==> d.HandleMessage? && !Truthy(d.message.text)
    ensures r.Some? ==>
      var o := Run(feed, Start(StartCursor(d).value), fuel);
      && (r.value.Resolved? <==> o.Finished?)
      && (r.value.Failed? <==> o.Missing?)
    ensures r.Some? && r.value.Resolved? ==>
      var reply := r.value.reply;
      var p := reply.payload;
      && IsListTemplate(reply)
      && var o := Run(feed, Start(StartCursor(d).value), fuel);
      && p.elements == [Welcome] + o.scan.picked
      && p.buttons == [ViewMore(o.scan.counter)]
      && |p.elements| == 4 && p.elements[0] == Welcome
      && |p.buttons| == 1 && p.buttons[0] == ViewMore(p.buttons[0].payload)
      && ValidAt(feed, p.buttons[0].payload)
      && p.elements[3] == ToElement(At(feed, p.buttons[0].payload).value)
  {
    match StartCursor(d)
    case None =>
      r := None;
    case Some(start) =>
      var page := CallChatbotApi(DefaultResponse(), start, feed, fuel);
      if page.Resolved? {
        FinishedShape(feed, start, fuel);
      }
      r := Some(page);
  }
}
