/** What publishers and consumers hand to their channel: messages, the attempt counter, and the settlement of
    a delivery. The broker's side is in BrokerRun. */
module Consumer {
  import opened Wrappers

  /** A header value, as JavaScript's `Number` sees it. */
  datatype Header = Null | Numeric(n: int) | Other(text: string)
  type Headers = map<string, Header>

  const ATTEMPT_HEADER := "x-attempt"

  datatype Properties = Properties(
    contentType: string,
    persistent: bool,
    messageId: Option<string>,
    correlationId: Option<string>,
    headers: Option<Headers>,
    expiration: Option<int>)

  /** `exchange` and `key` are where the message was published to. */
  datatype Message = Message(exchange: string, key: string, content: string, properties: Properties)

  datatype Number = Int(n: int) | NaN

  function HeadersOf(m: Message): Headers {
    if m.properties.headers.Some? then m.properties.headers.value else map[]
  }

  /** `Number(headers['x-attempt'] ?? 0)`. */
  function Attempt(m: Message): Number {
    if ATTEMPT_HEADER !in HeadersOf(m) then Int(0)
    else match HeadersOf(m)[ATTEMPT_HEADER]
      case Null => Int(0)
      case Numeric(n) => Int(n)
      case Other(_) => NaN
  }

  /** `attempt + 1 >= maxAttempts`; every comparison with NaN is false. */
  predicate Exhausted(attempt: Number, maxAttempts: int) {
    attempt.Int? && attempt.n + 1 >= maxAttempts
  }

  /** `attempt + 1` as a header value. */
  function Incremented(attempt: Number): Header {
    match attempt
    case Int(n) => Numeric(n + 1)
    case NaN => Other("NaN")
  }

  // -------------------------------------------------------------------------------------------
  // Publishing.

  datatype PublishOptions = PublishOptions(
    messageId: Option<string>,
    persistent: Option<bool>,
    correlationId: Option<string>,
    headers: Option<Headers>,
    expiration: Option<int>)

  function Outgoing(exchange: string, key: string, payload: string, options: PublishOptions): Message {
    Message(exchange, key, payload, Properties(
      "application/json",
      if options.persistent.Some? then options.persistent.value else true,
      options.messageId,
      options.correlationId,
      Some(map[ATTEMPT_HEADER := Numeric(0)] + if options.headers.Some? then options.headers.value else map[]),
      options.expiration))
  }

  // -------------------------------------------------------------------------------------------
  // The channel.

  /** The delivery tag a consumer settles. */
  datatype Tag = Tag(serial: nat, queue: string)

  /** Calls a client makes on its channel, in the order made. `cause` says during which delivery a republish
      was made; the wire carries no such field. `allUpTo` is false in every nack of the source. */
  datatype Command =
    | Publish(cause: Option<Tag>, message: Message)
    | Ack(tag: Tag)
    | Nack(tag: Tag, requeue: bool)

  datatype Delivery = Delivery(tag: Tag, message: Message)

  class Channel {
    var outbox: seq<Command>

    constructor ()
      ensures outbox == []
    {
      outbox := [];
    }

    method Publish(cause: Option<Tag>, message: Message)
      modifies this
      ensures outbox == old(outbox) + [Command.Publish(cause, message)]
    {
      outbox := outbox + [Command.Publish(cause, message)];
    }

    method Ack(tag: Tag)
      modifies this
      ensures outbox == old(outbox) + [Command.Ack(tag)]
    {
      outbox := outbox + [Command.Ack(tag)];
    }

    method Nack(tag: Tag, requeue: bool)
      modifies this
      ensures outbox == old(outbox) + [Command.Nack(tag, requeue)]
    {
      outbox := outbox + [Command.Nack(tag, requeue)];
    }
  }

  /** `fails` is the channel refusing the message, for instance because it cannot be serialised; the source
      rethrows, which `ok == false` stands for. */
  class Publisher {
    const exchange: string
    const channel: Channel

    constructor (exchange: string, channel: Channel)
      ensures this.exchange == exchange && this.channel == channel
    {
      this.exchange := exchange;
      this.channel := channel;
    }

    method Publish(key: string, payload: string, options: PublishOptions, fails: bool) returns (ok: bool)
      modifies channel
      ensures ok == !fails
      ensures channel.outbox == old(channel.outbox)
                                + if ok then [Command.Publish(None, Outgoing(exchange, key, payload, options))] else []
    {
      if fails { return false; }
      channel.Publish(None, Outgoing(exchange, key, payload, options));
      return true;
    }
  }

  // -------------------------------------------------------------------------------------------
  // consumeWithRetry.

  /** The message a failed delivery is republished as. */
  function Retried(m: Message): Message {
    m.(properties := m.properties.(headers := Some(HeadersOf(m)[ATTEMPT_HEADER := Incremented(Attempt(m))])))
  }

  function RetrySettlement(d: Delivery, handlerOk: bool, maxAttempts: int): seq<Command> {
    if handlerOk then [Ack(d.tag)]
    else if Exhausted(Attempt(d.message), maxAttempts) then [Nack(d.tag, false)]
    else [Command.Publish(Some(d.tag), Retried(d.message)), Ack(d.tag)]
  }

  /** `handlerOk` is what the handler did with the payload: returned, or threw. */
  method ConsumeWithRetry(channel: Channel, d: Delivery, handlerOk: bool, maxAttempts: int)
    modifies channel
    ensures channel.outbox == old(channel.outbox) + RetrySettlement(d, handlerOk, maxAttempts)
  {
    var headers := if d.message.properties.headers.Some? then d.message.properties.headers.value else map[];
    var attempt := Attempt(d.message);
    if handlerOk {
      channel.Ack(d.tag);
      return;
    }
    if attempt.Int? && attempt.n + 1 >= maxAttempts {
      channel.Nack(d.tag, false);
      return;
    }
    var newHeaders := headers[ATTEMPT_HEADER := Incremented(attempt)];
    channel.Publish(
      Some(d.tag),
      Message(d.message.exchange, d.message.key, d.message.content,
              d.message.properties.(headers := Some(newHeaders))));
    channel.Ack(d.tag);
  }

  /** The notification consumer: acknowledge, or hand the message back to its queue. */
  function RequeueSettlement(d: Delivery, handlerOk: bool): seq<Command> {
    if handlerOk then [Ack(d.tag)] else [Nack(d.tag, true)]
  }

  /** `sendOk` is whether `notificationService.send` returned. */
  method HandleNotification(channel: Channel, d: Delivery, sendOk: bool)
    modifies channel
    ensures channel.outbox == old(channel.outbox) + RequeueSettlement(d, sendOk)
  {
    if sendOk {
      channel.Ack(d.tag);
    } else {
      channel.Nack(d.tag, true);
    }
  }

  // -------------------------------------------------------------------------------------------
  // What a consumer does, said of the raw header.

  /** The message again, with this in its attempt header and nothing else changed. */
  function WithAttempt(m: Message, n: Header): Message {
    var headers := if m.properties.headers.Some? then m.properties.headers.value else map[];
    Message(m.exchange, m.key, m.content, m.properties.(headers := Some(headers["x-attempt" := n])))
  }

  /** After a failed run, a message without the header, or with null in it, counts as attempt 0, one with a number
      as that attempt; it is given up when the next one would reach the limit, and otherwise published again with
      the next attempt before it is acknowledged. With anything else in the header it is never given up. */
  lemma SettledByHeader(d: Delivery, maxAttempts: int)
    ensures RetrySettlement(d, true, maxAttempts) == [Ack(d.tag)]
    ensures var headers := d.message.properties.headers;
            var failed := RetrySettlement(d, false, maxAttempts);
            if headers.None? || "x-attempt" !in headers.value || headers.value["x-attempt"] == Null then
              failed == if 1 >= maxAttempts then [Nack(d.tag, false)]
                        else [Command.Publish(Some(d.tag), WithAttempt(d.message, Numeric(1))), Ack(d.tag)]
            else match headers.value["x-attempt"]
              case Numeric(n) =>
                failed == if n + 1 >= maxAttempts then [Nack(d.tag, false)]
                          else [Command.Publish(Some(d.tag), WithAttempt(d.message, Numeric(n + 1))), Ack(d.tag)]
              case Other(_) =>
                failed == [Command.Publish(Some(d.tag), WithAttempt(d.message, Other("NaN"))), Ack(d.tag)]
  {
  }

  lemma SettledByRequeue(d: Delivery)
    ensures RequeueSettlement(d, true) == [Ack(d.tag)] && RequeueSettlement(d, false) == [Nack(d.tag, true)]
  {
  }

  /** What a publisher's message is made of: the payload as JSON, to the configured exchange under the given key,
      persistent unless told otherwise, with the caller's ids and expiration, and the caller's headers besides a
      first attempt of 0 that they override. */
  lemma OutgoingMessage(exchange: string, key: string, payload: string, options: PublishOptions)
    ensures var m := Outgoing(exchange, key, payload, options);
            && m.exchange == exchange && m.key == key && m.content == payload
            && m.properties.contentType == "application/json"
            && (m.properties.persistent <==> options.persistent != Some(false))
            && m.properties.messageId == options.messageId && m.properties.correlationId == options.correlationId
            && m.properties.expiration == options.expiration
            && m.properties.headers.Some?
            && var given := if options.headers.Some? then options.headers.value else map[];
               && m.properties.headers.value.Keys == given.Keys + {"x-attempt"}
               && (forall h | h in given :: m.properties.headers.value[h] == given[h])
               && ("x-attempt" !in given ==> m.properties.headers.value["x-attempt"] == Numeric(0))
  {
  }

  // -------------------------------------------------------------------------------------------
  // What the two have in common with their counters.

  /** A message leaves the publisher with attempt 0 unless the caller's own headers say otherwise. */
  lemma FreshAttempt(exchange: string, key: string, payload: string, options: PublishOptions)
    ensures Attempt(Outgoing(exchange, key, payload, options)) == Int(0) <==>
            options.headers.None? || ATTEMPT_HEADER !in options.headers.value
            || options.headers.value[ATTEMPT_HEADER] in {Null, Numeric(0)}
  {
  }

  /** A republished message carries the next attempt and is otherwise the message it replaces. */
  lemma RetriedKeepsMessage(m: Message)
    ensures Attempt(Retried(m)) == match Attempt(m) case Int(n) => Int(n + 1) case NaN => NaN
    ensures Retried(m).exchange == m.exchange && Retried(m).key == m.key && Retried(m).content == m.content
    ensures Retried(m).properties.(headers := None) == m.properties.(headers := None)
    ensures HeadersOf(Retried(m)) - {ATTEMPT_HEADER} == HeadersOf(m) - {ATTEMPT_HEADER}
  {
  }
}
