/**
 * `MessageParser`: the dispatch of one parsed message to a packet decoder
 * (`parseMessage`), and the worker loop (`run`) that drains the acceptor
 * queue and recovers from every failure.
 */
module Parser {
  import opened Wrappers
  import opened Dom
  import opened Telemetry
  import StaticDecoder
  import SampleDecoders
  import opened Messages

  const TagType := "type"
  const TagUpPacket := "upstreamPacket"
  const TagDownPacket := "downstreamPacket"

  /** The three packet types the `type` switch accepts. */
  datatype PacketKind = StaticPacket | TemperaturePacket | EnergyPacket

  function PacketKindOf(text: string): Option<PacketKind>
  {
    if text == "Static" then Some(StaticPacket)
    else if text == "Temperature" then Some(TemperaturePacket)
    else if text == "Energy" then Some(EnergyPacket)
    else None
  }

  /** The dispatch decision of `parseMessage`, before any decoder runs. */
  datatype Route =
    | NoDownstreamPacket
    | NoTypeElement
    | WrongPacketType(text: string)
    | Decode(kind: PacketKind, packet: Node)

  /**
   * The first `downstreamPacket` and the text of the first `type` element,
   * both searched for in the whole document, decide the route.
   */
  function RouteOf(doc: Document): (r: Route)
    ensures r.NoDownstreamPacket? <==> !HasElement(doc.root, TagDownPacket)
    ensures r.NoTypeElement? <==> HasElement(doc.root, TagDownPacket) && !HasElement(doc.root, TagType)
    ensures !r.NoDownstreamPacket? && !r.NoTypeElement? ==>
      var typeText := TextContent(ElementsByTagName(doc.root, TagType)[0]);
      && (r.WrongPacketType? <==> PacketKindOf(typeText).None?)
      && (r.Decode? ==> PacketKindOf(typeText) == Some(r.kind))
    ensures r.Decode? ==>
      && r.packet == ElementsByTagName(doc.root, TagDownPacket)[0]
      && r.packet.Element? && r.packet.tag == TagDownPacket
  {
    var packets := ElementsByTagName(doc.root, TagDownPacket);
    if |packets| == 0 then NoDownstreamPacket
    else
      var typeNodes := ElementsByTagName(doc.root, TagType);
      if |typeNodes| == 0 then NoTypeElement
      else
        var text := TextContent(typeNodes[0]);
        match PacketKindOf(text)
        case None => WrongPacketType(text)
        case Some(kind) => Decode(kind, packets[0])
  }

  /** An entry `Loggers.logError` receives. */
  datatype ErrorEntry =
    | NoDownstreamPacketLogged        // "There was no <downstreamPacket> element in the message"
    | WrongPacketTypeLogged           // "Wrong packet type accepted" (no `type`, or an unknown one)
    | ParsingErrorLogged(doc: Document) // "There was an error parsing the following message: ..."

  /** How `parseMessage` ended: normally, with `InvalidMessageException`, or with another exception. */
  datatype Outcome = Completed | InvalidMessage | RuntimeFailure

  /** Everything one `parseMessage` call does: records inserted, errors logged, how it ended. */
  datatype Dispatch = Dispatch(inserts: seq<Record>, errors: seq<ErrorEntry>, outcome: Outcome)

  function DecodePacket(kind: PacketKind, packet: Node, parseFloat: SampleDecoders.FloatParser): Decoded
  {
    match kind
    case StaticPacket => StaticDecoder.DecodeStatic(packet)
    case TemperaturePacket =>
      SampleDecoders.SampleWalk(ChildNodes(packet), SampleDecoders.TemperatureSamples, parseFloat)
    case EnergyPacket =>
      SampleDecoders.SampleWalk(ChildNodes(packet), SampleDecoders.EnergySamples, parseFloat)
  }

  /** `parseMessage(doc)` as a function of the document. */
  function ParseMessageSpec(doc: Document, parseFloat: SampleDecoders.FloatParser): Dispatch
  {
    match RouteOf(doc)
    case NoDownstreamPacket => Dispatch([], [NoDownstreamPacketLogged], InvalidMessage)
    case NoTypeElement => Dispatch([], [WrongPacketTypeLogged], InvalidMessage)
    case WrongPacketType(_) => Dispatch([], [WrongPacketTypeLogged], InvalidMessage)
    case Decode(kind, packet) =>
      var d := DecodePacket(kind, packet, parseFloat);
      Dispatch(d.inserts, [], if d.failed then RuntimeFailure else Completed)
  }

  /** `parseMessage`: route, then run exactly the one decoder the route names. */
  method ParseMessage(doc: Document, parseFloat: SampleDecoders.FloatParser) returns (d: Dispatch)
    ensures d == ParseMessageSpec(doc, parseFloat)
  {
    var packets := ElementsByTagName(doc.root, TagDownPacket);
    if |packets| == 0 {
      return Dispatch([], [NoDownstreamPacketLogged], InvalidMessage);
    }
    var packet := packets[0];
    var typeNodes := ElementsByTagName(doc.root, TagType);
    if |typeNodes| == 0 {
      return Dispatch([], [WrongPacketTypeLogged], InvalidMessage);
    }
    var inserts, failed;
    match PacketKindOf(TextContent(typeNodes[0])) {
      case Some(StaticPacket) =>
        inserts, failed := StaticDecoder.ParseStaticPacket(packet);
      case Some(TemperaturePacket) =>
        inserts, failed := SampleDecoders.ParseTemperaturePacket(packet, parseFloat);
      case Some(EnergyPacket) =>
        inserts, failed := SampleDecoders.ParseEnergyPacket(packet, parseFloat);
      case None =>
        return Dispatch([], [WrongPacketTypeLogged], InvalidMessage);
    }
    return Dispatch(inserts, [], if failed then RuntimeFailure else Completed);
  }

  /**
   * An invalid message inserts nothing and logs exactly one error from
   * `parseMessage`; a routed message logs nothing there and inserts exactly
   * what the decoder of its first `downstreamPacket` inserts.
   */
  lemma DispatchReference(doc: Document, parseFloat: SampleDecoders.FloatParser)
    ensures var d, r := ParseMessageSpec(doc, parseFloat), RouteOf(doc);
      && (d.outcome == InvalidMessage <==> !r.Decode?)
      && (d.outcome == InvalidMessage ==> d.inserts == [] && |d.errors| == 1)
      && (!HasElement(doc.root, TagDownPacket) ==> d.errors == [NoDownstreamPacketLogged])
      && (r.Decode? ==>
            && d.errors == []
            && var packet := ElementsByTagName(doc.root, TagDownPacket)[0];
               && d.inserts == DecodePacket(r.kind, packet, parseFloat).inserts
               && (d.outcome == RuntimeFailure <==> DecodePacket(r.kind, packet, parseFloat).failed))
  {
  }

  // ---- one iteration of the run loop, and the whole queue ----

  /** The collaborators the model does not contain: `Message.toDocument` and `Float.parseFloat`. */
  datatype Platform = Platform(toDocument: Message -> Option<Document>, parseFloat: SampleDecoders.FloatParser)

  /** What one message's processing hands the database gateway and the error log. */
  datatype Effects = Effects(inserts: seq<Record>, errors: seq<ErrorEntry>)
  {
    /** These effects followed by `next`. */
    function Then(next: Effects): Effects
    {
      Effects(inserts + next.inserts, errors + next.errors)
    }
  }

  /** Regrouping a three-way concatenation; the run loop needs it spelled out to stay within its proof budget. */
  lemma AppendAssociative<T>(a: seq<T>, b: seq<T>, c: seq<T>)
    ensures a + b + c == a + (b + c)
  {
  }

  lemma ThenAssociative(a: Effects, b: Effects, c: Effects)
    ensures a.Then(b).Then(c) == a.Then(b.Then(c))
  {
    assert a.inserts + b.inserts + c.inserts == a.inserts + (b.inserts + c.inserts);
    assert a.errors + b.errors + c.errors == a.errors + (b.errors + c.errors);
  }

  /**
   * The body of `run` for one taken message: a message that does not parse is
   * dropped; an invalid one is logged again as a parsing error unless the
   * document holds an `upstreamPacket` element; any other exception is swallowed.
   */
  function HandleMessage(m: Message, env: Platform): Effects
  {
    match env.toDocument(m)
    case None => Effects([], [])
    case Some(doc) =>
      var d := ParseMessageSpec(doc, env.parseFloat);
      var echoed := HasElement(doc.root, TagUpPacket);
      Effects(d.inserts, d.errors + if d.outcome == InvalidMessage && !echoed then [ParsingErrorLogged(doc)] else [])
  }

  /** The effects of processing `queue` one message at a time, in queue order. */
  function HandleAll(queue: seq<Message>, env: Platform): Effects
    decreases |queue|
  {
    if queue == [] then Effects([], [])
    else HandleAll(queue[..|queue| - 1], env).Then(HandleMessage(queue[|queue| - 1], env))
  }

  lemma HandleAllStep(queue: seq<Message>, k: nat, env: Platform)
    requires k < |queue|
    ensures HandleAll(queue[..k + 1], env).inserts == HandleAll(queue[..k], env).inserts + HandleMessage(queue[k], env).inserts
    ensures HandleAll(queue[..k + 1], env).errors == HandleAll(queue[..k], env).errors + HandleMessage(queue[k], env).errors
  {
    assert queue[..k + 1][..k] == queue[..k];
  }

  /** Processing is compositional: the records of `q1` all precede those of `q2`. */
  lemma {:induction false} HandleAllAppend(q1: seq<Message>, q2: seq<Message>, env: Platform)
    ensures HandleAll(q1 + q2, env) == HandleAll(q1, env).Then(HandleAll(q2, env))
    decreases |q2|
  {
    if q2 == [] {
      assert q1 + q2 == q1;
    } else {
      var init2 := q2[..|q2| - 1];
      assert (q1 + q2)[..|q1 + q2| - 1] == q1 + init2;
      assert (q1 + q2)[|q1 + q2| - 1] == q2[|q2| - 1];
      HandleAllAppend(q1, init2, env);
      ThenAssociative(HandleAll(q1, env), HandleAll(init2, env), HandleMessage(q2[|q2| - 1], env));
    }
  }

  /** Arrival order: the gateway receives each message's records in turn, in queue order. */
  lemma {:induction false} HandleAllInOrder(queue: seq<Message>, env: Platform)
    ensures HandleAll(queue, env).inserts == Flatten(seq(|queue|, i requires 0 <= i < |queue| => HandleMessage(queue[i], env).inserts))
    decreases |queue|
  {
    if queue != [] {
      var init := queue[..|queue| - 1];
      HandleAllInOrder(init, env);
      assert seq(|queue|, i requires 0 <= i < |queue| => HandleMessage(queue[i], env).inserts)[..|queue| - 1]
          == seq(|init|, i requires 0 <= i < |init| => HandleMessage(init[i], env).inserts);
    }
  }

  /**
   * The error log of one message: nothing if `toDocument` fails; for an
   * invalid message, the `parseMessage` entry, followed by the parsing-error
   * entry of `run` only when the document has no `upstreamPacket` element.
   */
  lemma HandleMessageErrors(m: Message, env: Platform)
    ensures env.toDocument(m).None? ==> HandleMessage(m, env) == Effects([], [])
    ensures env.toDocument(m).Some? ==>
      var doc := env.toDocument(m).value;
      var d := ParseMessageSpec(doc, env.parseFloat);
      && HandleMessage(m, env).inserts == d.inserts
      && (d.outcome == InvalidMessage && HasElement(doc.root, TagUpPacket) ==>
            |HandleMessage(m, env).errors| == 1 && HandleMessage(m, env).errors == d.errors)
      && (d.outcome == InvalidMessage && !HasElement(doc.root, TagUpPacket) ==>
            HandleMessage(m, env).errors == d.errors + [ParsingErrorLogged(doc)] && |d.errors| == 1)
      && (d.outcome != InvalidMessage ==> HandleMessage(m, env).errors == [])
  {
    if env.toDocument(m).Some? {
      DispatchReference(env.toDocument(m).value, env.parseFloat);
    }
  }

  // ---- the worker object ----

  /**
   * The parser thread. `inserted` stands for what the `DataManager` gateway
   * has received and `errorLog` for what `Loggers.logError` has received.
   */
  class MessageParser {
    var isRunning: bool
    var inserted: seq<Record>
    var errorLog: seq<ErrorEntry>

    constructor ()
      ensures isRunning && inserted == [] && errorLog == []
    {
      isRunning := true;
      inserted := [];
      errorLog := [];
    }

    method StopThread()
      modifies this`isRunning
      ensures !isRunning
    {
      isRunning := false;
    }

    /** One iteration of the `run` loop on the message just taken. */
    method Accept(m: Message, env: Platform)
      modifies this`inserted, this`errorLog
      ensures inserted == old(inserted) + HandleMessage(m, env).inserts
      ensures errorLog == old(errorLog) + HandleMessage(m, env).errors
    {
      var parsed := env.toDocument(m);
      if parsed.None? {
        return;  // toDocument threw: the message is dropped
      }
      var msg := parsed.value;
      var d := ParseMessage(msg, env.parseFloat);
      inserted := inserted + d.inserts;
      errorLog := errorLog + d.errors;
      if d.outcome == InvalidMessage && |ElementsByTagName(msg.root, TagUpPacket)| == 0 {
        errorLog := errorLog + [ParsingErrorLogged(msg)];
      }
    }

    /**
     * `run` over the messages the queue will deliver. The loop only stops on
     * `isRunning`; when `queue` runs out it would block in `take`, which is
     * where this method returns. No message's failure ends the loop.
     */
    method Run(queue: seq<Message>, env: Platform) returns (taken: nat)
      modifies this`inserted, this`errorLog
      ensures taken == (if isRunning then |queue| else 0)
      ensures inserted == old(inserted) + HandleAll(queue[..taken], env).inserts
      ensures errorLog == old(errorLog) + HandleAll(queue[..taken], env).errors
    {
      taken := 0;
      while isRunning && taken < |queue|
        invariant taken <= |queue|
        invariant !isRunning ==> taken == 0
        invariant inserted == old(inserted) + HandleAll(queue[..taken], env).inserts
        invariant errorLog == old(errorLog) + HandleAll(queue[..taken], env).errors
        decreases |queue| - taken
      {
        ghost var done := HandleAll(queue[..taken], env);
        ghost var effects := HandleMessage(queue[taken], env);
        Accept(queue[taken], env);
        HandleAllStep(queue, taken, env);
        AppendAssociative(old(inserted), done.inserts, effects.inserts);
        AppendAssociative(old(errorLog), done.errors, effects.errors);
        taken := taken + 1;
      }
    }
  }
}
