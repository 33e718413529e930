/** The forwarding server of dns/server.go, single-threaded: the server
    object with its running flag and listening socket, and the decisions
    `handleQuery` takes for one datagram. Sockets are handles, the upstream
    exchange is an outcome given as a parameter, and `WriteToUDP` appends
    to a log of sent datagrams. */
module Server {
  import opened Wrappers
  import opened Bytes
  import opened DomainNames
  import opened Message

  /** A Go address string such as "127.0.0.1:53". */
  type Address = string

  /** The upstream used when none is configured. */
  const DEFAULT_FORWARDER: Address := "8.8.8.8:53"

  /** The size of the buffer an upstream reply is read into. */
  const REPLY_BUFFER_SIZE: nat := 1024

  /** The QR bit: set in responses, clear in queries (section 4.1.1 of
      RFC 1035). */
  const FLAG_QR: bv16 := 0x8000
  /** Recursion Desired and Recursion Available. */
  const FLAG_RD: bv16 := 0x0100
  const FLAG_RA: bv16 := 0x0080

  /** The flags `createErrorResponse` writes. */
  const ERROR_FLAGS: uint16 := 0x8183

  /** RCODE 3, "Name Error": the name does not exist. */
  const RCODE_NAME_ERROR: bv16 := 3

  /** A `*net.UDPConn`, as the handle the network layer gave out. */
  datatype Conn = Conn(handle: nat)

  /** Why the network layer could not give a listening socket. */
  datatype BindError =
    | CannotResolve  // "failed to resolve address"
    | CannotListen   // "failed to listen on UDP"

  /** The errors `Start` returns. */
  datatype StartError =
    | AlreadyRunning           // "DNS server already running"
    | BindFailed(cause: BindError)

  /** The step at which the exchange with the upstream failed, before any
      reply bytes were read. */
  datatype ExchangeError =
    | ResolveFailed   // `net.ResolveUDPAddr`
    | DialFailed      // `net.DialUDP`
    | WriteFailed     // `conn.Write`, including its deadline
    | ReadFailed      // `conn.Read`, including its deadline

  /** Why `forwardQuery` returned no message. */
  datatype ForwardError =
    | ExchangeFailed(step: ExchangeError)
    | BadReply(cause: ParseError)

  /** One datagram written with `WriteToUDP`. */
  datatype Datagram = Datagram(peer: Address, payload: Bytes)

  /** What `handleQuery` does with one datagram. */
  datatype Outcome =
    | Dropped                   // not a query that parses, or a response
    | Answered(reply: Message)  // this message is packed and sent back
    | Crashed                   // a name decode never returns: the process dies

  predicate IsResponse(flags: uint16)
  {
    (flags as bv16) & FLAG_QR != 0
  }

  function Rcode(flags: uint16): bv16
  {
    (flags as bv16) & 0xF
  }

  /** The forwarder address of `NewDNSServer`: the empty string stands for
      the default upstream. */
  function ForwarderOrDefault(forwarderAddr: Address): (r: Address)
    ensures r != []
    ensures forwarderAddr != [] ==> r == forwarderAddr
    ensures forwarderAddr == [] ==> r == DEFAULT_FORWARDER
  {
    if forwarderAddr == [] then DEFAULT_FORWARDER else forwarderAddr
  }

  /** `createErrorResponse`: the query's ID and questions, no records, and
      flags whose RCODE is Name Error. */
  function CreateErrorResponse(msg: Message): (r: Message)
    ensures r.header.id == msg.header.id && r.header.qdCount == msg.header.qdCount
    ensures r.questions == msg.questions
    ensures r.answers == [] && r.authority == [] && r.additional == []
    ensures r.header.flags == ERROR_FLAGS
    ensures r.header.anCount == 0 && r.header.nsCount == 0 && r.header.arCount == 0
    ensures IsResponse(r.header.flags) && Rcode(r.header.flags) == RCODE_NAME_ERROR
    ensures (r.header.flags as bv16) & FLAG_RD != 0 && (r.header.flags as bv16) & FLAG_RA != 0
    ensures CountsMatch(msg) ==> CountsMatch(r)
  {
    Message(Header(msg.header.id, ERROR_FLAGS, msg.header.qdCount, 0, 0, 0), msg.questions, [], [], [])
  }

  /** What `conn.Read` leaves in the 1024-byte buffer: the start of the
      upstream datagram. */
  function Received(reply: Bytes): (b: Bytes)
    ensures |b| <= REPLY_BUFFER_SIZE && b <= reply
    ensures |reply| <= REPLY_BUFFER_SIZE ==> b == reply
  {
    if |reply| <= REPLY_BUFFER_SIZE then reply else reply[..REPLY_BUFFER_SIZE]
  }

  /** `forwardQuery`, given what the upstream exchange produced: the reply
      read into the buffer and parsed. */
  function Forwarded(upstream: Result<Bytes, ExchangeError>): Result<Message, ForwardError>
  {
    match upstream
    case Failure(e) => Failure(ExchangeFailed(e))
    case Success(reply) =>
      var buf := Received(reply);
      match ReadMessage(buf, |buf|)
      case Failure(e) => Failure(BadReply(e))
      case Success(m) => Success(m)
  }

  /** An upstream reply on which the source's parser never returns: its
      stack overflows, which ends the whole process. */
  predicate UpstreamHangs(upstream: Result<Bytes, ExchangeError>)
  {
    var forwarded := Forwarded(upstream);
    forwarded.Failure? && forwarded.error.BadReply? && RanOutOfFuel(forwarded.error.cause)
  }

  /** What `handleQuery` does with `query`. A datagram that does not parse,
      or that is itself a response, is dropped; one whose parse never
      returns crashes the process, and so does an upstream reply of that
      kind. Otherwise the answer is the upstream reply, or the error
      response when forwarding fails, with the query's ID and an `ARCount`
      of 1. */
  function Reply(query: Bytes, upstream: Result<Bytes, ExchangeError>): (r: Outcome)
    ensures r.Crashed? <==>
      || (ReadMessage(query, |query|).Failure? && RanOutOfFuel(ReadMessage(query, |query|).error))
      || (ReadMessage(query, |query|).Success? && !IsResponse(ReadMessage(query, |query|).value.header.flags)
          && UpstreamHangs(upstream))
    ensures r.Dropped? <==>
      || (ReadMessage(query, |query|).Failure? && !RanOutOfFuel(ReadMessage(query, |query|).error))
      || (ReadMessage(query, |query|).Success? && IsResponse(ReadMessage(query, |query|).value.header.flags))
    ensures r.Answered? ==> r.reply.header.id == ReadMessage(query, |query|).value.header.id && r.reply.header.arCount == 1
    ensures r.Answered? && Forwarded(upstream).Failure? ==>
      && r.reply.header == Header(r.reply.header.id, ERROR_FLAGS, ReadMessage(query, |query|).value.header.qdCount, 0, 0, 1)
      && r.reply.questions == ReadMessage(query, |query|).value.questions
      && r.reply.answers == [] && r.reply.authority == [] && r.reply.additional == []
    ensures r.Answered? && Forwarded(upstream).Success? ==>
      var m := Forwarded(upstream).value;
      && r.reply.header == m.header.(id := r.reply.header.id, arCount := 1)
      && r.reply.questions == m.questions && r.reply.answers == m.answers
      && r.reply.authority == m.authority && r.reply.additional == m.additional
  {
    match ReadMessage(query, |query|)
    case Failure(e) => if RanOutOfFuel(e) then Crashed else Dropped
    case Success(msg) =>
      if IsResponse(msg.header.flags) then Dropped
      else if UpstreamHangs(upstream) then Crashed
      else
        var response := match Forwarded(upstream) case Success(m) => m case Failure(_) => CreateErrorResponse(msg);
        Answered(response.(header := response.header.(id := msg.header.id, arCount := 1)))
  }

  /** A DNS forwarder: the address it listens on, the upstream it asks,
      the socket it holds and whether it is serving. */
  class DNSServer {
    var addr: Address
    var forwarderAddr: Address
    var conn: Option<Conn>
    /** Whether `conn` is still open: `Stop` closes it but keeps it. */
    var connOpen: bool
    var running: bool
    /** Every datagram written to the socket, oldest first. */
    var sent: seq<Datagram>

    /** A server is running exactly when it holds an open socket. */
    predicate Valid()
      reads this
    {
      (running <==> connOpen) && (connOpen ==> conn.Some?) && forwarderAddr != []
    }

    /** `NewDNSServer`: a stopped server with no socket. */
    constructor (addr: Address, forwarderAddr: Address)
      ensures Valid() && !running && conn == None && sent == []
      ensures this.addr == addr && this.forwarderAddr == ForwarderOrDefault(forwarderAddr)
    {
      this.addr := addr;
      this.forwarderAddr := if forwarderAddr == [] then DEFAULT_FORWARDER else forwarderAddr;
      this.conn := None;
      this.connOpen := false;
      this.running := false;
      this.sent := [];
    }

    /** `Start`, given what the network layer does with `addr`. A running
        server refuses and is left as it was; so is one that cannot bind. */
    method Start(bind: Result<Conn, BindError>) returns (err: Option<StartError>)
      requires Valid()
      modifies this
      ensures Valid()
      ensures addr == old(addr) && forwarderAddr == old(forwarderAddr) && sent == old(sent)
      ensures old(running) ==> err == Some(AlreadyRunning) && running && conn == old(conn)
      ensures !old(running) && bind.Failure? ==>
        err == Some(BindFailed(bind.error)) && !running && conn == old(conn) && connOpen == old(connOpen)
      ensures !old(running) && bind.Success? ==> err == None && running && conn == Some(bind.value)
    {
      if running {
        return Some(AlreadyRunning);
      }
      if bind.Failure? {
        return Some(BindFailed(bind.error));
      }
      conn := Some(bind.value);
      connOpen := true;
      running := true;
      return None;
    }

    /** `Stop`: clears the running flag and closes the socket, keeping the
        handle. On a stopped server it does nothing, so it can be repeated. */
    method Stop()
      requires Valid()
      modifies this
      ensures Valid() && !running && !connOpen
      ensures addr == old(addr) && forwarderAddr == old(forwarderAddr) && conn == old(conn) && sent == old(sent)
      ensures !old(running) ==> unchanged(this)
    {
      if !running {
        return;
      }
      running := false;
      if conn.Some? {
        connOpen := false;
      }
    }

    /** `forwardQuery`: parse what the upstream exchange put into the reply
        buffer. */
    method ForwardQuery(upstream: Result<Bytes, ExchangeError>) returns (r: Result<Message, ForwardError>)
      ensures r == Forwarded(upstream)
    {
      if upstream.Failure? {
        return Failure(ExchangeFailed(upstream.error));
      }
      var reply := upstream.value;
      var n := if |reply| <= REPLY_BUFFER_SIZE then |reply| else REPLY_BUFFER_SIZE;
      var buf := reply[..n];
      assert buf == Received(reply);
      var parsed := ParseDNSMessage(buf, n);
      if parsed.Failure? {
        return Failure(BadReply(parsed.error));
      }
      return Success(parsed.value);
    }

    /** `handleQuery` for one datagram from `peer`, the upstream exchange
        ending in `upstream`: at most one datagram is sent, to `peer`, and
        only while the socket is open. A parse that never returns ends the
        process: nothing is sent and the server is no longer serving. */
    method HandleQuery(query: Bytes, peer: Address, upstream: Result<Bytes, ExchangeError>)
      requires Valid()
      modifies this`sent, this`running, this`connOpen
      ensures Valid()
      ensures Reply(query, upstream).Crashed? ==> !running && !connOpen
      ensures !Reply(query, upstream).Crashed? ==> running == old(running) && connOpen == old(connOpen)
      ensures Reply(query, upstream).Answered? && old(connOpen) ==>
        sent == old(sent) + [Datagram(peer, WireMessage(Reply(query, upstream).reply))]
      ensures !(Reply(query, upstream).Answered? && old(connOpen)) ==> sent == old(sent)
    {
      var parsed := ParseDNSMessage(query, |query|);
      if parsed.Failure? {
        if RanOutOfFuel(parsed.error) {
          running := false;
          connOpen := false;
        }
        return;
      }
      var msg := parsed.value;
      if IsResponse(msg.header.flags) {
        return;
      }
      var response: Message;
      var forwarded := ForwardQuery(upstream);
      if forwarded.Failure? && forwarded.error.BadReply? && RanOutOfFuel(forwarded.error.cause) {
        running := false;
        connOpen := false;
        return;
      }
      if forwarded.Failure? {
        response := CreateErrorResponse(msg);
      } else {
        response := forwarded.value;
      }
      response := response.(header := response.header.(id := msg.header.id));
      response := response.(header := response.header.(arCount := 1));
      var responseBytes := Pack(response);
      if conn.Some? && connOpen {
        sent := sent + [Datagram(peer, responseBytes)];
      }
    }
  }

  // ---------------------------------------------------------------------
  // Properties
  // ---------------------------------------------------------------------

  /** An upstream reply that fits the buffer and packs a consistent message
      comes back as that message. */
  lemma ForwardedPacked(m: Message)
    requires Consistent(m) && |WireMessage(m)| <= REPLY_BUFFER_SIZE
    ensures Forwarded(Success(WireMessage(m))) == Success(m)
  {
    PackParseRoundTrip(m, |WireMessage(m)|);
  }

  /** Relaying: to a query, the server answers with the upstream's message,
      its ID replaced by the query's and its `ARCount` set to 1, everything
      else as the upstream sent it. */
  lemma RelayedReply(query: Bytes, q: Message, m: Message)
    requires ReadMessage(query, |query|) == Success(q) && !IsResponse(q.header.flags)
    requires Consistent(m) && |WireMessage(m)| <= REPLY_BUFFER_SIZE
    ensures Reply(query, Success(WireMessage(m))) == Answered(m.(header := m.header.(id := q.header.id, arCount := 1)))
  {
    ForwardedPacked(m);
  }

  /** Rewriting the ID and setting `ARCount` to 1 leaves the packed bytes
      as they were exactly when the header already said so. */
  lemma RewriteKeepsBytes(m: Message, id: uint16)
    ensures WireMessage(m.(header := m.header.(id := id, arCount := 1))) == WireMessage(m)
        <==> m.header.id == id && m.header.arCount == 1
  {
    var r := m.(header := m.header.(id := id, arCount := 1));
    PackKeepsHeader(r);
    PackKeepsHeader(m);
  }

  /** The relay is byte for byte exactly when the upstream reply already
      carries the query's ID and an `ARCount` of 1, for an upstream reply
      that packs a consistent message and fits the reply buffer. */
  lemma TransparentRelay(query: Bytes, q: Message, m: Message)
    requires ReadMessage(query, |query|) == Success(q) && !IsResponse(q.header.flags)
    requires Consistent(m) && |WireMessage(m)| <= REPLY_BUFFER_SIZE
    ensures Reply(query, Success(WireMessage(m))).Answered?
    ensures WireMessage(Reply(query, Success(WireMessage(m))).reply) == WireMessage(m)
        <==> m.header.id == q.header.id && m.header.arCount == 1
  {
    RelayedReply(query, q, m);
    RewriteKeepsBytes(m, q.header.id);
  }

  /** An upstream reply that names its record by a compression pointer:
      ID 7, `ARCount` 1, the question "a" type A class IN, and an additional
      OPT record whose owner name points back at the question's name. */
  function CompressedReply(): Bytes
  {
    [0, 7, 0x81, 0x80, 0, 1, 0, 0, 0, 0, 0, 1,
     1, 97, 0, 0, 1, 0, 1,
     0xC0, 0x0C, 0, 41, 0x10, 0, 0, 0, 0, 0, 0, 0]
  }

  /** The message `CompressedReply` stands for. */
  function CompressedMessage(): Message
  {
    Message(Header(7, 0x8180, 1, 0, 0, 1), [Question([97], 1, 1)], [], [], [Record([97], 41, 0x1000, 0, 0, [])])
  }

  lemma CompressedQuestionName(fuel: nat)
    ensures ReadName(CompressedReply(), 12, fuel) == Decoded([97], 15)
  {
    var data := CompressedReply();
    assert data[13..14] == [97];
    assert Dotted([], [97]) == [97];
    assert ReadName(data, 12, fuel) == ReadLabels(data, 12, 14, [97], fuel);
  }

  lemma CompressedOwnerName()
    ensures ReadName(CompressedReply(), 19, 31) == Decoded([97], 21)
  {
    var data := CompressedReply();
    CompressedQuestionName(30);
    assert U16At(data, 19) == 0xC00C;
    assert PointerTarget(data, 19) == 12;
    assert Dotted([], [97]) == [97];
  }

  lemma CompressedRecordParses()
    ensures ReadRecords(CompressedReply(), 19, 1, 31) == Success(Parsed(CompressedMessage().additional, 31))
  {
    var data := CompressedReply();
    CompressedOwnerName();
    assert U16At(data, 21) == 41 && U16At(data, 23) == 0x1000 && U32At(data, 25) == 0 && U16At(data, 29) == 0;
    assert data[31..31] == [];
    assert ReadRecord(data, 19, 31) == Success(Parsed(Record([97], 41, 0x1000, 0, 0, []), 31));
    assert [Record([97], 41, 0x1000, 0, 0, [])] + [] == CompressedMessage().additional;
  }

  lemma CompressedQuestionParses()
    ensures ReadQuestions(CompressedReply(), HEADER_SIZE, 1, 31) == Success(Parsed(CompressedMessage().questions, 19))
  {
    var data := CompressedReply();
    CompressedQuestionName(31);
    assert U16At(data, 15) == 1 && U16At(data, 17) == 1;
    assert ReadQuestion(data, 12, 31) == Success(Parsed(Question([97], 1, 1), 19));
    assert [Question([97], 1, 1)] + [] == CompressedMessage().questions;
  }

  lemma CompressedHeader()
    ensures |CompressedReply()| >= HEADER_SIZE && ReadHeader(CompressedReply()) == CompressedMessage().header
  {
  }

  /** `CompressedReply` parses to `CompressedMessage`, its record's owner
      name read through the pointer. */
  lemma CompressedReplyParses()
    ensures ReadMessage(CompressedReply(), |CompressedReply()|) == Success(CompressedMessage())
  {
    var data := CompressedReply();
    CompressedQuestionParses();
    CompressedRecordParses();
    CompressedHeader();
    assert |data| == 31;
    assert ReadRecords(data, 19, 0, 31) == Success(Parsed([], 19));
    SectionsStep(data, 31, CompressedMessage(), HEADER_SIZE, 19, 19, 19, 31);
  }

  /** Packed again, `CompressedMessage` writes its record's owner name in
      full: 32 bytes where the reply had 31. */
  lemma CompressedMessageRepacked()
    ensures |WireMessage(CompressedMessage())| == |CompressedReply()| + 1
  {
    assert WireName([97]) == [1, 97, 0] by {
      assert DOT !in [97 as uint8];
      SplitWithoutDot([97]);
    }
    var m := CompressedMessage();
    assert |WireQuestions(m.questions)| == 7;
    assert |WireRecords(m.additional)| == 13;
  }

  /** A compressed upstream reply is not relayed byte for byte, although it
      already carries the query's ID and an `ARCount` of 1: `Pack` writes
      the pointer out as the full owner name, one byte longer. */
  lemma CompressedReplyNotTransparent(query: Bytes, q: Message)
    requires ReadMessage(query, |query|) == Success(q) && !IsResponse(q.header.flags) && q.header.id == 7
    ensures Reply(query, Success(CompressedReply())) == Answered(CompressedMessage())
    ensures CompressedMessage().header.id == q.header.id && CompressedMessage().header.arCount == 1
    ensures |WireMessage(CompressedMessage())| != |CompressedReply()|
  {
    CompressedReplyParses();
    assert Received(CompressedReply()) == CompressedReply();
    assert Forwarded(Success(CompressedReply())) == Success(CompressedMessage());
    CompressedMessageRepacked();
  }

  /** When forwarding fails the server still answers, with a reply that
      claims one additional record and holds none, so its own parser
      rejects it. */
  lemma ErrorReplyUnparsable(query: Bytes, q: Message, upstream: Result<Bytes, ExchangeError>, fuel: nat)
    requires ReadMessage(query, |query|) == Success(q) && !IsResponse(q.header.flags)
    requires Forwarded(upstream).Failure? && !UpstreamHangs(upstream) && ValidQuestions(q.questions)
    ensures Reply(query, upstream).Answered?
    ensures ReadMessage(WireMessage(Reply(query, upstream).reply), fuel).Failure?
  {
    MissingAdditionalFails(Reply(query, upstream).reply, fuel);
  }

  /** Relaying an upstream reply without additional records gives a reply
      its own parser rejects, since `ARCount` is set to 1. */
  lemma RelayWithoutAdditionalUnparsable(query: Bytes, q: Message, m: Message, fuel: nat)
    requires ReadMessage(query, |query|) == Success(q) && !IsResponse(q.header.flags)
    requires Consistent(m) && |WireMessage(m)| <= REPLY_BUFFER_SIZE && m.additional == []
    ensures Reply(query, Success(WireMessage(m))).Answered?
    ensures ReadMessage(WireMessage(Reply(query, Success(WireMessage(m))).reply), fuel).Failure?
  {
    var r := m.(header := m.header.(id := q.header.id, arCount := 1));
    MissingAdditionalFails(r, fuel);
    RelayedReply(query, q, m);
  }

  /** A failed exchange with the upstream never crashes the process: a
      query that parses and is not a response gets the error response,
      with its own ID and `ARCount` 1. */
  lemma ExchangeFailureAnswered(query: Bytes, q: Message, e: ExchangeError)
    requires ReadMessage(query, |query|) == Success(q) && !IsResponse(q.header.flags)
    ensures !UpstreamHangs(Failure(e))
    ensures Reply(query, Failure(e)) ==
      Answered(Message(Header(q.header.id, ERROR_FLAGS, q.header.qdCount, 0, 0, 1), q.questions, [], [], []))
  {
  }

  /** A query whose name points into itself crashes the process, whatever
      the upstream does: the source's decoder calls itself without end. */
  lemma LoopingQueryCrashes(upstream: Result<Bytes, ExchangeError>)
    ensures Reply(LoopingQuery(), upstream) == Crashed
  {
    LoopingQueryNeverParses(|LoopingQuery()|);
  }

  /** So does an upstream reply of that kind, answering any query the
      server would forward. */
  lemma LoopingReplyCrashes(query: Bytes, q: Message)
    requires ReadMessage(query, |query|) == Success(q) && !IsResponse(q.header.flags)
    ensures Reply(query, Success(LoopingQuery())) == Crashed
  {
    LoopingQueryNeverParses(|LoopingQuery()|);
    assert Received(LoopingQuery()) == LoopingQuery();
  }
}
