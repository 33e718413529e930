/** The DNS message codec of dns/message.go: the header, question and
    resource-record structs, `Pack` (sections 4.1.1 to 4.1.3 of RFC 1035)
    and its decoder `ParseDNSMessage` with `parseRecord`. */
module Message {
  import opened Wrappers
  import opened Bytes
  import opened DomainNames

  /** The fixed header is six 16-bit words. */
  const HEADER_SIZE: nat := 12

  datatype Header = Header(id: uint16, flags: uint16, qdCount: uint16, anCount: uint16, nsCount: uint16, arCount: uint16)

  datatype Question = Question(name: Name, qtype: uint16, qclass: uint16)

  /** `RDLength` is a field of its own: nothing ties it to `RData`. */
  datatype Record = Record(name: Name, rtype: uint16, rclass: uint16, ttl: uint32, rdLength: uint16, rdata: Bytes)

  datatype Message = Message(header: Header, questions: seq<Question>, answers: seq<Record>,
                             authority: seq<Record>, additional: seq<Record>)

  // ---------------------------------------------------------------------
  // Pack
  // ---------------------------------------------------------------------

  /** `binary.Write` of the header struct: its six fields, big-endian, as
      they stand (the counts are not recomputed). */
  function WireHeader(h: Header): (b: Bytes)
    ensures |b| == HEADER_SIZE
  {
    BE16(h.id) + BE16(h.flags) + BE16(h.qdCount) + BE16(h.anCount) + BE16(h.nsCount) + BE16(h.arCount)
  }

  function WireQuestion(q: Question): Bytes
  {
    WireName(q.name) + BE16(q.qtype) + BE16(q.qclass)
  }

  /** A record as `Pack` writes it: `RData` follows `RDLength` verbatim,
      whatever `RDLength` says. */
  function WireRecord(r: Record): Bytes
  {
    WireName(r.name) + BE16(r.rtype) + BE16(r.rclass) + BE32(r.ttl) + BE16(r.rdLength) + r.rdata
  }

  function WireQuestions(qs: seq<Question>): Bytes
  {
    if qs == [] then [] else WireQuestion(qs[0]) + WireQuestions(qs[1..])
  }

  function WireRecords(rs: seq<Record>): Bytes
  {
    if rs == [] then [] else WireRecord(rs[0]) + WireRecords(rs[1..])
  }

  /** The bytes `msg.Pack()` returns: header, questions, then the answer,
      authority and additional sections in that order. */
  function WireMessage(m: Message): Bytes
  {
    WireHeader(m.header) + WireQuestions(m.questions)
      + WireRecords(m.answers) + WireRecords(m.authority) + WireRecords(m.additional)
  }

  lemma {:induction false} WireQuestionsSnoc(qs: seq<Question>, q: Question)
    ensures WireQuestions(qs + [q]) == WireQuestions(qs) + WireQuestion(q)
  {
    if qs != [] {
      assert (qs + [q])[1..] == qs[1..] + [q];
      WireQuestionsSnoc(qs[1..], q);
    }
  }

  lemma {:induction false} WireRecordsSnoc(rs: seq<Record>, r: Record)
    ensures WireRecords(rs + [r]) == WireRecords(rs) + WireRecord(r)
  {
    if rs != [] {
      assert (rs + [r])[1..] == rs[1..] + [r];
      WireRecordsSnoc(rs[1..], r);
    }
  }

  /** `s[..i + 1]` is `s[..i]` followed by `s[i]`. */
  lemma TakeOneMore<T>(s: seq<T>, i: nat)
    requires i < |s|
    ensures s[..i + 1] == s[..i] + [s[i]]
  {
  }

  lemma TakeDrop<T>(s: seq<T>, k: nat)
    requires k <= |s|
    ensures s[..k] + s[k..] == s
  {
  }

  lemma FirstRest<T>(s: seq<T>)
    requires s != []
    ensures [s[0]] + s[1..] == s
  {
  }

  lemma Reassociate(a: Bytes, b: Bytes, c: Bytes)
    ensures a + (b + c) == a + b + c
  {
  }

  /** Appending the next question keeps the buffer equal to the encoding
      of the questions so far. */
  lemma QuestionWritten(buf: Bytes, out: Bytes, questions: seq<Question>, i: nat)
    requires i < |questions| && out == buf + WireQuestions(questions[..i])
    ensures out + WireQuestion(questions[i]) == buf + WireQuestions(questions[..i + 1])
  {
    TakeOneMore(questions, i);
    WireQuestionsSnoc(questions[..i], questions[i]);
    Reassociate(buf, WireQuestions(questions[..i]), WireQuestion(questions[i]));
  }

  /** Appending the next record keeps the buffer equal to the encoding of
      the records so far. */
  lemma RecordWritten(buf: Bytes, out: Bytes, records: seq<Record>, i: nat)
    requires i < |records| && out == buf + WireRecords(records[..i])
    ensures out + WireRecord(records[i]) == buf + WireRecords(records[..i + 1])
  {
    TakeOneMore(records, i);
    WireRecordsSnoc(records[..i], records[i]);
    Reassociate(buf, WireRecords(records[..i]), WireRecord(records[i]));
  }

  /** One of `Pack`'s three record loops: each record appended in turn. */
  method WriteRecords(buf: Bytes, records: seq<Record>) returns (out: Bytes)
    ensures out == buf + WireRecords(records)
  {
    out := buf;
    for i := 0 to |records|
      invariant out == buf + WireRecords(records[..i])
    {
      var a := records[i];
      var name := EncodeDomainName(a.name);
      var wire := name + BE16(a.rtype) + BE16(a.rclass) + BE32(a.ttl) + BE16(a.rdLength) + a.rdata;
      RecordWritten(buf, out, records, i);
      out := out + wire;
    }
    assert records[..|records|] == records;
  }

  /** `Pack`: writes into one buffer step by step. It never fails, so the
      Go error result (always nil) is left out. */
  method Pack(msg: Message) returns (packed: Bytes)
    ensures packed == WireMessage(msg)
  {
    var header := WireHeader(msg.header);
    var buf := header;
    for i := 0 to |msg.questions|
      invariant buf == header + WireQuestions(msg.questions[..i])
    {
      var q := msg.questions[i];
      var name := EncodeDomainName(q.name);
      var wire := name + BE16(q.qtype) + BE16(q.qclass);
      QuestionWritten(header, buf, msg.questions, i);
      buf := buf + wire;
    }
    assert msg.questions[..|msg.questions|] == msg.questions;
    buf := WriteRecords(buf, msg.answers);
    buf := WriteRecords(buf, msg.authority);
    buf := WriteRecords(buf, msg.additional);
    packed := buf;
  }

  // ---------------------------------------------------------------------
  // ParseDNSMessage and parseRecord
  // ---------------------------------------------------------------------

  /** A decoded value and the offset just past it. */
  datatype Parsed<T> = Parsed(value: T, next: nat)

  /** The errors of `parseRecord`. */
  datatype RecordError =
    | RecordName(nameError: NameError)  // from decodeDomainName
    | TruncatedRecord                   // "truncated record"
    | TruncatedRData                    // "truncated rdata"

  /** The errors of `ParseDNSMessage`, each wrapped with its section. */
  datatype ParseError =
    | TooShort                           // "message too short"
    | QuestionName(nameError: NameError) // "error parsing question: ..."
    | TruncatedQuestion                  // "truncated question section"
    | InAnswer(recordError: RecordError)     // "error parsing answer: ..."
    | InAuthority(recordError: RecordError)  // "error parsing authority: ..."
    | InAdditional(recordError: RecordError) // "error parsing additional: ..."

  /** The six big-endian header words at bytes 0 to 11, in order. */
  function ReadHeader(data: Bytes): Header
    requires |data| >= HEADER_SIZE
  {
    Header(U16At(data, 0), U16At(data, 2), U16At(data, 4), U16At(data, 6), U16At(data, 8), U16At(data, 10))
  }

  /** One pass of the question loop: a name, then 4 bytes of type and class. */
  function ReadQuestion(data: Bytes, offset: nat, fuel: nat): (r: Result<Parsed<Question>, ParseError>)
    ensures r.Success? ==> offset < r.value.next <= |data|
  {
    match ReadName(data, offset, fuel)
    case Failed(e, _) => Failure(QuestionName(e))
    case Decoded(name, next) =>
      if next + 4 > |data| then Failure(TruncatedQuestion)
      else Success(Parsed(Question(name, U16At(data, next), U16At(data, next + 2)), next + 4))
  }

  /** `parseRecord`: a name, 10 fixed bytes, then exactly `RDLength` bytes of
      resource data, copied. */
  function ReadRecord(data: Bytes, offset: nat, fuel: nat): (r: Result<Parsed<Record>, RecordError>)
    ensures r.Success? ==> offset < r.value.next <= |data|
    ensures r.Success? ==> r.value.value.rdLength == |r.value.value.rdata|
  {
    match ReadName(data, offset, fuel)
    case Failed(e, _) => Failure(RecordName(e))
    case Decoded(name, next) =>
      if next + 10 > |data| then Failure(TruncatedRecord)
      else
        var rdLength := U16At(data, next + 8);
        if next + 10 + rdLength > |data| then Failure(TruncatedRData)
        else Success(Parsed(Record(name, U16At(data, next), U16At(data, next + 2), U32At(data, next + 4),
                                   rdLength, data[next + 10..next + 10 + rdLength]),
                            next + 10 + rdLength))
  }

  /** `done` followed by a successful parse; a failure stays a failure. */
  function Prepend<T, E>(done: seq<T>, r: Result<Parsed<seq<T>>, E>): Result<Parsed<seq<T>>, E>
  {
    match r
    case Success(p) => Success(Parsed(done + p.value, p.next))
    case Failure(e) => Failure(e)
  }

  lemma PrependNothing<T, E>(r: Result<Parsed<seq<T>>, E>)
    ensures Prepend([], r) == r
  {
    if r.Success? {
      assert [] + r.value.value == r.value.value;
    }
  }

  lemma PrependTwice<T, E>(a: seq<T>, b: seq<T>, r: Result<Parsed<seq<T>>, E>)
    ensures Prepend(a, Prepend(b, r)) == Prepend(a + b, r)
  {
    if r.Success? {
      assert a + (b + r.value.value) == (a + b) + r.value.value;
    }
  }

  /** `count` questions in a row; the first failure ends the parse. */
  function ReadQuestions(data: Bytes, offset: nat, count: nat, fuel: nat): (r: Result<Parsed<seq<Question>>, ParseError>)
    requires offset <= |data|
    ensures r.Success? ==> |r.value.value| == count && offset <= r.value.next <= |data|
    decreases count
  {
    if count == 0 then Success(Parsed([], offset))
    else match ReadQuestion(data, offset, fuel)
      case Failure(e) => Failure(e)
      case Success(q) => Prepend([q.value], ReadQuestions(data, q.next, count - 1, fuel))
  }

  /** `count` records in a row; the first failure ends the parse. */
  function ReadRecords(data: Bytes, offset: nat, count: nat, fuel: nat): (r: Result<Parsed<seq<Record>>, RecordError>)
    requires offset <= |data|
    ensures r.Success? ==> |r.value.value| == count && offset <= r.value.next <= |data|
    decreases count
  {
    if count == 0 then Success(Parsed([], offset))
    else match ReadRecord(data, offset, fuel)
      case Failure(e) => Failure(e)
      case Success(a) => Prepend([a.value], ReadRecords(data, a.next, count - 1, fuel))
  }

  /** Header counts equal the section lengths. */
  predicate CountsMatch(m: Message)
  {
    && m.header.qdCount == |m.questions|
    && m.header.anCount == |m.answers|
    && m.header.nsCount == |m.authority|
    && m.header.arCount == |m.additional|
  }

  /** A parse that failed because a name decode ran out of fuel: where the
      source's parser never returns. */
  predicate RanOutOfFuel(e: ParseError)
  {
    match e
    case QuestionName(n) => n == OutOfFuel
    case InAnswer(r) => r == RecordName(OutOfFuel)
    case InAuthority(r) => r == RecordName(OutOfFuel)
    case InAdditional(r) => r == RecordName(OutOfFuel)
    case _ => false
  }

  /** The whole of `ParseDNSMessage`, with the offset where it stopped. */
  function ReadSections(data: Bytes, fuel: nat): (r: Result<Parsed<Message>, ParseError>)
    ensures r.Success? ==> |data| >= HEADER_SIZE && r.value.next <= |data|
    ensures r.Success? ==> r.value.value.header == ReadHeader(data) && CountsMatch(r.value.value)
  {
    if |data| < HEADER_SIZE then Failure(TooShort)
    else
      var h := ReadHeader(data);
      match ReadQuestions(data, HEADER_SIZE, h.qdCount, fuel)
      case Failure(e) => Failure(e)
      case Success(qs) =>
        match ReadRecords(data, qs.next, h.anCount, fuel)
        case Failure(e) => Failure(InAnswer(e))
        case Success(an) =>
          match ReadRecords(data, an.next, h.nsCount, fuel)
          case Failure(e) => Failure(InAuthority(e))
          case Success(ns) =>
            match ReadRecords(data, ns.next, h.arCount, fuel)
            case Failure(e) => Failure(InAdditional(e))
            case Success(ar) => Success(Parsed(Message(h, qs.value, an.value, ns.value, ar.value), ar.next))
  }

  /** The result of `ParseDNSMessage(data)`: a whole message or an error,
      never a partial message. Bytes after the last record are ignored. */
  function ReadMessage(data: Bytes, fuel: nat): (r: Result<Message, ParseError>)
    ensures |data| < HEADER_SIZE ==> r == Failure(TooShort)
    ensures r.Success? ==> |data| >= HEADER_SIZE && r.value.header == ReadHeader(data)
    ensures r.Success? ==> CountsMatch(r.value)
  {
    match ReadSections(data, fuel)
    case Success(p) => Success(p.value)
    case Failure(e) => Failure(e)
  }

  /** `parseRecord`. */
  method ParseRecord(data: Bytes, offset: nat, fuel: nat) returns (r: Result<Parsed<Record>, RecordError>)
    ensures r == ReadRecord(data, offset, fuel)
  {
    var name := DecodeDomainName(data, offset, fuel);
    if name.Failed? {
      return Failure(RecordName(name.error));
    }
    var cursor := name.next;
    if cursor + 10 > |data| {
      return Failure(TruncatedRecord);
    }
    var rtype, rclass, ttl, rdLength := U16At(data, cursor), U16At(data, cursor + 2), U32At(data, cursor + 4), U16At(data, cursor + 8);
    cursor := cursor + 10;
    if cursor + rdLength > |data| {
      return Failure(TruncatedRData);
    }
    var rdata := data[cursor..cursor + rdLength];
    return Success(Parsed(Record(name.name, rtype, rclass, ttl, rdLength, rdata), cursor + rdLength));
  }

  /** One of `ParseDNSMessage`'s three record loops. */
  method ParseRecords(data: Bytes, offset: nat, count: nat, fuel: nat) returns (r: Result<Parsed<seq<Record>>, RecordError>)
    requires offset <= |data|
    ensures r == ReadRecords(data, offset, count, fuel)
  {
    var records: seq<Record> := [];
    var cursor: nat := offset;
    PrependNothing(ReadRecords(data, offset, count, fuel));
    for i := 0 to count
      invariant cursor <= |data|
      invariant ReadRecords(data, offset, count, fuel) == Prepend(records, ReadRecords(data, cursor, count - i, fuel))
    {
      var record := ParseRecord(data, cursor, fuel);
      if record.Failure? {
        return Failure(record.error);
      }
      assert ReadRecords(data, cursor, count - i, fuel)
          == Prepend([record.value.value], ReadRecords(data, record.value.next, count - i - 1, fuel));
      PrependTwice(records, [record.value.value], ReadRecords(data, record.value.next, count - i - 1, fuel));
      records := records + [record.value.value];
      cursor := record.value.next;
    }
    assert records + [] == records;
    return Success(Parsed(records, cursor));
  }

  /** `ParseDNSMessage`: the header, then a loop per section that advances
      the cursor and appends to that section's list. */
  method ParseDNSMessage(data: Bytes, fuel: nat) returns (r: Result<Message, ParseError>)
    ensures r == ReadMessage(data, fuel)
  {
    if |data| < HEADER_SIZE {
      return Failure(TooShort);
    }
    var header := Header(U16At(data, 0), U16At(data, 2), U16At(data, 4), U16At(data, 6), U16At(data, 8), U16At(data, 10));
    var offset: nat := HEADER_SIZE;
    var questions: seq<Question> := [];
    PrependNothing(ReadQuestions(data, HEADER_SIZE, header.qdCount, fuel));
    for i := 0 to header.qdCount
      invariant offset <= |data|
      invariant ReadQuestions(data, HEADER_SIZE, header.qdCount, fuel)
             == Prepend(questions, ReadQuestions(data, offset, header.qdCount - i, fuel))
    {
      var name := DecodeDomainName(data, offset, fuel);
      if name.Failed? {
        return Failure(QuestionName(name.error));
      }
      if name.next + 4 > |data| {
        return Failure(TruncatedQuestion);
      }
      var question := Question(name.name, U16At(data, name.next), U16At(data, name.next + 2));
      PrependTwice(questions, [question], ReadQuestions(data, name.next + 4, header.qdCount - i - 1, fuel));
      questions := questions + [question];
      offset := name.next + 4;
    }
    assert questions + [] == questions;
    var answers := ParseRecords(data, offset, header.anCount, fuel);
    if answers.Failure? {
      return Failure(InAnswer(answers.error));
    }
    var authority := ParseRecords(data, answers.value.next, header.nsCount, fuel);
    if authority.Failure? {
      return Failure(InAuthority(authority.error));
    }
    var additional := ParseRecords(data, authority.value.next, header.arCount, fuel);
    if additional.Failure? {
      return Failure(InAdditional(additional.error));
    }
    return Success(Message(header, questions, answers.value.value, authority.value.value, additional.value.value));
  }

  // ---------------------------------------------------------------------
  // Properties
  // ---------------------------------------------------------------------

  /** A record `Pack` and `parseRecord` agree on: an encodable owner name
      and an `RDLength` that is the length of `RData`. */
  predicate ValidRecord(r: Record)
  {
    ValidName(r.name) && r.rdLength == |r.rdata|
  }

  predicate ValidRecords(rs: seq<Record>)
  {
    rs == [] || (ValidRecord(rs[0]) && ValidRecords(rs[1..]))
  }

  /** A question `Pack` and the question loop agree on: an encodable name. */
  predicate ValidQuestion(q: Question)
  {
    ValidName(q.name)
  }

  predicate ValidQuestions(qs: seq<Question>)
  {
    qs == [] || (ValidQuestion(qs[0]) && ValidQuestions(qs[1..]))
  }

  /** A message whose packed form parses back to itself: header counts
      equal the section lengths, every name is encodable and every
      `RDLength` is right. */
  predicate Consistent(m: Message)
  {
    && CountsMatch(m)
    && ValidQuestions(m.questions)
    && ValidRecords(m.answers)
    && ValidRecords(m.authority)
    && ValidRecords(m.additional)
  }

  /** The six header words read back as written. */
  lemma HeaderRoundTrip(data: Bytes, h: Header)
    requires At(data, 0, WireHeader(h))
    ensures |data| >= HEADER_SIZE && ReadHeader(data) == h
  {
    var a, b, c, d, e, f := BE16(h.id), BE16(h.flags), BE16(h.qdCount), BE16(h.anCount), BE16(h.nsCount), BE16(h.arCount);
    AtSplit(data, 0, a + b + c + d + e, f);
    AtSplit(data, 0, a + b + c + d, e);
    AtSplit(data, 0, a + b + c, d);
    AtSplit(data, 0, a + b, c);
    AtSplit(data, 0, a, b);
    ReadBE16(data, 0, h.id);
    ReadBE16(data, 2, h.flags);
    ReadBE16(data, 4, h.qdCount);
    ReadBE16(data, 6, h.anCount);
    ReadBE16(data, 8, h.nsCount);
    ReadBE16(data, 10, h.arCount);
  }

  /** `Pack` writes the header words as they stand: whatever the sections
      hold, the packed bytes start with the header, and its counts are
      not recomputed from the section lengths. */
  lemma PackKeepsHeader(m: Message)
    ensures |WireMessage(m)| >= HEADER_SIZE && ReadHeader(WireMessage(m)) == m.header
  {
    FiveParts(WireHeader(m.header), WireQuestions(m.questions), WireRecords(m.answers),
              WireRecords(m.authority), WireRecords(m.additional));
    HeaderRoundTrip(WireMessage(m), m.header);
  }

  /** An encoded question lies in `data`: its name, and after it the type
      and class, each reading back. */
  lemma QuestionParts(data: Bytes, offset: nat, q: Question, w: Bytes)
    requires w == WireQuestion(q) && At(data, offset, w)
    ensures At(data, offset, WireName(q.name))
    ensures var n := offset + |WireName(q.name)|;
      && n + 4 <= |data| && offset + |w| == n + 4
      && U16At(data, n) == q.qtype && U16At(data, n + 2) == q.qclass
  {
    var name := WireName(q.name);
    AtSplit(data, offset, name + BE16(q.qtype), BE16(q.qclass));
    AtSplit(data, offset, name, BE16(q.qtype));
    ReadBE16(data, offset + |name|, q.qtype);
    ReadBE16(data, offset + |name| + 2, q.qclass);
  }

  lemma {:induction false} QuestionRoundTrip(data: Bytes, offset: nat, q: Question, w: Bytes, fuel: nat)
    requires ValidQuestion(q) && w == WireQuestion(q) && At(data, offset, w)
    ensures ReadQuestion(data, offset, fuel) == Success(Parsed(q, offset + |w|))
  {
    QuestionParts(data, offset, q, w);
    NameRoundTrip(data, offset, q.name, fuel);
  }

  /** The ten fixed bytes and the resource data of a record, read back. */
  lemma RecordFields(data: Bytes, n: nat, r: Record)
    requires r.rdLength == |r.rdata|
    requires At(data, n, BE16(r.rtype)) && At(data, n + 2, BE16(r.rclass))
    requires At(data, n + 4, BE32(r.ttl)) && At(data, n + 8, BE16(r.rdLength))
    requires At(data, n + 10, r.rdata)
    ensures n + 10 + |r.rdata| <= |data|
    ensures U16At(data, n) == r.rtype && U16At(data, n + 2) == r.rclass && U32At(data, n + 4) == r.ttl
    ensures U16At(data, n + 8) == r.rdLength && data[n + 10..n + 10 + |r.rdata|] == r.rdata
  {
    ReadBE16(data, n, r.rtype);
    ReadBE16(data, n + 2, r.rclass);
    ReadBE32(data, n + 4, r.ttl);
    ReadBE16(data, n + 8, r.rdLength);
    AtSlice(data, n + 10, r.rdata);
    AtLength(data, n + 10, r.rdata);
  }

  /** An encoded record lies in `data`: its owner name, and after it the
      fixed fields and the resource data, each reading back. */
  lemma RecordParts(data: Bytes, offset: nat, r: Record, w: Bytes)
    requires r.rdLength == |r.rdata| && w == WireRecord(r) && At(data, offset, w)
    ensures At(data, offset, WireName(r.name))
    ensures var n := offset + |WireName(r.name)|;
      && n + 10 + |r.rdata| <= |data| && offset + |w| == n + 10 + |r.rdata|
      && U16At(data, n) == r.rtype && U16At(data, n + 2) == r.rclass && U32At(data, n + 4) == r.ttl
      && U16At(data, n + 8) == r.rdLength && data[n + 10..n + 10 + |r.rdata|] == r.rdata
  {
    var name, t, c, ttl, len := WireName(r.name), BE16(r.rtype), BE16(r.rclass), BE32(r.ttl), BE16(r.rdLength);
    AtSplit(data, offset, name + t + c + ttl + len, r.rdata);
    AtSplit(data, offset, name + t + c + ttl, len);
    AtSplit(data, offset, name + t + c, ttl);
    AtSplit(data, offset, name + t, c);
    AtSplit(data, offset, name, t);
    RecordFields(data, offset + |name|, r);
  }

  /** `parseRecord` after the owner name: the fixed fields and the data. */
  lemma RecordAfterName(data: Bytes, offset: nat, fuel: nat, r: Record, n: nat)
    requires ReadName(data, offset, fuel) == Decoded(r.name, n)
    requires n + 10 + |r.rdata| <= |data| && r.rdLength == |r.rdata|
    requires U16At(data, n) == r.rtype && U16At(data, n + 2) == r.rclass && U32At(data, n + 4) == r.ttl
    requires U16At(data, n + 8) == r.rdLength && data[n + 10..n + 10 + |r.rdata|] == r.rdata
    ensures ReadRecord(data, offset, fuel) == Success(Parsed(r, n + 10 + |r.rdata|))
  {
  }

  lemma {:induction false} RecordRoundTrip(data: Bytes, offset: nat, r: Record, w: Bytes, fuel: nat)
    requires ValidRecord(r) && w == WireRecord(r) && At(data, offset, w)
    ensures ReadRecord(data, offset, fuel) == Success(Parsed(r, offset + |w|))
  {
    RecordParts(data, offset, r, w);
    NameRoundTrip(data, offset, r.name, fuel);
    RecordAfterName(data, offset, fuel, r, offset + |WireName(r.name)|);
  }

  /** The question loop: one question, then the rest. */
  lemma QuestionsStep(data: Bytes, offset: nat, count: nat, fuel: nat, q: Question, next: nat, rest: seq<Question>, end: nat)
    requires offset <= |data| && count == |rest| + 1
    requires ReadQuestion(data, offset, fuel) == Success(Parsed(q, next))
    requires next <= |data| && ReadQuestions(data, next, |rest|, fuel) == Success(Parsed(rest, end))
    ensures ReadQuestions(data, offset, count, fuel) == Success(Parsed([q] + rest, end))
  {
  }

  /** A record loop: one record, then the rest. */
  lemma RecordsStep(data: Bytes, offset: nat, count: nat, fuel: nat, r: Record, next: nat, rest: seq<Record>, end: nat)
    requires offset <= |data| && count == |rest| + 1
    requires ReadRecord(data, offset, fuel) == Success(Parsed(r, next))
    requires next <= |data| && ReadRecords(data, next, |rest|, fuel) == Success(Parsed(rest, end))
    ensures ReadRecords(data, offset, count, fuel) == Success(Parsed([r] + rest, end))
  {
  }

  /** The encoded questions, one piece each. */
  function QuestionWires(qs: seq<Question>): (ws: seq<Bytes>)
    ensures |ws| == |qs|
    decreases |qs|
  {
    if qs == [] then [] else [WireQuestion(qs[0])] + QuestionWires(qs[1..])
  }

  /** The encoded records, one piece each. */
  function RecordWires(rs: seq<Record>): (ws: seq<Bytes>)
    ensures |ws| == |rs|
    decreases |rs|
  {
    if rs == [] then [] else [WireRecord(rs[0])] + RecordWires(rs[1..])
  }

  lemma QuestionWiresFirst(qs: seq<Question>)
    requires qs != []
    ensures QuestionWires(qs)[0] == WireQuestion(qs[0]) && QuestionWires(qs)[1..] == QuestionWires(qs[1..])
  {
  }

  lemma RecordWiresFirst(rs: seq<Record>)
    requires rs != []
    ensures RecordWires(rs)[0] == WireRecord(rs[0]) && RecordWires(rs)[1..] == RecordWires(rs[1..])
  {
  }

  lemma {:induction false} WireQuestionsConcat(qs: seq<Question>)
    ensures WireQuestions(qs) == Concat(QuestionWires(qs))
    decreases |qs|
  {
    if qs != [] {
      var ws := QuestionWires(qs);
      assert ws[1..] == QuestionWires(qs[1..]);
      WireQuestionsConcat(qs[1..]);
    }
  }

  lemma {:induction false} WireRecordsConcat(rs: seq<Record>)
    ensures WireRecords(rs) == Concat(RecordWires(rs))
    decreases |rs|
  {
    if rs != [] {
      var ws := RecordWires(rs);
      assert ws[1..] == RecordWires(rs[1..]);
      WireRecordsConcat(rs[1..]);
    }
  }

  /** Each of `qs`, in order, is what `ReadQuestion` finds from `offset`,
      the last one ending at `end`. */
  predicate QuestionsEach(data: Bytes, offset: nat, qs: seq<Question>, end: nat, fuel: nat)
    decreases |qs|
  {
    if qs == [] then offset == end && end <= |data|
    else
      var r := ReadQuestion(data, offset, fuel);
      r.Success? && r.value.value == qs[0] && QuestionsEach(data, r.value.next, qs[1..], end, fuel)
  }

  /** Each of `rs`, in order, is what `ReadRecord` finds from `offset`, the
      last one ending at `end`. */
  predicate RecordsEach(data: Bytes, offset: nat, rs: seq<Record>, end: nat, fuel: nat)
    decreases |rs|
  {
    if rs == [] then offset == end && end <= |data|
    else
      var r := ReadRecord(data, offset, fuel);
      r.Success? && r.value.value == rs[0] && RecordsEach(data, r.value.next, rs[1..], end, fuel)
  }

  /** `ws` holds the encodings of the questions of `qs`, each of them valid. */
  predicate QuestionsEncoded(qs: seq<Question>, ws: seq<Bytes>)
  {
    && |ws| == |qs|
    && forall i {:trigger WireQuestion(qs[i])} | 0 <= i < |qs| :: ValidQuestion(qs[i]) && ws[i] == WireQuestion(qs[i])
  }

  lemma {:induction false} QuestionsEncodedWires(qs: seq<Question>)
    requires ValidQuestions(qs)
    ensures QuestionsEncoded(qs, QuestionWires(qs))
    decreases |qs|
  {
    if qs != [] {
      QuestionsEncodedWires(qs[1..]);
      var ws := QuestionWires(qs);
      QuestionWiresFirst(qs);
      forall i | 0 <= i < |qs|
        ensures ValidQuestion(qs[i]) && ws[i] == WireQuestion(qs[i])
      {
        if i > 0 {
          assert qs[i] == qs[1..][i - 1];
          assert WireQuestion(qs[1..][i - 1]) == QuestionWires(qs[1..])[i - 1];
        }
      }
    }
  }

  lemma QuestionsEncodedRest(qs: seq<Question>, ws: seq<Bytes>)
    requires qs != [] && QuestionsEncoded(qs, ws)
    ensures QuestionsEncoded(qs[1..], ws[1..])
  {
    forall i | 0 <= i < |qs| - 1
      ensures ValidQuestion(qs[1..][i]) && ws[1..][i] == WireQuestion(qs[1..][i])
    {
      assert qs[1..][i] == qs[i + 1];
      assert WireQuestion(qs[i + 1]) == ws[i + 1];
    }
  }

  /** One encoded question, then questions that each read back. */
  lemma {:induction false} QuestionEachThen(data: Bytes, offset: nat, qs: seq<Question>, ws: seq<Bytes>, end: nat, fuel: nat)
    requires qs != [] && QuestionsEncoded(qs, ws) && Run(data, offset, ws, end)
    requires QuestionsEach(data, offset + |ws[0]|, qs[1..], end, fuel)
    ensures QuestionsEach(data, offset, qs, end, fuel)
  {
    RunFirst(data, offset, ws, end);
    assert ValidQuestion(qs[0]) && ws[0] == WireQuestion(qs[0]);
    QuestionRoundTrip(data, offset, qs[0], ws[0], fuel);
  }

  /** Encoded questions one after the other each read back. */
  lemma {:induction false} QuestionPiecesEach(data: Bytes, offset: nat, qs: seq<Question>, ws: seq<Bytes>, end: nat, fuel: nat)
    requires QuestionsEncoded(qs, ws) && Run(data, offset, ws, end)
    ensures QuestionsEach(data, offset, qs, end, fuel)
    decreases |qs|
  {
    if qs != [] {
      QuestionsEncodedRest(qs, ws);
      QuestionPiecesEach(data, offset + |ws[0]|, qs[1..], ws[1..], end, fuel);
      QuestionEachThen(data, offset, qs, ws, end, fuel);
    }
  }

  /** `ws` holds the encodings of the records of `rs`, each of them valid. */
  predicate RecordsEncoded(rs: seq<Record>, ws: seq<Bytes>)
  {
    && |ws| == |rs|
    && forall i {:trigger WireRecord(rs[i])} | 0 <= i < |rs| :: ValidRecord(rs[i]) && ws[i] == WireRecord(rs[i])
  }

  lemma {:induction false} RecordsEncodedWires(rs: seq<Record>)
    requires ValidRecords(rs)
    ensures RecordsEncoded(rs, RecordWires(rs))
    decreases |rs|
  {
    if rs != [] {
      RecordsEncodedWires(rs[1..]);
      var ws := RecordWires(rs);
      RecordWiresFirst(rs);
      forall i | 0 <= i < |rs|
        ensures ValidRecord(rs[i]) && ws[i] == WireRecord(rs[i])
      {
        if i > 0 {
          assert rs[i] == rs[1..][i - 1];
          assert WireRecord(rs[1..][i - 1]) == RecordWires(rs[1..])[i - 1];
        }
      }
    }
  }

  lemma RecordsEncodedRest(rs: seq<Record>, ws: seq<Bytes>)
    requires rs != [] && RecordsEncoded(rs, ws)
    ensures RecordsEncoded(rs[1..], ws[1..])
  {
    forall i | 0 <= i < |rs| - 1
      ensures ValidRecord(rs[1..][i]) && ws[1..][i] == WireRecord(rs[1..][i])
    {
      assert rs[1..][i] == rs[i + 1];
      assert WireRecord(rs[i + 1]) == ws[i + 1];
    }
  }

  /** One encoded record, then records that each read back. */
  lemma {:induction false} RecordEachThen(data: Bytes, offset: nat, rs: seq<Record>, ws: seq<Bytes>, end: nat, fuel: nat)
    requires rs != [] && RecordsEncoded(rs, ws) && Run(data, offset, ws, end)
    requires RecordsEach(data, offset + |ws[0]|, rs[1..], end, fuel)
    ensures RecordsEach(data, offset, rs, end, fuel)
  {
    RunFirst(data, offset, ws, end);
    assert ValidRecord(rs[0]) && ws[0] == WireRecord(rs[0]);
    RecordRoundTrip(data, offset, rs[0], ws[0], fuel);
  }

  /** Encoded records one after the other each read back. */
  lemma {:induction false} RecordPiecesEach(data: Bytes, offset: nat, rs: seq<Record>, ws: seq<Bytes>, end: nat, fuel: nat)
    requires RecordsEncoded(rs, ws) && Run(data, offset, ws, end)
    ensures RecordsEach(data, offset, rs, end, fuel)
    decreases |rs|
  {
    if rs != [] {
      RecordsEncodedRest(rs, ws);
      RecordPiecesEach(data, offset + |ws[0]|, rs[1..], ws[1..], end, fuel);
      RecordEachThen(data, offset, rs, ws, end, fuel);
    }
  }

  /** The question loop reads questions that each read back, in order. */
  lemma {:induction false} QuestionsEachRead(data: Bytes, offset: nat, qs: seq<Question>, end: nat, fuel: nat)
    requires offset <= |data| && QuestionsEach(data, offset, qs, end, fuel)
    ensures ReadQuestions(data, offset, |qs|, fuel) == Success(Parsed(qs, end))
    decreases |qs|
  {
    if qs != [] {
      var next := ReadQuestion(data, offset, fuel).value.next;
      QuestionsEachRead(data, next, qs[1..], end, fuel);
      QuestionsStep(data, offset, |qs|, fuel, qs[0], next, qs[1..], end);
      FirstRest(qs);
    }
  }

  /** A record loop reads records that each read back, in order. */
  lemma {:induction false} RecordsEachRead(data: Bytes, offset: nat, rs: seq<Record>, end: nat, fuel: nat)
    requires offset <= |data| && RecordsEach(data, offset, rs, end, fuel)
    ensures ReadRecords(data, offset, |rs|, fuel) == Success(Parsed(rs, end))
    decreases |rs|
  {
    if rs != [] {
      var next := ReadRecord(data, offset, fuel).value.next;
      RecordsEachRead(data, next, rs[1..], end, fuel);
      RecordsStep(data, offset, |rs|, fuel, rs[0], next, rs[1..], end);
      FirstRest(rs);
    }
  }

  /** The question loop reads back encoded questions laid one after the
      other. */
  lemma QuestionsSection(data: Bytes, offset: nat, qs: seq<Question>, ws: seq<Bytes>, end: nat, fuel: nat)
    requires offset <= |data| && QuestionsEncoded(qs, ws) && Run(data, offset, ws, end)
    ensures ReadQuestions(data, offset, |qs|, fuel) == Success(Parsed(qs, end))
  {
    QuestionPiecesEach(data, offset, qs, ws, end, fuel);
    QuestionsEachRead(data, offset, qs, end, fuel);
  }

  /** A record loop reads back encoded records laid one after the other. */
  lemma RecordsSection(data: Bytes, offset: nat, rs: seq<Record>, ws: seq<Bytes>, end: nat, fuel: nat)
    requires offset <= |data| && RecordsEncoded(rs, ws) && Run(data, offset, ws, end)
    ensures ReadRecords(data, offset, |rs|, fuel) == Success(Parsed(rs, end))
  {
    RecordPiecesEach(data, offset, rs, ws, end, fuel);
    RecordsEachRead(data, offset, rs, end, fuel);
  }

  /** Encodings of valid questions, one piece per question, that make up
      `WireQuestions`. */
  lemma QuestionsEncoding(qs: seq<Question>) returns (ws: seq<Bytes>)
    requires ValidQuestions(qs)
    ensures QuestionsEncoded(qs, ws) && Concat(ws) == WireQuestions(qs)
  {
    ws := QuestionWires(qs);
    QuestionsEncodedWires(qs);
    WireQuestionsConcat(qs);
  }

  /** Encodings of valid records, one piece per record, that make up
      `WireRecords`. */
  lemma RecordsEncoding(rs: seq<Record>) returns (ws: seq<Bytes>)
    requires ValidRecords(rs)
    ensures RecordsEncoded(rs, ws) && Concat(ws) == WireRecords(rs)
  {
    ws := RecordWires(rs);
    RecordsEncodedWires(rs);
    WireRecordsConcat(rs);
  }

  /** `ParseDNSMessage` succeeds when each of its sections does, one after
      the other. */
  lemma SectionsStep(data: Bytes, fuel: nat, m: Message, start: nat, q: nat, an: nat, ns: nat, end: nat)
    requires |data| >= HEADER_SIZE && ReadHeader(data) == m.header && CountsMatch(m) && start == HEADER_SIZE
    requires ReadQuestions(data, start, |m.questions|, fuel) == Success(Parsed(m.questions, q))
    requires q <= |data| && ReadRecords(data, q, |m.answers|, fuel) == Success(Parsed(m.answers, an))
    requires an <= |data| && ReadRecords(data, an, |m.authority|, fuel) == Success(Parsed(m.authority, ns))
    requires ns <= |data| && ReadRecords(data, ns, |m.additional|, fuel) == Success(Parsed(m.additional, end))
    ensures ReadSections(data, fuel) == Success(Parsed(m, end))
  {
  }

  /** A buffer holding a message's header and then, piece by piece, the
      encodings of its questions and records parses to that message,
      stopping after the last record. */
  lemma {:induction false} SectionsRoundTrip(data: Bytes, m: Message, fuel: nat, qws: seq<Bytes>, aws: seq<Bytes>,
                                             nws: seq<Bytes>, rws: seq<Bytes>, q: nat, an: nat, ns: nat, end: nat)
    requires CountsMatch(m) && QuestionsEncoded(m.questions, qws) && RecordsEncoded(m.answers, aws)
    requires RecordsEncoded(m.authority, nws) && RecordsEncoded(m.additional, rws)
    requires Placed(data, 0, WireHeader(m.header)) && Run(data, HEADER_SIZE, qws, q)
    requires Run(data, q, aws, an) && Run(data, an, nws, ns) && Run(data, ns, rws, end) && |data| == end
    ensures ReadSections(data, fuel) == Success(Parsed(m, |data|))
  {
    HeaderRoundTrip(data, m.header);
    QuestionsSection(data, HEADER_SIZE, m.questions, qws, q, fuel);
    RecordsSection(data, q, m.answers, aws, an, fuel);
    RecordsSection(data, an, m.authority, nws, ns, fuel);
    RecordsSection(data, ns, m.additional, rws, end, fuel);
    SectionsStep(data, fuel, m, HEADER_SIZE, q, an, ns, end);
  }

  /** `ParseDNSMessage(msg.Pack())` gives `msg` back, consuming every byte,
      for any consistent message and any fuel: an encoded name holds no
      pointer. */
  lemma {:induction false} PackParseRoundTrip(m: Message, fuel: nat)
    requires Consistent(m)
    ensures ReadSections(WireMessage(m), fuel) == Success(Parsed(m, |WireMessage(m)|))
    ensures ReadMessage(WireMessage(m), fuel) == Success(m)
  {
    var qws := QuestionsEncoding(m.questions);
    var aws := RecordsEncoding(m.answers);
    var nws := RecordsEncoding(m.authority);
    var rws := RecordsEncoding(m.additional);
    var h := WireHeader(m.header);
    var q := HEADER_SIZE + |Concat(qws)|;
    var an := q + |Concat(aws)|;
    var ns := an + |Concat(nws)|;
    var end := ns + |Concat(rws)|;
    FivePieces(h, qws, aws, nws, rws, HEADER_SIZE, q, an, ns, end);
    SectionsRoundTrip(h + Concat(qws) + Concat(aws) + Concat(nws) + Concat(rws), m, fuel, qws, aws, nws, rws, q, an, ns, end);
  }

  lemma ReadQuestionExtends(data: Bytes, more: Bytes, offset: nat, fuel: nat)
    requires ReadQuestion(data, offset, fuel).Success?
    ensures ReadQuestion(data + more, offset, fuel) == ReadQuestion(data, offset, fuel)
  {
    ReadNameExtends(data, more, offset, fuel);
  }

  lemma ReadRecordExtends(data: Bytes, more: Bytes, offset: nat, fuel: nat)
    requires ReadRecord(data, offset, fuel).Success?
    ensures ReadRecord(data + more, offset, fuel) == ReadRecord(data, offset, fuel)
  {
    ReadNameExtends(data, more, offset, fuel);
    var next := ReadName(data, offset, fuel).next;
    var end := ReadRecord(data, offset, fuel).value.next;
    assert (data + more)[next + 10..end] == data[next + 10..end];
  }

  lemma {:induction false} ReadQuestionsExtends(data: Bytes, more: Bytes, offset: nat, count: nat, fuel: nat)
    requires offset <= |data| && ReadQuestions(data, offset, count, fuel).Success?
    ensures ReadQuestions(data + more, offset, count, fuel) == ReadQuestions(data, offset, count, fuel)
    decreases count
  {
    if count > 0 {
      ReadQuestionExtends(data, more, offset, fuel);
      ReadQuestionsExtends(data, more, ReadQuestion(data, offset, fuel).value.next, count - 1, fuel);
    }
  }

  lemma {:induction false} ReadRecordsExtends(data: Bytes, more: Bytes, offset: nat, count: nat, fuel: nat)
    requires offset <= |data| && ReadRecords(data, offset, count, fuel).Success?
    ensures ReadRecords(data + more, offset, count, fuel) == ReadRecords(data, offset, count, fuel)
    decreases count
  {
    if count > 0 {
      ReadRecordExtends(data, more, offset, fuel);
      ReadRecordsExtends(data, more, ReadRecord(data, offset, fuel).value.next, count - 1, fuel);
    }
  }

  /** The offsets where a successful parse finished each section. */
  lemma SectionsParts(data: Bytes, fuel: nat) returns (q: nat, an: nat, ns: nat)
    requires ReadSections(data, fuel).Success?
    ensures var m := ReadSections(data, fuel).value.value;
      && ReadQuestions(data, HEADER_SIZE, |m.questions|, fuel) == Success(Parsed(m.questions, q))
      && q <= |data| && ReadRecords(data, q, |m.answers|, fuel) == Success(Parsed(m.answers, an))
      && an <= |data| && ReadRecords(data, an, |m.authority|, fuel) == Success(Parsed(m.authority, ns))
      && ns <= |data|
      && ReadRecords(data, ns, |m.additional|, fuel) == Success(Parsed(m.additional, ReadSections(data, fuel).value.next))
  {
    var h := ReadHeader(data);
    q := ReadQuestions(data, HEADER_SIZE, h.qdCount, fuel).value.next;
    an := ReadRecords(data, q, h.anCount, fuel).value.next;
    ns := ReadRecords(data, an, h.nsCount, fuel).value.next;
  }

  lemma HeaderExtends(data: Bytes, more: Bytes)
    requires |data| >= HEADER_SIZE
    ensures |data + more| >= HEADER_SIZE && ReadHeader(data + more) == ReadHeader(data)
  {
    assert (data + more)[..HEADER_SIZE] == data[..HEADER_SIZE];
  }

  /** A message that parses parses the same, stopping at the same offset,
      whatever bytes follow it. */
  lemma {:induction false} ReadSectionsExtends(data: Bytes, more: Bytes, fuel: nat)
    requires ReadSections(data, fuel).Success?
    ensures ReadSections(data + more, fuel) == ReadSections(data, fuel)
  {
    var m := ReadSections(data, fuel).value.value;
    var q, an, ns := SectionsParts(data, fuel);
    HeaderExtends(data, more);
    ReadQuestionsExtends(data, more, HEADER_SIZE, |m.questions|, fuel);
    ReadRecordsExtends(data, more, q, |m.answers|, fuel);
    ReadRecordsExtends(data, more, an, |m.authority|, fuel);
    ReadRecordsExtends(data, more, ns, |m.additional|, fuel);
    SectionsStep(data + more, fuel, m, HEADER_SIZE, q, an, ns, ReadSections(data, fuel).value.next);
  }

  /** Bytes after the last record are ignored. */
  lemma TrailingBytesIgnored(data: Bytes, more: Bytes, fuel: nat)
    requires ReadMessage(data, fuel).Success?
    ensures ReadMessage(data + more, fuel) == ReadMessage(data, fuel)
  {
    ReadSectionsExtends(data, more, fuel);
  }

  /** A parse that consumes the whole buffer fails on every proper
      prefix of it. */
  lemma {:induction false} ConsumedPrefixFails(data: Bytes, k: nat, fuel: nat)
    requires k < |data| && ReadSections(data, fuel).Success? && ReadSections(data, fuel).value.next == |data|
    ensures ReadMessage(data[..k], fuel).Failure?
  {
    TakeDrop(data, k);
    if ReadSections(data[..k], fuel).Success? {
      ReadSectionsExtends(data[..k], data[k..], fuel);
    }
  }

  /** Cutting a packed consistent message short anywhere makes the parse
      fail: no prefix is itself a complete message. */
  lemma TruncatedMessageFails(m: Message, k: nat, fuel: nat)
    requires Consistent(m) && k < |WireMessage(m)|
    ensures ReadMessage(WireMessage(m)[..k], fuel).Failure?
  {
    PackParseRoundTrip(m, fuel);
    ConsumedPrefixFails(WireMessage(m), k, fuel);
  }

  /** Records announced past the end of the buffer are never there. */
  lemma RecordsPastEndFail(data: Bytes, count: nat, fuel: nat)
    requires count > 0
    ensures ReadRecords(data, |data|, count, fuel).Failure?
  {
  }

  /** `ParseDNSMessage` fails when its additional section does, after the
      sections before it were read. */
  lemma SectionsFailInAdditional(data: Bytes, fuel: nat, m: Message, q: nat, an: nat, ns: nat)
    requires |data| >= HEADER_SIZE && ReadHeader(data) == m.header
    requires ReadQuestions(data, HEADER_SIZE, m.header.qdCount, fuel) == Success(Parsed(m.questions, q))
    requires q <= |data| && ReadRecords(data, q, m.header.anCount, fuel) == Success(Parsed(m.answers, an))
    requires an <= |data| && ReadRecords(data, an, m.header.nsCount, fuel) == Success(Parsed(m.authority, ns))
    requires ns <= |data| && ReadRecords(data, ns, m.header.arCount, fuel).Failure?
    ensures ReadMessage(data, fuel).Failure?
  {
  }

  /** A packed message whose header announces additional records that its
      body does not hold never parses: the additional section runs past the
      end of the buffer. */
  lemma {:induction false} MissingAdditionalFails(m: Message, fuel: nat)
    requires m.header.qdCount == |m.questions| && m.header.anCount == |m.answers|
    requires m.header.nsCount == |m.authority| && m.additional == [] && m.header.arCount > 0
    requires ValidQuestions(m.questions) && ValidRecords(m.answers) && ValidRecords(m.authority)
    ensures ReadMessage(WireMessage(m), fuel).Failure?
  {
    var qws := QuestionsEncoding(m.questions);
    var aws := RecordsEncoding(m.answers);
    var nws := RecordsEncoding(m.authority);
    var rws := RecordsEncoding(m.additional);
    var h := WireHeader(m.header);
    var q := HEADER_SIZE + |Concat(qws)|;
    var an := q + |Concat(aws)|;
    var ns := an + |Concat(nws)|;
    var end := ns + |Concat(rws)|;
    FivePieces(h, qws, aws, nws, rws, HEADER_SIZE, q, an, ns, end);
    var data := h + Concat(qws) + Concat(aws) + Concat(nws) + Concat(rws);
    HeaderRoundTrip(data, m.header);
    QuestionsSection(data, HEADER_SIZE, m.questions, qws, q, fuel);
    RecordsSection(data, q, m.answers, aws, an, fuel);
    RecordsSection(data, an, m.authority, nws, ns, fuel);
    RecordsPastEndFail(data, m.header.arCount, fuel);
    SectionsFailInAdditional(data, fuel, m, q, an, ns);
  }

  /** The question of `LoopingQuery` points into itself, so its parse
      fails at the question section whatever the fuel; the source
      recurses without end on it. */
  lemma LoopingQueryNeverParses(fuel: nat)
    ensures ReadMessage(LoopingQuery(), fuel) == Failure(QuestionName(OutOfFuel))
  {
    var data := LoopingQuery();
    assert ReadHeader(data).qdCount == 1;
    SelfReferenceExhaustsFuel(fuel);
    assert ReadQuestions(data, HEADER_SIZE, 1, fuel) == Failure(QuestionName(OutOfFuel));
  }

  lemma ReadQuestionSettles(data: Bytes, offset: nat, fuel: nat)
    requires fuel >= |data|
    ensures ReadQuestion(data, offset, fuel) == ReadQuestion(data, offset, |data|)
  {
    BufferLengthFuelDecides(data, offset, fuel);
  }

  lemma ReadRecordSettles(data: Bytes, offset: nat, fuel: nat)
    requires fuel >= |data|
    ensures ReadRecord(data, offset, fuel) == ReadRecord(data, offset, |data|)
  {
    BufferLengthFuelDecides(data, offset, fuel);
  }

  lemma {:induction false} ReadQuestionsSettles(data: Bytes, offset: nat, count: nat, fuel: nat)
    requires offset <= |data| && fuel >= |data|
    ensures ReadQuestions(data, offset, count, fuel) == ReadQuestions(data, offset, count, |data|)
    decreases count
  {
    if count > 0 {
      ReadQuestionSettles(data, offset, fuel);
      var q := ReadQuestion(data, offset, fuel);
      if q.Success? {
        ReadQuestionsSettles(data, q.value.next, count - 1, fuel);
      }
    }
  }

  lemma {:induction false} ReadRecordsSettles(data: Bytes, offset: nat, count: nat, fuel: nat)
    requires offset <= |data| && fuel >= |data|
    ensures ReadRecords(data, offset, count, fuel) == ReadRecords(data, offset, count, |data|)
    decreases count
  {
    if count > 0 {
      ReadRecordSettles(data, offset, fuel);
      var r := ReadRecord(data, offset, fuel);
      if r.Success? {
        ReadRecordsSettles(data, r.value.next, count - 1, fuel);
      }
    }
  }

  /** Fuel equal to the buffer length decides the parse: every larger fuel
      gives the same result. So a parse that runs out of that fuel runs out
      of every fuel, and the source's parser never returns on that buffer;
      any other result is the one the source returns. */
  lemma {:induction false} ParseFuelSettles(data: Bytes, fuel: nat)
    requires fuel >= |data|
    ensures ReadSections(data, fuel) == ReadSections(data, |data|)
    ensures ReadMessage(data, fuel) == ReadMessage(data, |data|)
  {
    if |data| >= HEADER_SIZE {
      var h := ReadHeader(data);
      ReadQuestionsSettles(data, HEADER_SIZE, h.qdCount, fuel);
      var qs := ReadQuestions(data, HEADER_SIZE, h.qdCount, fuel);
      if qs.Success? {
        ReadRecordsSettles(data, qs.value.next, h.anCount, fuel);
        var an := ReadRecords(data, qs.value.next, h.anCount, fuel);
        if an.Success? {
          ReadRecordsSettles(data, an.value.next, h.nsCount, fuel);
          var ns := ReadRecords(data, an.value.next, h.nsCount, fuel);
          if ns.Success? {
            ReadRecordsSettles(data, ns.value.next, h.arCount, fuel);
          }
        }
      }
    }
  }
}
