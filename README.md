# GoDNS codec and forwarder in Dafny

GoDNS is a small DNS forwarder written in Go. This project models two parts of it.

- The wire-format codec of `dns/message.go`:
  - the header, question, resource-record and message structs;
  - `encodeDomainName` and `decodeDomainName`, which handle length-prefixed labels and compression pointers (sections 3.1 and 4.1.4 of RFC 1035);
  - `Pack`;
  - `ParseDNSMessage` with `parseRecord` (sections 4.1.1 to 4.1.3 of RFC 1035).
- The decision logic of the forwarder in `dns/server.go`:
  - `NewDNSServer`;
  - the running flag of `Start` and `Stop`;
  - `forwardQuery` reduced to "parse what came back";
  - the per-datagram decisions of `handleQuery`;
  - `createErrorResponse`.

Files:

- `wrappers.dfy`: `Option` and `Result`.
- `bytes.dfy`: bytes, the big-endian 16- and 32-bit words, and a predicate `At` that says which bytes sit at which offset.
- `names.dfy` (module `DomainNames`): the domain-name encoder and decoder.
- `message.dfy` (module `Message`): the structs, `Pack`, `ParseDNSMessage`, `parseRecord` and the round-trip properties.
- `server.dfy` (module `Server`): the `DNSServer` class and the reply decision.

How the model is built:

- Each Go function that builds its result step by step is an imperative method: `EncodeDomainName`, `DecodeDomainName`, `Pack`, `ParseRecord`, `ParseDNSMessage` and `HandleQuery`. Its `ensures` ties it to a specification function (`WireName`, `ReadName`, `WireMessage`, `ReadRecord`, `ReadMessage`, `Reply`), and the properties are proved about those functions.
- `Start` and `Stop` update the server object's fields. Their `ensures` state each field's new value directly, and both keep the invariant `Valid`: the server is running exactly when it holds an open socket.
- A Go string is a byte sequence, so a domain name is a `seq<uint8>`.
- `decodeDomainName` follows a compression pointer by calling itself, and nothing in the Go code bounds that recursion.
  - The model gives the decoder a `fuel` argument. Each pointer hop costs one unit.
  - Running out of fuel is an extra error, `OutOfFuel`, which the Go code never returns: it stands for the non-terminating recursion.
  - `FuelSuffices` and `BufferLengthFuelSuffices` show that fuel equal to the buffer length is enough whenever every pointer in the chain goes strictly back past the start of the name that holds it.
  - `FuelMonotone` shows that more fuel never changes an answer that was already reached.
  - `BufferLengthFuelDecides` shows that fuel equal to the buffer length decides every decode, with no condition on the pointers. A decode that runs out of that fuel runs out of every fuel, so the Go recursion never ends on it. Any other result is the one every larger fuel gives, which is what the Go code returns. The proof is a pigeonhole argument: the names decoded one after another start at offsets inside the buffer, so a chain longer than the buffer revisits a start and goes round for ever (`ExhaustedHops`, `HopsForever`).
  - `ParseDNSMessage` takes the same fuel for every name it reads. `ParseFuelSettles` lifts the result above to whole messages: with fuel equal to the buffer length, the parse either gives what the Go code gives or fails with `RanOutOfFuel`, and then the Go parser never returns.
  - The server parses a query with fuel equal to the query's length, and an upstream reply with fuel equal to the length of the received buffer. By the two lemmas above, this fuel decides every datagram.

Notes on the source:

- **Header counts are not recomputed.** `Pack` writes the header as it stands (`WireHeader`, `PackKeepsHeader`), whatever the sections hold. It writes `RDLength` and `RData` independently of each other. So the round trip `PackParseRoundTrip` needs `Consistent`: every count equals its section's length, every name is valid, and every `RDLength` is the length of its `RData`.
- **Label lengths are not validated.** The encoder writes `byte(len(label))`, which wraps at 256.
  - A 256-byte label starts with a zero byte and decodes to the empty name (`LongLabelWraps`).
  - An empty label in `"a..b"` writes an interior zero byte, which ends the name: it decodes to `"a"` (`EmptyLabelEndsName`).
  - The round trips therefore require labels of 1 to 63 bytes (`ValidName`).
- **`""` and `"."` are not told apart.** Both encode to the single root byte, which decodes to `""` (`RootAndEmptyCollide`). The `"."` branch of the decoder's loop cannot be reached: the first length byte was already checked to be non-zero, and every later pass follows a label of at least one byte.
- **The decoder's loop check cannot fire.** The `visited` map is created anew in every call and the call returns right after its one pointer. So the loop check in dns/message.go:107-110 never fires, and it is not modelled.
  - A question whose name is label `a` at offset 12 followed by a pointer back to 12 makes the decoder call itself without end (`SelfReferenceExhaustsFuel`).
  - In Go, the goroutine's stack then overflows. That is a fatal runtime error, which no `recover` catches, so the whole process exits and sends nothing.
  - The model's `handleQuery` has a third outcome, `Crashed`, for this case, beside dropping and answering. It covers a query that never parses (`LoopingQueryCrashes`) and an upstream reply that never parses (`LoopingReplyCrashes`). On `Crashed`, `HandleQuery` sends nothing and the server stops serving.
- **The error flags mean Name Error.** The comment on `createErrorResponse` says its flags mean "server failure". In fact `0x8183` sets QR, RD and RA (`0x0080`), and RCODE `0x8183 & 0xF` is 3, Name Error (section 4.1.1 of RFC 1035). `CreateErrorResponse` states the flags as they are.
- **`createErrorResponse` reads a field that does not exist.** It copies `msg.Question`, which the `DNSMessage` struct lacks (it has `Questions`). The model copies `Questions`, which is evidently what was meant.
- **`handleQuery` sets `ARCount` to 1 without adding a record.** This changes what the server sends.
  - An error reply, or a relayed reply that has no additional record, announces a record it does not hold. The codec's own parser rejects it under two conditions.
    - For the error reply, the query's question names must be valid, with labels of 1 to 63 bytes (`ErrorReplyUnparsable`).
    - For the relay, the upstream reply must be the packing of a `Consistent` message of at most 1024 bytes (`RelayWithoutAdditionalUnparsable`).
    - Without these conditions, the repacked questions can be read differently. A 15-byte label that starts with a dot is split at the dot when packed, so it is written back as an empty label, which ends the name. The bytes after it are then read as the announced record, and the reply parses.
  - `TransparentRelay` covers an upstream reply that is the packed form of a `Consistent` message and fits the 1024-byte buffer. For such a reply, the relay is byte-identical exactly when the reply already carries the query's ID and an `ARCount` of 1.
  - Outside that condition, byte identity can fail even when the ID and `ARCount` already match. `Pack` never compresses, so a reply that names a record through a compression pointer is relayed with a different length. In the example of `CompressedReplyNotTransparent`, the pointer stands for a one-label name and the relay is one byte longer.
  - dns/server_test.go:71 expects a byte-identical relay. Its mock reply (dns/server_test.go:43) fails both conditions: it has `ARCount` 0, and its `RDLength` is 0 while its `RData` holds 4 bytes, so it is not `Consistent`.

## Model

| member | source | states |
|---|---|---|
| DomainNames.SplitLabels | dns/message.go:67-69 | `strings.Split` on "." always yields at least one piece, and no piece contains a dot |
| DomainNames.JoinSplit | dns/message.go:67-69 | joining the split pieces with "." gives the name back |
| DomainNames.EncodeDomainName | dns/message.go:52-75 | the label loop builds exactly `WireName(domain)`: "" and "." give the root byte; otherwise one trailing dot is trimmed and each label is written as `byte(len)` then its bytes, then a final 0 |
| DomainNames.WireNameShape | dns/message.go:52-75 | "" and "." encode to `[0]`; any other name encodes to its trimmed length plus 2 bytes; the last byte is always 0 |
| DomainNames.SplitWireLength | dns/message.go:61-74 | the labels of a name cost its length plus one byte |
| DomainNames.ValidNameWire | dns/message.go:52-75 | a valid non-empty name is encoded as its length-prefixed labels and the root byte; the first byte is the first label's length |
| DomainNames.ReadName | dns/message.go:79-146 | a failure carries the start offset; a success ends strictly after the start and within the buffer |
| DomainNames.DecodeDomainName | dns/message.go:79-146 | the cursor loop (`DecodeLabels`, whose invariant is `ReadLabels`), with a recursive call per pointer, returns exactly `ReadName(data, start, fuel)` |
| DomainNames.FollowPointer | dns/message.go:101-126 | the pointer branch (missing second byte, forward pointer, recursive decode and join) returns what the specification's pointer branch returns |
| DomainNames.NameRoundTrip | dns/message.go:52-146 | wherever a valid name's encoding sits in a buffer, decoding there gives the name and the offset just past it, for any fuel |
| DomainNames.CompressedNameRead | dns/message.go:101-134 | labels followed by a pointer to an earlier offset decode to the labels, a dot and the target's name, and the cursor ends two bytes past the pointer |
| DomainNames.RootAndEmptyCollide | dns/message.go:56-90 | "" and "." both encode to `[0]`, which decodes to "" |
| DomainNames.SelfReferenceExhaustsFuel | dns/message.go:101-116 | a name whose pointer targets the name's own start passes the `pointer >= offset` guard and never decodes, whatever the fuel |
| DomainNames.FuelSuffices | dns/message.go:112-116 | if every pointer goes strictly back past the start of its name, fuel equal to the start offset never runs out |
| DomainNames.BufferLengthFuelSuffices | dns/message.go:112-116 | under the same condition, fuel equal to the buffer length never runs out |
| DomainNames.FuelMonotone | dns/message.go:79-146 | once a decode reaches a result of the source's own, more fuel gives the same result |
| DomainNames.ExhaustedHops | dns/message.go:101-126 | a decode runs out of fuel exactly when one more recursive call than the fuel pays for would follow, each through a pointer that passes the guards |
| DomainNames.HopsForever | dns/message.go:112-116 | a chain of recursive calls longer than the buffer goes on for ever |
| DomainNames.BufferLengthFuelDecides | dns/message.go:79-146 | a decode that runs out of fuel equal to the buffer length runs out of every fuel, which is where the source never returns; any other result stays the same for every larger fuel |
| DomainNames.ReadNameExtends | dns/message.go:79-146 | a successful decode is unchanged by bytes appended after the buffer |
| DomainNames.LongLabelWraps | dns/message.go:71 | a 256-byte label's length byte wraps to 0, so the name decodes as "" |
| DomainNames.EmptyLabelEndsName | dns/message.go:61-74 | "a..b" encodes to `1 a 0 1 b 0` and decodes to "a" |
| Message.WireHeader | dns/message.go:152 | the header is written as exactly 12 bytes |
| Message.HeaderRoundTrip | dns/message.go:194-207 | `ReadHeader`, the header parse, reads the six words back from bytes 0 to 11, in order, as written |
| Message.PackKeepsHeader | dns/message.go:148-152 | the packed bytes start with the header as given, counts not recomputed, whatever the sections hold |
| Message.WriteRecords | dns/message.go:162-189 | each record loop appends each record's name, type, class, TTL, `RDLength` and `RData` in turn |
| Message.Pack | dns/message.go:148-192 | the buffer ends up holding exactly `WireMessage(msg)`: header, questions, answers, authority, additional |
| Message.ReadQuestion | dns/message.go:212-230 | a question read ends after the start and within the buffer |
| Message.ReadRecord | dns/message.go:265-293 | a record read ends after the start and within the buffer, and its `RData` is exactly `RDLength` bytes |
| Message.ParseRecord | dns/message.go:265-293 | `parseRecord` returns exactly `ReadRecord`: name error, "truncated record" without 10 fixed bytes, "truncated rdata" without `RDLength` more bytes |
| Message.ReadQuestions | dns/message.go:212-230 | a successful question section holds exactly `count` questions and ends within the buffer |
| Message.ReadRecords | dns/message.go:233-260 | a successful record section holds exactly `count` records and ends within the buffer |
| Message.ParseRecords | dns/message.go:233-260 | each record loop returns exactly `ReadRecords`, the first failure ending it |
| Message.ReadSections | dns/message.go:194-263 | a successful parse ends within the buffer, its header is bytes 0 to 11, and every count equals its section's length |
| Message.ReadMessage | dns/message.go:194-263 | fewer than 12 bytes fail with "message too short"; a success has the header at bytes 0 to 11 and exactly the announced number of questions and records |
| Message.ParseDNSMessage | dns/message.go:194-263 | the header read and the four section loops return exactly `ReadMessage(data, fuel)`; any failure returns an error and no message |
| Message.QuestionRoundTrip | dns/message.go:212-230 | an encoded valid question reads back, ending just past its encoding |
| Message.RecordRoundTrip | dns/message.go:265-293 | an encoded valid record reads back, ending just past its encoding |
| Message.SectionsRoundTrip | dns/message.go:194-263 | a buffer holding the header and then each section's encodings parses to the message and stops at the end |
| Message.PackParseRoundTrip | dns/message.go:148-263 | for a consistent message, parsing what `Pack` wrote gives the message back and consumes every byte |
| Message.ReadSectionsExtends | dns/message.go:194-263 | a message that parses parses the same, stopping at the same offset, whatever follows |
| Message.TrailingBytesIgnored | dns/message.go:194-263 | bytes after the last record do not change the parse |
| Message.ConsumedPrefixFails | dns/message.go:194-263 | a parse that uses the whole buffer fails on every proper prefix of the buffer |
| Message.TruncatedMessageFails | dns/message.go:148-263 | a packed consistent message cut short anywhere fails to parse |
| Message.MissingAdditionalFails | dns/message.go:182-260 | a packed message that announces additional records but holds none fails to parse |
| Message.LoopingQueryNeverParses | dns/message.go:212-218 | the query whose name points into itself fails in the question section, whatever the fuel |
| Message.ParseFuelSettles | dns/message.go:194-263 | with fuel of at least the buffer length, the parse gives the same result as with fuel equal to it; so a parse that runs out there runs out for every fuel |
| Server.ForwarderOrDefault | dns/server.go:21-24 | the forwarder address is the given one, or "8.8.8.8:53" when it is empty; it is never empty |
| Server.DNSServer.constructor | dns/server.go:21-30 | a new server keeps the listen address, has the defaulted forwarder, holds no socket and is not running |
| Server.DNSServer.Start | dns/server.go:32-57 | a running server refuses with "already running" and changes nothing; a failed bind returns its error and changes nothing; a successful bind stores the socket and sets running |
| Server.DNSServer.Stop | dns/server.go:96-111 | a stopped server is left unchanged; otherwise running is cleared and the socket closed; so a repeated `Stop` is harmless |
| Server.Received | dns/server.go:153-160 | the reply buffer holds a prefix of at most 1024 bytes of the upstream datagram, all of it when it fits |
| Server.DNSServer.ForwardQuery | dns/server.go:130-161 | returns exactly `Forwarded(upstream)`: a failed resolve, dial, write or read passes through as that step's error; otherwise the received bytes are parsed, and a parse error is returned as `BadReply` |
| Server.CreateErrorResponse | dns/server.go:215-228 | ID, QDCount and questions are kept; there are no records and AN, NS and AR are 0; the flags are exactly `0x8183`, that is a response with RCODE 3 (Name Error) and RD and RA set; matching counts stay matching |
| Server.Reply | dns/server.go:163-200 | the process crashes exactly when the query's parse never returns, or the query is forwarded and the reply's parse never returns (`UpstreamHangs`); the datagram is dropped exactly when the query fails to parse otherwise or has its QR bit set (`IsResponse`); an answer echoes the query's ID with `ARCount` 1; on forward failure it is the error response, else every section is the upstream's |
| Server.DNSServer.HandleQuery | dns/server.go:163-212 | exactly one datagram, the packed answer, is sent to the peer when there is an answer and the socket is open; otherwise nothing is sent; on a crash the server stops serving, and otherwise the running flag and socket are unchanged |
| Server.ForwardedPacked | dns/server.go:153-160 | an upstream reply that packs a consistent message within the buffer size comes back as that message |
| Server.RelayedReply | dns/server.go:176-193 | the relayed reply is the upstream message with the query's ID and `ARCount` 1, everything else unchanged |
| Server.RewriteKeepsBytes | dns/server.go:187-200 | setting the ID and `ARCount` 1 leaves the packed bytes unchanged exactly when the header already had them |
| Server.TransparentRelay | dns/server.go:176-200 | for an upstream reply that packs a consistent message within 1024 bytes, the packed answer equals the upstream's bytes exactly when the upstream already had the query's ID and `ARCount` 1 |
| Server.CompressedReplyParses | dns/server.go:159-160 | a reply naming its record through a compression pointer parses, with the owner name read through the pointer |
| Server.CompressedReplyNotTransparent | dns/server.go:176-200 | that reply already has the query's ID and `ARCount` 1, yet the packed answer differs from it in length |
| Server.ErrorReplyUnparsable | dns/server.go:179-193 | for a query whose question names are valid (labels of 1 to 63 bytes), when forwarding fails without a crash there is a reply, and it fails to parse because it announces an additional record it lacks |
| Server.RelayWithoutAdditionalUnparsable | dns/server.go:184-193 | for an upstream reply that packs a `Consistent` message of at most 1024 bytes with no additional records, the relayed reply fails to parse once `ARCount` is 1 |
| Server.ExchangeFailureAnswered | dns/server.go:179-182 | a failed resolve, dial, write or read never crashes the process: a query that parses and is not a response gets the error response with its own ID and `ARCount` 1 |
| Server.LoopingQueryCrashes | dns/server.go:164-168 | the self-referencing query crashes the process, whatever the upstream does |
| Server.LoopingReplyCrashes | dns/server.go:179 | a self-referencing upstream reply to a query that is forwarded crashes the process |

## Left out

- Network I/O is not modelled:
  - UDP sockets, `ResolveUDPAddr`, `ListenUDP` and `DialUDP`;
  - read and write deadlines: the 100 ms poll and the 5 s upstream timeout.
- The outcomes of network calls are parameters instead:
  - `Start` takes the bind outcome;
  - `forwardQuery` takes the upstream exchange's outcome: the reply bytes, or the step that failed (resolve, dial, write or read) as an `ExchangeError`. A parse failure of the reply is not an exchange outcome: only `forwardQuery` itself produces `BadReply`;
  - `WriteToUDP` appends to the `sent` log.
- The `serve` receive loop, the goroutine per query, the mutex and the wait group are left out, and so are `isRunning` and `ListenAndServe`. The server is modelled single-threaded.
- `Server.DNSServer.HandleQuery`: a crash ends the whole Go process. The model only stops this server: it clears the running flag, closes the socket and sends nothing. Other goroutines and the process exit are not modelled.
- Log output is left out.
- Go error values that are always nil are left out: `Pack`'s and `Stop`'s.
- `Server.DNSServer.Start`: the error messages carry no wrapped error text.
- The EDNS option that `handleQuery` assigns is not modelled:
  - `DNSMessage` has no such field;
  - `Pack` never writes an OPT record, so the field cannot change the bytes sent.
- `DomainNames.DecodeDomainName` takes fuel, so the unbounded recursion on self-referencing pointers becomes the extra error `OutOfFuel`. `Message.ParseDNSMessage` passes it on as a parse error, and `Server.Reply` turns it into `Crashed`, the outcome standing for the stack overflow.
- The `visited` map of `decodeDomainName` is not modelled: it can never detect a loop.
- `DomainNames.NameRoundTrip`: the round trip is proved only for labels of 1 to 63 bytes. What longer or empty labels do is shown only by the `LongLabelWraps` and `EmptyLabelEndsName` examples.
- main.go (command-line wiring) and make_graph.py (benchmark plotting) are not part of this model.
- The tests and benchmarks are not part of this model. They refer to names the codec does not define, and they served only as evidence of the intended round trips.
