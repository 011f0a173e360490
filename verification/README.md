# A verified model of the vendored NATS server

The demo of this repository builds and runs the NATS server gnatsd, vendored under
`example/topic/scheduled.nats.trigger/Godeps`.  The project models the parts of that server that
hold real state, and proves what they promise.

- **Protocol parser** (`Protocol`, `Parser`, `ReadLoop`, `Lines`, `Heirs`, `CutInvariance`, `Hearing`, `Framing`, `Limits`,
  `StaleSids`; with `Args`, `Slices` and `PubArgs`).  `Protocol` is a byte machine on values; `Parser.Client` is the
  index loop over read buffers with its slices and its one scratch array, proved to do what the machine does, and
  `ReadLoop` reads into that one buffer until the connection is closed.  `Lines` says what each line of the protocol
  asks for, from its bytes.  `CutInvariance`, `Hearing` and `Framing` say
  when the way a stream is cut into reads cannot be noticed, in what is stored and in the calls made; `Heirs` and
  `StaleSids` treat messages that are taken for the sid of an earlier one, and `Limits` lines that make the parser
  panic.
- **Wire formats** (`Wire`, `RouteSid`): what a server prints to another is what the other reads.
- **Subscription index** (`Subject`, `Index`, `SubSlices`, `TrieShape`, `Trie`, `ResultCache`,
  `Sublist`): the wildcard trie with a result cache in front, the cache on the hash table below.  Its
  specification is a plain list of (subject, subscriber) pairs.
- **Hash table** (`Bits`, `Load`, `HashMap`): the chained table as a finite map, and what its resizing
  costs.
- **Delivery and routing** (`Delivery`, `AutoUnsub`, `Cluster`, `Links`, `ExactlyOnce`, `Filing`, `Registry`): who gets
  a message on one server, and in a full mesh of servers over FIFO links; `Filing` ties the index the mesh counts with
  to the trie.
- **Configuration** (`ConfParser`, `LexShape`, `LexSteps`, `LexStops`, `Flaws`, `Lexer`, `ConfText`, `ConfTrees`,
  `ConfValues`): a lexer and a parser, two stack machines that stay in step, when they stop, when they fail, and the
  round trip through both, from text and from values.

A locked region of the Go code is one step.  A byte of the wire is a `char`; nothing depends on its
being below 256.  Random numbers, hash functions, the verdicts of the JSON and authorization code, the
number conversions of the standard library, and the size of the largest array, are parameters, and every statement is for all of them.

## Model

| member | source | states |
|---|---|---|
| `Framing.ServeFrames` | example/topic/scheduled.nats.trigger/Godeps/_workspace/src/github.com/nats-io/gnatsd/server/client.go:135-190 | The read loop and the parser, for every stream of CRLF-ended non-INFO lines with their announced payloads and every way of cutting it into reads of one overwritten buffer: no panic on a stream that is no longer than the largest array; and if the stream is settled, the calls made and the error are those of the uncut stream |
| `Framing.FramedExactly` | example/topic/scheduled.nats.trigger/Godeps/_workspace/src/github.com/nats-io/gnatsd/server/parser.go:90-640 | On a new connection no way to cut such a stream or a prefix of it is heard, in a call or in the error, if and only if the stream is settled: nothing is called for and no error met behind the first line that closes the connection, and before it no payload comes for the sid of an earlier MSG line |
| `Framing.LooksSettled` | example/topic/scheduled.nats.trigger/Godeps/_workspace/src/github.com/nats-io/gnatsd/server/client.go:379-431 | The stream of a client, or of a route that sends no PUB behind a MSG, is settled if no line follows a -ERR |
| `Framing.FramedIsEven` | example/topic/scheduled.nats.trigger/Godeps/_workspace/src/github.com/nats-io/gnatsd/server/parser.go:90-612 | A stream whose lines and payloads end in CRLF is stored alike however it is cut, but for the sid of an earlier line and for what a closed connection does not read |
| `Framing.ReadBehindErr` | example/topic/scheduled.nats.trigger/Godeps/_workspace/src/github.com/nats-io/gnatsd/server/client.go:182-238 | For any text: a PING behind a -ERR line is called for in the same read, and never in the next, because the loop has ended |
| `Framing.NeverPanics` | example/topic/scheduled.nats.trigger/Godeps/_workspace/src/github.com/nats-io/gnatsd/server/parser.go:170-640 | In such a stream, no longer than the largest array, no cut makes the index of a PUB jump overflow, and none asks `make` for a capacity that is too large or too small |
| `CutInvariance.CutsAreInvisible` | example/topic/scheduled.nats.trigger/Godeps/_workspace/src/github.com/nats-io/gnatsd/server/parser.go:614-640 | For every clean stream, every cutting and whatever each read leaves to see of a sid in the buffer, the machine makes the same calls and ends in the state of the uncut run, up to where the pending bytes are stored |
| `CutInvariance.CutIsInvisible` | example/topic/scheduled.nats.trigger/Godeps/_workspace/src/github.com/nats-io/gnatsd/server/parser.go:614-640 | The end of a read buffer changes only where the pending argument or payload is stored |
| `CutInvariance.StepRespectsNorm` | example/topic/scheduled.nats.trigger/Godeps/_workspace/src/github.com/nats-io/gnatsd/server/parser.go:90-612 | Two states that store the same pending bytes differently make the same call, if any, and stay alike over any clean byte |
| `CutInvariance.StepRespectsBlind` | example/topic/scheduled.nats.trigger/Godeps/_workspace/src/github.com/nats-io/gnatsd/server/parser.go:90-612 | Over an even byte they stay alike, and make as many calls, whatever the sid of an earlier line shows |
| `CutInvariance.EvenCuts` | example/topic/scheduled.nats.trigger/Godeps/_workspace/src/github.com/nats-io/gnatsd/server/parser.go:614-640 | So for every cutting of an even stream, as long as the connection is read |
| `CutInvariance.StepKeepsSound` | example/topic/scheduled.nats.trigger/Godeps/_workspace/src/github.com/nats-io/gnatsd/server/parser.go:90-612 | Every byte keeps the stored forms consistent: `drop`, the saved argument and the saved payload agree with the state |
| `CutInvariance.UncleanArgShows` | example/topic/scheduled.nats.trigger/Godeps/_workspace/src/github.com/nats-io/gnatsd/server/parser.go:165-181 | A CR inside an argument that no LF follows is stored differently by a cut right before the next byte |
| `CutInvariance.UncleanPayloadShows` | example/topic/scheduled.nats.trigger/Godeps/_workspace/src/github.com/nats-io/gnatsd/server/parser.go:182-227 | An LF right behind a non-empty payload is handled differently after a cut inside the payload |
| `CutInvariance.StoredAlikeExactly` | example/topic/scheduled.nats.trigger/Godeps/_workspace/src/github.com/nats-io/gnatsd/server/parser.go:614-640 | On a new connection the calls, the error and the stored bytes are the same however the stream or a prefix of it is cut, and whatever the reads leave to see of a sid, if and only if the stream is clean |
| `Hearing.HeardExactly` | example/topic/scheduled.nats.trigger/Godeps/_workspace/src/github.com/nats-io/gnatsd/server/client.go:135-190 | On a new connection, for every stream: some way to cut it or a prefix of it, and some bytes that the reads leave to see of a sid, lead to other calls, another error, or other arguments of the message to come, if and only if a line in it asks for something else when cut at one of its bytes, an LF comes right behind a non-empty payload, a message is taken for the sid of an earlier one, or something is called for or an error met behind the line that closed the connection |
| `Hearing.QuietCutsFollow` | example/topic/scheduled.nats.trigger/Godeps/_workspace/src/github.com/nats-io/gnatsd/server/client.go:135-190 | However a quiet stream is cut, any number of times, the calls, the error and the arguments are those of the uncut run, although the stored bytes may part and what follows a -ERR line may not be read |
| `Hearing.SpacesUnheard` | example/topic/scheduled.nats.trigger/Godeps/_workspace/src/github.com/nats-io/gnatsd/server/client.go:433-454 | Blanks and CRs at the end of a SUB, UNSUB, PUB or MSG line make no cut of the line ask for something else |
| `Hearing.QuietNotClean` | example/topic/scheduled.nats.trigger/Godeps/_workspace/src/github.com/nats-io/gnatsd/server/parser.go:614-621 | One CR more behind such a line, as in "SUB a 1\r \r\n", is stored differently after a cut and never heard |
| `Hearing.CleanIsQuiet` | example/topic/scheduled.nats.trigger/Godeps/_workspace/src/github.com/nats-io/gnatsd/server/parser.go:614-640 | What is stored alike is heard alike |
| `Heirs.OtherCall` | example/topic/scheduled.nats.trigger/Godeps/_workspace/src/github.com/nats-io/gnatsd/server/client.go:703-726 | A message without a sid of its own behind a MSG line: a read that begins with its operation and leaves other bytes where the old sid lies makes another call of it |
| `StaleSids.PubInherits` | example/topic/scheduled.nats.trigger/Godeps/_workspace/src/github.com/nats-io/gnatsd/server/client.go:703-726 | For any MSG and any PUB behind it on a route: in one read the PUB is taken for the sid of the MSG, in a read of its own for the bytes that lie there then |
| `StaleSids.InOneRead` | example/topic/scheduled.nats.trigger/Godeps/_workspace/src/github.com/nats-io/gnatsd/server/client.go:135-190 | The parser on "MSG a QRSID:1:x 1", "b", "PUB a 1", "b" in one read: the second call is for "QRSID:1:x" |
| `StaleSids.InTwoReads` | example/topic/scheduled.nats.trigger/Godeps/_workspace/src/github.com/nats-io/gnatsd/server/client.go:135-190 | The same with a read between the two messages: the bytes of the second lie over the sid, and the call is for what is left of both |
| `StaleSids.OtherReaders` | example/topic/scheduled.nats.trigger/Godeps/_workspace/src/github.com/nats-io/gnatsd/server/client.go:703-790 | What these two come to: the one queue subscription the id names or nobody gets the second message, or all matching plain subscriptions of clients do |
| `StaleSids.PubRun` | example/topic/scheduled.nats.trigger/Godeps/_workspace/src/github.com/nats-io/gnatsd/server/parser.go:148-227 | The bytes of PUB with subject, perhaps a reply, size and payload make one call with just these, for the sid left behind |
| `CutInvariance.UncleanPayloadFails` | example/topic/scheduled.nats.trigger/Godeps/_workspace/src/github.com/nats-io/gnatsd/server/parser.go:182-227 | Where the difference reaches the error: an LF right behind a payload ends the connection after a cut before the last payload byte, and does not without one |
| `CutInvariance.UncleanTextParts` | example/topic/scheduled.nats.trigger/Godeps/_workspace/src/github.com/nats-io/gnatsd/server/parser.go:591-608 | Where the difference reaches a call: a byte behind a CR in a -ERR line, which hands over another text after a cut right before it |
| `Parser.Client.Parse` | example/topic/scheduled.nats.trigger/Godeps/_workspace/src/github.com/nats-io/gnatsd/server/parser.go:82-654 | Whatever state earlier reads left, one call does to the bytes of the buffer what the machine does and keeps nothing in the buffer but a sid that is not needed; the calls made are those of the machine, down to what the sid of an earlier line shows; it panics if and only if a PUB jump overflows 64 bits, or the payload neither fits behind the saved line in the scratch array nor in an array of size+2 bytes, that sum being larger than any array or smaller than what is there |
| `Parser.Client.Scan` | example/topic/scheduled.nats.trigger/Godeps/_workspace/src/github.com/nats-io/gnatsd/server/parser.go:90-612 | The loop with its jumping 64-bit index runs the machine over the whole buffer, and panics if and only if a jump overflows |
| `Parser.Client.Pass` | example/topic/scheduled.nats.trigger/Godeps/_workspace/src/github.com/nats-io/gnatsd/server/parser.go:90-612 | One pass of the loop: the machine over the bytes passed, with the index and the bytes passed apart only after the jump of PUB |
| `Parser.JumpIsPlaced` | example/topic/scheduled.nats.trigger/Godeps/_workspace/src/github.com/nats-io/gnatsd/server/parser.go:170-181 | Short of an overflow the jump of PUB lands on the last byte of the payload or behind the buffer, for every size including 0 and 1 |
| `Parser.Jump` | example/topic/scheduled.nats.trigger/Godeps/_workspace/src/github.com/nats-io/gnatsd/server/parser.go:170-206 | The bytes jumped over are what the byte-by-byte walk of MSG would have collected |
| `Parser.SavedPayload` | example/topic/scheduled.nats.trigger/Godeps/_workspace/src/github.com/nats-io/gnatsd/server/parser.go:183-204 | The bulk copy behind a saved payload is the walk over the same bytes |
| `Parser.Client.InSavedPayload` | example/topic/scheduled.nats.trigger/Godeps/_workspace/src/github.com/nats-io/gnatsd/server/parser.go:183-204 | As many bytes as are missing are copied in one go, and the machine is run over exactly those |
| `Parser.Client.EndMessage` | example/topic/scheduled.nats.trigger/Godeps/_workspace/src/github.com/nats-io/gnatsd/server/parser.go:207-227 | At the LF the message is handed over with the arguments of its line, and with the sid in the argument record if the line has none, if it has size+2 bytes, and refused otherwise |
| `Parser.Client.SavePayload` | example/topic/scheduled.nats.trigger/Godeps/_workspace/src/github.com/nats-io/gnatsd/server/parser.go:621-640 | The payload so far goes behind the saved arguments in the scratch array, which stay as they are, or into an array of its own if that can be made |
| `Parser.Make` | example/topic/scheduled.nats.trigger/Godeps/_workspace/src/github.com/nats-io/gnatsd/server/parser.go:634 | `make` with a 64-bit capacity: it gives an array if and only if the sum has not overflowed, is not above the largest array and is not below the length |
| `Parser.Client.ClonePubArg` | example/topic/scheduled.nats.trigger/Godeps/_workspace/src/github.com/nats-io/gnatsd/server/parser.go:666-684 | The copied arguments denote the same subject, reply, sid and size as before |
| `PubArgs.ClonedDenotes` | example/topic/scheduled.nats.trigger/Godeps/_workspace/src/github.com/nats-io/gnatsd/server/parser.go:666-684 | Windows at the running lengths into the concatenated copy show the same arguments |
| `Protocol.RunPayloadInBuffer` | example/topic/scheduled.nats.trigger/Godeps/_workspace/src/github.com/nats-io/gnatsd/server/parser.go:182-206 | Payload bytes in the read buffer change nothing but the collected payload: what the index jump relies on |
| `Protocol.RunPayloadSaved` | example/topic/scheduled.nats.trigger/Godeps/_workspace/src/github.com/nats-io/gnatsd/server/parser.go:183-204 | The bulk copy as a run of single steps, with the state it ends in |
| `ReadLoop.ReadAll` | example/topic/scheduled.nats.trigger/Godeps/_workspace/src/github.com/nats-io/gnatsd/server/client.go:135-190 | All reads go through one buffer that every read overwrites, until the connection is closed; the connection does what the machine does with the same cuts |
| `ReadLoop.Serve` | example/topic/scheduled.nats.trigger/Godeps/_workspace/src/github.com/nats-io/gnatsd/server/client.go:135-190 | On a new connection, for any quiet stream and any reads into the one buffer, the calls and the error are those of the uncut stream |
| `Limits.PubOverruns` | example/topic/scheduled.nats.trigger/Godeps/_workspace/src/github.com/nats-io/gnatsd/server/parser.go:170-176 | When exactly the jump behind such a line, with or without a reply, overflows; "PUB s 9223372036854775807" is an instance |
| `Limits.PubArgument` | example/topic/scheduled.nats.trigger/Godeps/_workspace/src/github.com/nats-io/gnatsd/server/client.go:379-431 | The argument of a PUB line with a subject, perhaps a reply, and a size the payload limit allows: they become subject, reply and size of the message |
| `Limits.PubUnmakeable` | example/topic/scheduled.nats.trigger/Godeps/_workspace/src/github.com/nats-io/gnatsd/server/parser.go:632-635 | When exactly the array for the payload of such a line cannot be made: its capacity is above the largest array, or the body is longer than it |
| `Limits.FeedPub` | example/topic/scheduled.nats.trigger/Godeps/_workspace/src/github.com/nats-io/gnatsd/server/parser.go:170-640 | The parser on a new connection without a payload limit, fed a PUB line of a size above 1024 and what has come of the body: it panics if and only if the size, counted from the newline, passes the largest integer, size+2 passes the largest array, or the body without a newline is longer than size+2 |
| `Args.ParseSizeLoop` | example/topic/scheduled.nats.trigger/Godeps/_workspace/src/github.com/nats-io/gnatsd/server/util.go:26-52 | `parseSize` and `parseInt64`: -1 unless all bytes are digits, else the decimal value in wrapping 64-bit arithmetic |
| `Args.ParseSizeOfDecimal` | example/topic/scheduled.nats.trigger/Godeps/_workspace/src/github.com/nats-io/gnatsd/server/util.go:26-37 | Reading a printed number gives it back if and only if it is below 2^63 |
| `Args.InDecimal` | example/topic/scheduled.nats.trigger/Godeps/_workspace/src/github.com/nats-io/gnatsd/server/util.go:26-37 | Ten to the place: 4096 is printed as "4096", and read back |
| `Args.FieldsOfJoin` | example/topic/scheduled.nats.trigger/Godeps/_workspace/src/github.com/nats-io/gnatsd/server/client.go:433-454 | Words printed with single blanks are read back, and exactly the empty ones are lost |
| `Args.FieldsAreWordy` | example/topic/scheduled.nats.trigger/Godeps/_workspace/src/github.com/nats-io/gnatsd/server/client.go:433-454 | Every field found is a non-empty word without separators |
| `Slices.SplitArg` | example/topic/scheduled.nats.trigger/Godeps/_workspace/src/github.com/nats-io/gnatsd/server/client.go:433-454 | The one-pass index loop returns windows of the argument that show its maximal separator-free pieces in order |
| `PubArgs.ProcessPub` | example/topic/scheduled.nats.trigger/Godeps/_workspace/src/github.com/nats-io/gnatsd/server/client.go:379-431 | A PUB line becomes windows of the line that denote its arguments, or the error of the code; the sid of an earlier line stays |
| `PubArgs.ProcessMsgArgs` | example/topic/scheduled.nats.trigger/Godeps/_workspace/src/github.com/nats-io/gnatsd/server/client.go:330-377 | The same for MSG, with the sid; on an error the sid stays as it was |
| `Lines.VerbRun` | example/topic/scheduled.nats.trigger/Godeps/_workspace/src/github.com/nats-io/gnatsd/server/parser.go:95-612 | The letters of a verb, each in either case, lead from the start of an operation to the state behind it; MSG only on a route |
| `Lines.NextLetterExactly` | example/topic/scheduled.nats.trigger/Godeps/_workspace/src/github.com/nats-io/gnatsd/server/parser.go:95-612 | One letter more is taken if and only if a word of the protocol goes on like that in some case; else the connection ends with the unknown-operation error and nothing is called for |
| `Lines.AuthorizeFirst` | example/topic/scheduled.nats.trigger/Godeps/_workspace/src/github.com/nats-io/gnatsd/server/parser.go:96-98 | Until a CONNECT has come, any stream that starts with another byte than C or c ends with the authorization error, and no call is made |
| `Lines.ConnectThenPub` | example/topic/scheduled.nats.trigger/Godeps/_workspace/src/github.com/nats-io/gnatsd/server/parser.go:95-446 | For a client that has to authenticate: a PUB alone is the end, and behind a good CONNECT the same bytes are a publish |
| `Lines.SubCalls` | example/topic/scheduled.nats.trigger/Godeps/_workspace/src/github.com/nats-io/gnatsd/server/client.go:456-496 | From the bytes SUB, blanks, subject, perhaps queue, sid, CRLF: the call has them in their roles |
| `Lines.UnsubCalls` | example/topic/scheduled.nats.trigger/Godeps/_workspace/src/github.com/nats-io/gnatsd/server/client.go:514-546 | From the bytes of UNSUB: the sid, and the limit of the second word; no second word and a zero both clear it |
| `Lines.UnsubUnread` | example/topic/scheduled.nats.trigger/Godeps/_workspace/src/github.com/nats-io/gnatsd/server/client.go:514-546 | A second word that is no number clears the limit as well |
| `Lines.PubCalls` | example/topic/scheduled.nats.trigger/Godeps/_workspace/src/github.com/nats-io/gnatsd/server/client.go:379-431 | From the bytes of PUB subject, perhaps reply, size, CRLF, payload, CRLF, with any payload limit that allows it: one publish with the first word as subject and the second of three as reply |
| `Lines.MsgCalls` | example/topic/scheduled.nats.trigger/Godeps/_workspace/src/github.com/nats-io/gnatsd/server/client.go:330-377 | The same for MSG on a route, with the second word as sid and the third of four as reply; the sid is what the record has then |
| `Lines.ConnectCalls` | example/topic/scheduled.nats.trigger/Godeps/_workspace/src/github.com/nats-io/gnatsd/server/parser.go:425-446 | CONNECT calls and lifts the authorization, or is refused and calls nothing |
| `Lines.InfoCalls` | example/topic/scheduled.nats.trigger/Godeps/_workspace/src/github.com/nats-io/gnatsd/server/parser.go:526-535 | INFO calls, or is refused; it closes a route if the server says so, and never a client |
| `Lines.ErrCalls` | example/topic/scheduled.nats.trigger/Godeps/_workspace/src/github.com/nats-io/gnatsd/server/parser.go:591-612 | -ERR hands its text over and closes the connection |
| `Lines.ShortCalls` | example/topic/scheduled.nats.trigger/Godeps/_workspace/src/github.com/nats-io/gnatsd/server/parser.go:335-374 | PING and PONG make their calls, +OK makes none |
| `Lines.WrongNumber` | example/topic/scheduled.nats.trigger/Godeps/_workspace/src/github.com/nats-io/gnatsd/server/client.go:330-546 | PUB, MSG, SUB and UNSUB with any other number of words are refused with their own error, and nothing is called for |
| `Lines.WrongSize` | example/topic/scheduled.nats.trigger/Godeps/_workspace/src/github.com/nats-io/gnatsd/server/client.go:330-431 | So are PUB and MSG whose last word is not a number |
| `Lines.TooMuch` | example/topic/scheduled.nats.trigger/Godeps/_workspace/src/github.com/nats-io/gnatsd/server/client.go:424-431 | A PUB above the payload limit ends the connection with that error |
| `Lines.MessageExactly` | example/topic/scheduled.nats.trigger/Godeps/_workspace/src/github.com/nats-io/gnatsd/server/parser.go:207-227 | Behind a payload of the announced size, a message is taken if and only if its newline is the second byte; the first one may be any |
| `Wire.RoundTrip` | example/topic/scheduled.nats.trigger/Godeps/_workspace/src/github.com/nats-io/gnatsd/server/route.go:194-197 | On a route, the bytes printed for a SUB, UNSUB or MSG make the other parser make exactly the call meant, an empty queue being absent |
| `Wire.RoundTripAll` | example/topic/scheduled.nats.trigger/Godeps/_workspace/src/github.com/nats-io/gnatsd/server/route.go:285-308 | The same for any sequence of lines, and the bytes are a clean stream |
| `Wire.RouteDelivers` | example/topic/scheduled.nats.trigger/Godeps/_workspace/src/github.com/nats-io/gnatsd/server/route.go:285-308 | However the network cuts them, the lines arrive as the calls meant |
| `RouteSid.RoundTrip` | example/topic/scheduled.nats.trigger/Godeps/_workspace/src/github.com/nats-io/gnatsd/server/route.go:202-245 | A printed queue id gives back client id and sid if and only if the sid has no regexp whitespace; a plain id is never taken for a queue id |
| `RouteSid.DecodesShort` | example/topic/scheduled.nats.trigger/Godeps/_workspace/src/github.com/nats-io/gnatsd/server/route.go:202-237 | With such whitespace behind its first bytes it gives back the sid that ends there |
| `RouteSid.FormFeedInSid` | example/topic/scheduled.nats.trigger/Godeps/_workspace/src/github.com/nats-io/gnatsd/server/route.go:202-237 | A form feed is no separator of a SUB line and ends the sid in its route id |
| `RouteSid.NamesAnother` | example/topic/scheduled.nats.trigger/Godeps/_workspace/src/github.com/nats-io/gnatsd/server/route.go:202-237 | Behind a form feed a sid can have the route id of another subscription, and that one is named: the leftmost match counts |
| `RouteSid.EncodeIsInjective` | example/topic/scheduled.nats.trigger/Godeps/_workspace/src/github.com/nats-io/gnatsd/server/route.go:239-245 | Different subscriptions of a server never share a route id |
| `Delivery.MsgHeader` | example/topic/scheduled.nats.trigger/Godeps/_workspace/src/github.com/nats-io/gnatsd/server/client.go:548-558 | The header and the payload behind it are the MSG line that `Wire` reads back |
| `Subject.SplitLoop` | example/topic/scheduled.nats.trigger/Godeps/_workspace/src/github.com/nats-io/gnatsd/sublist/sublist.go:89-98 | The index loop cuts the subject at its dots |
| `Subject.SplitOfDotted` | example/topic/scheduled.nats.trigger/Godeps/_workspace/src/github.com/nats-io/gnatsd/sublist/sublist.go:89-98 | Splitting inverts joining dot-free tokens |
| `Subject.DottedOfSplit` | example/topic/scheduled.nats.trigger/Godeps/_workspace/src/github.com/nats-io/gnatsd/sublist/sublist.go:89-98 | Joining inverts splitting, for every subject |
| `Subject.MatchLiteral` | example/topic/scheduled.nats.trigger/Godeps/_workspace/src/github.com/nats-io/gnatsd/sublist/sublist.go:400-432 | The single-pass scan with its nested skip loops is the recursive byte matcher |
| `Subject.MatchersAgree` | example/topic/scheduled.nats.trigger/Godeps/_workspace/src/github.com/nats-io/gnatsd/sublist/sublist.go:400-432 | On well-formed subjects the byte matcher is true exactly when token-by-token matching is, for every literal whose last token is not empty |
| `Subject.TwoMatchers` | example/topic/scheduled.nats.trigger/Godeps/_workspace/src/github.com/nats-io/gnatsd/sublist/sublist.go:400-432 | The literal side: the matchers agree on all well-formed subjects if and only if the last token of the literal is not empty |
| `Subject.WellFormedExactly` | example/topic/scheduled.nats.trigger/Godeps/_workspace/src/github.com/nats-io/gnatsd/sublist/sublist.go:400-432 | The subject side, for every valid subject: it is well formed if and only if the matchers agree on all literals whose last token is not empty |
| `Index.WalkMatches` | example/topic/scheduled.nats.trigger/Godeps/_workspace/src/github.com/nats-io/gnatsd/sublist/sublist.go:243-273 | The walk of `matchLevel` over the stored nodes reaches, as a multiset, exactly the subscribers whose subject matches |
| `Index.WalkReaches` | example/topic/scheduled.nats.trigger/Godeps/_workspace/src/github.com/nats-io/gnatsd/sublist/sublist.go:243-273 | The same below any node, for the rest of the tokens |
| `Index.AtRemove` | example/topic/scheduled.nats.trigger/Godeps/_workspace/src/github.com/nats-io/gnatsd/sublist/sublist.go:382-396 | Removing the first equal pair from the list removes the first equal subscriber at its node |
| `Index.GrowHolds` | example/topic/scheduled.nats.trigger/Godeps/_workspace/src/github.com/nats-io/gnatsd/sublist/sublist.go:109-141 | A new empty node changes no answer |
| `Index.PruneHolds` | example/topic/scheduled.nats.trigger/Godeps/_workspace/src/github.com/nats-io/gnatsd/sublist/sublist.go:345-356 | Taking out an empty node without children changes no answer |
| `SubSlices.Take` | example/topic/scheduled.nats.trigger/Godeps/_workspace/src/github.com/nats-io/gnatsd/sublist/sublist.go:382-396 | In place: the elements behind the first equal one move down; the array is the same, and what it shows is the list with that element removed |
| `SubSlices.Append` | example/topic/scheduled.nats.trigger/Godeps/_workspace/src/github.com/nats-io/gnatsd/sublist/sublist.go:143 | `append` into the spare capacity or into a new array; what older slices show stays |
| `TrieShape.GrownIsTree` | example/topic/scheduled.nats.trigger/Godeps/_workspace/src/github.com/nats-io/gnatsd/sublist/sublist.go:117-139 | A grafted node keeps the tree: every object at one path, no two nodes with one array |
| `TrieShape.PrunedIsTree` | example/topic/scheduled.nats.trigger/Godeps/_workspace/src/github.com/nats-io/gnatsd/sublist/sublist.go:345-356 | So does a pruned one |
| `TrieShape.PruneNode` | example/topic/scheduled.nats.trigger/Godeps/_workspace/src/github.com/nats-io/gnatsd/sublist/sublist.go:345-356 | The node is taken out wherever it hangs, and nothing else changes |
| `Trie.Trie.Insert` | example/topic/scheduled.nats.trigger/Godeps/_workspace/src/github.com/nats-io/gnatsd/sublist/sublist.go:100-149 | Succeeds if and only if the subject is valid, and then appends the pair to the list; a successful one leaves no dead node |
| `Trie.Trie.Descend` | example/topic/scheduled.nats.trigger/Godeps/_workspace/src/github.com/nats-io/gnatsd/sublist/sublist.go:117-139 | One round of the descent: the node for the token, new only if there was none |
| `Trie.Trie.Remove` | example/topic/scheduled.nats.trigger/Godeps/_workspace/src/github.com/nats-io/gnatsd/sublist/sublist.go:284-342 | Removes the first equal pair if and only if there is one, with the error the code returns otherwise; leaves no dead node if there was none |
| `Trie.FaultMeans` | example/topic/scheduled.nats.trigger/Godeps/_workspace/src/github.com/nats-io/gnatsd/sublist/sublist.go:292-321 | Which of the two errors the descent of `Remove` gives, in terms of the subject and of what is filed |
| `Trie.Trie.Prune` | example/topic/scheduled.nats.trigger/Godeps/_workspace/src/github.com/nats-io/gnatsd/sublist/sublist.go:325-335 | The way back: every node that became empty goes, and no node without a subscriber below it is left |
| `Trie.Trie.Drop` | example/topic/scheduled.nats.trigger/Godeps/_workspace/src/github.com/nats-io/gnatsd/sublist/sublist.go:382-396 | `removeFromNode` on the node array in place, in terms of the list |
| `Trie.Trie.MatchLevel` | example/topic/scheduled.nats.trigger/Godeps/_workspace/src/github.com/nats-io/gnatsd/sublist/sublist.go:243-273 | The loop and its recursion collect exactly the walk of the stored nodes |
| `Trie.Trie.Lookup` | example/topic/scheduled.nats.trigger/Godeps/_workspace/src/github.com/nats-io/gnatsd/sublist/sublist.go:206-222 | A walk from the root finds, as a multiset, exactly the matching subscribers of the list |
| `Trie.Trie.VisitLevel` | example/topic/scheduled.nats.trigger/Godeps/_workspace/src/github.com/nats-io/gnatsd/sublist/sublist.go:516-548 | How deep the nodes below a level reach |
| `Trie.Trie.NumLevels` | example/topic/scheduled.nats.trigger/Godeps/_workspace/src/github.com/nats-io/gnatsd/sublist/sublist.go:510-512 | Without dead nodes: the token count of a longest live subject |
| `Trie.DepthIsLongest` | example/topic/scheduled.nats.trigger/Godeps/_workspace/src/github.com/nats-io/gnatsd/sublist/sublist.go:510-548 | The deepest node without dead nodes is that of a longest subject |
| `Trie.EmptyAgain` | example/topic/scheduled.nats.trigger/Godeps/_workspace/src/github.com/nats-io/gnatsd/sublist/sublist.go:284-342 | Without dead nodes: nothing is live if and only if only the root is left |
| `ResultCache.Cache.AppendAt` | example/topic/scheduled.nats.trigger/Godeps/_workspace/src/github.com/nats-io/gnatsd/sublist/sublist.go:160-171 | Appending to a cached slice, in its array or in a new one, and putting the slice back into the hash table, changes what is cached under that key and nothing any other slice shows |
| `ResultCache.Cache.AddToCache` | example/topic/scheduled.nats.trigger/Godeps/_workspace/src/github.com/nats-io/gnatsd/sublist/sublist.go:153-172 | Exactly the cached literals that match get the subscriber appended |
| `ResultCache.Cache.RemoveFromCache` | example/topic/scheduled.nats.trigger/Godeps/_workspace/src/github.com/nats-io/gnatsd/sublist/sublist.go:176-190 | Exactly the cached literals that match are dropped |
| `ResultCache.Cache.Fill` | example/topic/scheduled.nats.trigger/Godeps/_workspace/src/github.com/nats-io/gnatsd/sublist/sublist.go:233-236 | The result goes into the hash table under its key, in an array of its own |
| `ResultCache.Cache.RemoveRandom` | example/topic/scheduled.nats.trigger/Godeps/_workspace/src/github.com/nats-io/gnatsd/sublist/sublist.go:229-231 | Through the hash table, for every random number: exactly one key goes, if there is one |
| `ResultCache.Cache.SnapshotStable` | example/topic/scheduled.nats.trigger/Godeps/_workspace/src/github.com/nats-io/gnatsd/sublist/sublist.go:194-239 | A result slice shows what it showed when it was made, through every later operation |
| `Sublist.LiteralMatches` | example/topic/scheduled.nats.trigger/Godeps/_workspace/src/github.com/nats-io/gnatsd/sublist/sublist.go:153-190 | What the cache decides by bytes, the trie decides by tokens |
| `Sublist.FreshAfterAdd` | example/topic/scheduled.nats.trigger/Godeps/_workspace/src/github.com/nats-io/gnatsd/sublist/sublist.go:141-172 | After an insert every cached entry is again what a walk would find |
| `Sublist.FreshAfterRemove` | example/topic/scheduled.nats.trigger/Godeps/_workspace/src/github.com/nats-io/gnatsd/sublist/sublist.go:176-190 | So it is after a removal |
| `Sublist.FreshAfterMiss` | example/topic/scheduled.nats.trigger/Godeps/_workspace/src/github.com/nats-io/gnatsd/sublist/sublist.go:222-237 | So it is after an eviction and a fill |
| `Sublist.Sublist.Insert` | example/topic/scheduled.nats.trigger/Godeps/_workspace/src/github.com/nats-io/gnatsd/sublist/sublist.go:100-149 | List, cache and snapshots after an insert; every slice ever returned keeps its contents although the node arrays and the cached arrays are written |
| `Sublist.Sublist.Remove` | example/topic/scheduled.nats.trigger/Godeps/_workspace/src/github.com/nats-io/gnatsd/sublist/sublist.go:284-342 | List, cache and snapshots after a removal, and the error otherwise |
| `Sublist.Sublist.Probe` | example/topic/scheduled.nats.trigger/Godeps/_workspace/src/github.com/nats-io/gnatsd/sublist/sublist.go:194-204 | A hit is, as a multiset, what a fresh walk would find |
| `Sublist.Sublist.Miss` | example/topic/scheduled.nats.trigger/Godeps/_workspace/src/github.com/nats-io/gnatsd/sublist/sublist.go:206-239 | The second phase of Match in whatever state the others left: the matching subscribers, cached, with at most `cmax` keys |
| `Sublist.Sublist.Match` | example/topic/scheduled.nats.trigger/Godeps/_workspace/src/github.com/nats-io/gnatsd/sublist/sublist.go:194-239 | As a multiset exactly the subscribers of the list whose subject matches token by token; the cache is the chained hash table of this project, for every hash function and every random number |
| `Sublist.Sublist.Evict` | example/topic/scheduled.nats.trigger/Godeps/_workspace/src/github.com/nats-io/gnatsd/sublist/sublist.go:226-232 | A full cache loses exactly one key, so the bound on its keys holds |
| `Bits.MaskIsRemainder` | example/topic/scheduled.nats.trigger/Godeps/_workspace/src/github.com/nats-io/gnatsd/hashmap/hashmap.go:86 | Masking with one less than a power of two is the remainder |
| `Bits.PowerOfTwoTest` | example/topic/scheduled.nats.trigger/Godeps/_workspace/src/github.com/nats-io/gnatsd/hashmap/hashmap.go:59-70 | `sz & (sz-1)` is zero if and only if the size is a power of two |
| `Bits.FourIsSet` | example/topic/scheduled.nats.trigger/Godeps/_workspace/src/github.com/nats-io/gnatsd/hashmap/hashmap.go:126 | The bit test for a four-byte word left over |
| `HashMap.SameKey` | example/topic/scheduled.nats.trigger/Godeps/_workspace/src/github.com/nats-io/gnatsd/hashmap/hashmap.go:112-140 | Comparing eight bytes, then four, then one is equality of the keys |
| `HashMap.EqualWords` | example/topic/scheduled.nats.trigger/Godeps/_workspace/src/github.com/nats-io/gnatsd/hashmap/hashmap.go:112-140 | Two words are equal if and only if their bytes are |
| `HashMap.HomeIsRemainder` | example/topic/scheduled.nats.trigger/Godeps/_workspace/src/github.com/nats-io/gnatsd/hashmap/hashmap.go:96-204 | The mask picks the bucket by the remainder of the hash |
| `HashMap.NewWithBkts` | example/topic/scheduled.nats.trigger/Godeps/_workspace/src/github.com/nats-io/gnatsd/hashmap/hashmap.go:59-70 | An empty table if and only if the number of buckets is a power of two |
| `HashMap.HashMap.Set` | example/topic/scheduled.nats.trigger/Godeps/_workspace/src/github.com/nats-io/gnatsd/hashmap/hashmap.go:81-101 | As on a finite map, for every hash function |
| `HashMap.HashMap.Get` | example/topic/scheduled.nats.trigger/Godeps/_workspace/src/github.com/nats-io/gnatsd/hashmap/hashmap.go:104-145 | As on a finite map |
| `HashMap.HashMap.Remove` | example/topic/scheduled.nats.trigger/Godeps/_workspace/src/github.com/nats-io/gnatsd/hashmap/hashmap.go:148-165 | As on a finite map |
| `HashMap.HashMap.RemoveRandom` | example/topic/scheduled.nats.trigger/Godeps/_workspace/src/github.com/nats-io/gnatsd/hashmap/rand_evict.go:18-43 | For every random number exactly one binding goes from a table that is not empty; the panic is not reached |
| `HashMap.HashMap.FullBucket` | example/topic/scheduled.nats.trigger/Godeps/_workspace/src/github.com/nats-io/gnatsd/hashmap/rand_evict.go:24-41 | The walk forward and then backward finds a bucket that is not empty |
| `HashMap.HashMap.Resize` | example/topic/scheduled.nats.trigger/Godeps/_workspace/src/github.com/nats-io/gnatsd/hashmap/hashmap.go:169-185 | The map stays the same in the new buckets, and the entry array is filled exactly |
| `HashMap.NextIsNew` | example/topic/scheduled.nats.trigger/Godeps/_workspace/src/github.com/nats-io/gnatsd/hashmap/hashmap.go:169-185 | The next entry to copy is not in the new table, so the entry array is never overrun |
| `HashMap.CopiedAll` | example/topic/scheduled.nats.trigger/Godeps/_workspace/src/github.com/nats-io/gnatsd/hashmap/hashmap.go:169-185 | When all buckets are walked, the new table is the old map in as many entries |
| `HashMap.PushedIsWf` | example/topic/scheduled.nats.trigger/Godeps/_workspace/src/github.com/nats-io/gnatsd/hashmap/hashmap.go:81-101 | An entry in front of its chain keeps every key in one place, which is in its bucket |
| `HashMap.UnlinkedIsWf` | example/topic/scheduled.nats.trigger/Godeps/_workspace/src/github.com/nats-io/gnatsd/hashmap/hashmap.go:148-165 | So does unlinking one |
| `HashMap.HashMap.Grow` | example/topic/scheduled.nats.trigger/Godeps/_workspace/src/github.com/nats-io/gnatsd/hashmap/hashmap.go:190-196 | Twice the buckets below the cap, the same map |
| `HashMap.HashMap.Shrink` | example/topic/scheduled.nats.trigger/Godeps/_workspace/src/github.com/nats-io/gnatsd/hashmap/hashmap.go:199-204 | Half the buckets above the smallest size, the same map |
| `HashMap.HashMap.CountIsSize` | example/topic/scheduled.nats.trigger/Godeps/_workspace/src/github.com/nats-io/gnatsd/hashmap/hashmap.go:207-209 | `used` is the number of bindings |
| `HashMap.HashMap.AllKeys` | example/topic/scheduled.nats.trigger/Godeps/_workspace/src/github.com/nats-io/gnatsd/hashmap/hashmap.go:212-220 | The keys chain by chain |
| `HashMap.FlatIsKeys` | example/topic/scheduled.nats.trigger/Godeps/_workspace/src/github.com/nats-io/gnatsd/hashmap/hashmap.go:212-220 | Chain by chain is every key once |
| `HashMap.HashMap.All` | example/topic/scheduled.nats.trigger/Godeps/_workspace/src/github.com/nats-io/gnatsd/hashmap/hashmap.go:223-231 | The data of all keys, in the order of `AllKeys` |
| `HashMap.HashMap.Amortised` | example/topic/scheduled.nats.trigger/Godeps/_workspace/src/github.com/nats-io/gnatsd/hashmap/hashmap.go:96-204 | A table made by New: at most 3m+4 entries copied over m calls, a power of two of at least 8 buckets, not overfull, and a quarter full if larger than 8 |
| `Load.RunIsBalanced` | example/topic/scheduled.nats.trigger/Godeps/_workspace/src/github.com/nats-io/gnatsd/hashmap/hashmap.go:96-204 | The same for every run of calls, by a potential that pays for the next resize |
| `Load.JustEnough` | example/topic/scheduled.nats.trigger/Godeps/_workspace/src/github.com/nats-io/gnatsd/hashmap/hashmap.go:96-204 | After n insertions the table has the least power of two of buckets, from 8 on, that is not below n |
| `Delivery.Spread` | example/topic/scheduled.nats.trigger/Godeps/_workspace/src/github.com/nats-io/gnatsd/server/client.go:734-789 | One delivery for each match of a plain client subscription, one for each queue name, one for each remote server; none to a route for a message from a route |
| `Delivery.PlanMeans` | example/topic/scheduled.nats.trigger/Godeps/_workspace/src/github.com/nats-io/gnatsd/server/client.go:734-789 | The plan in plain words: a client subscription as often as it matches, a queue group once, a server once; routes without an identity, and all routes and groups for a message from a route, nothing |
| `Delivery.ProcessMsg` | example/topic/scheduled.nats.trigger/Godeps/_workspace/src/github.com/nats-io/gnatsd/server/client.go:689-789 | Nobody without a match; on a route the named queue subscriber and nobody else; else by that plan |
| `Delivery.OneHop` | example/topic/scheduled.nats.trigger/Godeps/_workspace/src/github.com/nats-io/gnatsd/server/client.go:703-757 | What came on a route goes to clients only: to matching plain subscriptions, or to the one its id names, because the table the id is looked up in holds subscriptions of clients |
| `AutoUnsub.Client.DeliverLocked` | example/topic/scheduled.nats.trigger/Godeps/_workspace/src/github.com/nats-io/gnatsd/server/client.go:564-658 | Header and payload are written if and only if the connection is open and there is no limit or the count was below it; the message is counted in any case, and unsubscribe is to be called if and only if a limit is reached |
| `AutoUnsub.Client.Unsubscribe` | example/topic/scheduled.nats.trigger/Godeps/_workspace/src/github.com/nats-io/gnatsd/server/client.go:498-512 | Table and index lose the subscription unless it has a limit that is still to be reached |
| `AutoUnsub.Client.ProcessUnsub` | example/topic/scheduled.nats.trigger/Godeps/_workspace/src/github.com/nats-io/gnatsd/server/client.go:514-546 | The limit of the line, cleared by a missing, unreadable, zero or negative one; no other subscription changes; and the call of `unsubscribe` it leaves to make |
| `AutoUnsub.Client.DeliverMsg` | example/topic/scheduled.nats.trigger/Godeps/_workspace/src/github.com/nats-io/gnatsd/server/client.go:564-658 | Both regions of `deliverMsg` with nobody in between: what is written, and that table and index lose the subscription if and only if this message reaches its limit |
| `AutoUnsub.LimitBounds` | example/topic/scheduled.nats.trigger/Godeps/_workspace/src/github.com/nats-io/gnatsd/server/client.go:498-658 | Over every run of interleaved steps: a limit m set at count k and not overridden gives at most max(k, m) deliveries |
| `AutoUnsub.LimitIsExact` | example/topic/scheduled.nats.trigger/Godeps/_workspace/src/github.com/nats-io/gnatsd/server/client.go:564-658 | On an open connection exactly the messages up to the limit are delivered |
| `AutoUnsub.UnlimitedGetsAll` | example/topic/scheduled.nats.trigger/Godeps/_workspace/src/github.com/nats-io/gnatsd/server/client.go:564-658 | Without a limit an open connection gets every message, in every run |
| `AutoUnsub.CloseEndsDelivery` | example/topic/scheduled.nats.trigger/Godeps/_workspace/src/github.com/nats-io/gnatsd/server/client.go:586-592 | Behind the close no run delivers anything, and the index has nothing of the client |
| `AutoUnsub.GoneAtLimit` | example/topic/scheduled.nats.trigger/Godeps/_workspace/src/github.com/nats-io/gnatsd/server/client.go:498-658 | Once the count reaches the limit and no call of `unsubscribe` waits, table and index have lost the subscription |
| `AutoUnsub.StaysBelowLimit` | example/topic/scheduled.nats.trigger/Godeps/_workspace/src/github.com/nats-io/gnatsd/server/client.go:498-512 | Below the limit the subscription stays in both |
| `AutoUnsub.UnlimitedStays` | example/topic/scheduled.nats.trigger/Godeps/_workspace/src/github.com/nats-io/gnatsd/server/client.go:498-512 | So does one without a limit, as long as no UNSUB has come |
| `AutoUnsub.UnsubRemoves` | example/topic/scheduled.nats.trigger/Godeps/_workspace/src/github.com/nats-io/gnatsd/server/client.go:498-546 | An UNSUB without a positive limit removes, whatever limit there was: in any run with a call of `unsubscribe` table and index have lost the subscription |
| `AutoUnsub.GoneForGood` | example/topic/scheduled.nats.trigger/Godeps/_workspace/src/github.com/nats-io/gnatsd/server/client.go:532-546 | Once the table has lost a subscription, in every run no UNSUB for its sid does anything to it, and it does not come back |
| `Cluster.StepKeeps` | example/topic/scheduled.nats.trigger/Godeps/_workspace/src/github.com/nats-io/gnatsd/server/client.go:456-546 | Every locked region, `processSub` and its broadcast apart, keeps the invariant: what each server has told, what is on each link, and what each index holds agree |
| `Cluster.RunKeeps` | example/topic/scheduled.nats.trigger/Godeps/_workspace/src/github.com/nats-io/gnatsd/server/route.go:239-308 | So does every run |
| `Cluster.Mirror` | example/topic/scheduled.nats.trigger/Godeps/_workspace/src/github.com/nats-io/gnatsd/server/route.go:239-308 | In every run, settled: a remote index holds exactly one entry, by its route sid, per valid live subscription of the other server and per valid dead one whose SUB was broadcast after its UNSUB, and no other entry of it |
| `Cluster.MirrorExactly` | example/topic/scheduled.nats.trigger/Godeps/_workspace/src/github.com/nats-io/gnatsd/server/route.go:239-308 | The same for a state: a mirror if and only if nothing valid has crossed |
| `Cluster.MirrorInRuns` | example/topic/scheduled.nats.trigger/Godeps/_workspace/src/github.com/nats-io/gnatsd/server/route.go:239-308 | In every run that has settled, the remote index mirrors the live subscriptions if and only if the run has crossed the lines of no valid subscription |
| `Cluster.CrossedIsCrosses` | example/topic/scheduled.nats.trigger/Godeps/_workspace/src/github.com/nats-io/gnatsd/server/client.go:476-494 | The lines of a subscription have crossed if and only if the run broadcast its UNSUB with its SUB still to come, and never again later |
| `Cluster.RaceLeavesStale` | example/topic/scheduled.nats.trigger/Godeps/_workspace/src/github.com/nats-io/gnatsd/server/client.go:476-494 | A run that ends settled with the entry of a closed client in the other index: closeConnection comes between the insert and the broadcast |
| `Cluster.MirrorInFlight` | example/topic/scheduled.nats.trigger/Godeps/_workspace/src/github.com/nats-io/gnatsd/server/route.go:285-308 | In flight or not: what a server knows of another and what is still on the link replay to the subscriptions announced, and to none gone whose lines did not cross |
| `Links.InOrder` | example/topic/scheduled.nats.trigger/Godeps/_workspace/src/github.com/nats-io/gnatsd/server/route.go:285-308 | Over any run of the cluster and any link: the messages that have arrived, with those still on the link, are those that were on it and those put on, in this order; none is lost, doubled or overtaken by lines of interest |
| `Links.Drains` | example/topic/scheduled.nats.trigger/Godeps/_workspace/src/github.com/nats-io/gnatsd/server/client.go:135-190 | In every reachable state the other end can take as many lines as are on the link, and has then read it empty, with the sending server unchanged |
| `Links.ComesAbout` | example/topic/scheduled.nats.trigger/Godeps/_workspace/src/github.com/nats-io/gnatsd/server/route.go:194-308 | So the mirror comes about: once a server has told all it has to tell, the other has only to read, and mirrors it if and only if no lines of a valid subscription have crossed |
| `Cluster.ClosedIsGone` | example/topic/scheduled.nats.trigger/Godeps/_workspace/src/github.com/nats-io/gnatsd/server/client.go:886-921 | A subscription of a closed client is in a settled remote index if and only if it is valid and its lines crossed |
| `Cluster.ComesOnce` | example/topic/scheduled.nats.trigger/Godeps/_workspace/src/github.com/nats-io/gnatsd/server/route.go:285-292 | A subscription that comes over a link is not in the table yet |
| `Cluster.LinesArrive` | example/topic/scheduled.nats.trigger/Godeps/_workspace/src/github.com/nats-io/gnatsd/server/route.go:285-308 | The lines broadcast are read by the route parser, however cut, as the subscription by its route sid |
| `ExactlyOnce.PlainOnce` | example/topic/scheduled.nats.trigger/Godeps/_workspace/src/github.com/nats-io/gnatsd/server/client.go:661-790 | In a settled mesh in which nothing valid has crossed, one publish reaches every matching plain subscription of the cluster exactly once |
| `ExactlyOnce.GroupOnce` | example/topic/scheduled.nats.trigger/Godeps/_workspace/src/github.com/nats-io/gnatsd/server/client.go:661-790 | And every queue group with a matching member exactly once in the whole cluster, other groups never |
| `ExactlyOnce.OnlyMatching` | example/topic/scheduled.nats.trigger/Godeps/_workspace/src/github.com/nats-io/gnatsd/server/client.go:661-790 | And nobody else |
| `ExactlyOnce.RemoteHop` | example/topic/scheduled.nats.trigger/Godeps/_workspace/src/github.com/nats-io/gnatsd/server/client.go:703-726 | A hop with a queue id serves only the member named; a hop with a plain id follows the plan of a route message |
| `ExactlyOnce.NamedIs` | example/topic/scheduled.nats.trigger/Godeps/_workspace/src/github.com/nats-io/gnatsd/server/route.go:214-237 | A route id of a settled peer names the subscription it was made for |
| `ExactlyOnce.StaleWinnerLoses` | example/topic/scheduled.nats.trigger/Godeps/_workspace/src/github.com/nats-io/gnatsd/server/route.go:228-236 | A queue id of a closed client makes the message reach nobody |
| `ExactlyOnce.RaceLosesMessage` | example/topic/scheduled.nats.trigger/Godeps/_workspace/src/github.com/nats-io/gnatsd/server/client.go:703-726 | After that race the other server holds an entry for which every message sent on is delivered to nobody |
| `ExactlyOnce.QueueSidReaches` | example/topic/scheduled.nats.trigger/Godeps/_workspace/src/github.com/nats-io/gnatsd/server/route.go:202-237 | A message another server sends for a live queue subscription reaches it if and only if its sid has no regexp whitespace |
| `ExactlyOnce.ShortSidGets` | example/topic/scheduled.nats.trigger/Godeps/_workspace/src/github.com/nats-io/gnatsd/server/route.go:202-237 | With whitespace behind its first bytes it goes to the subscription of the same client whose sid ends there, or is lost |
| `Filing.FindIn` | example/topic/scheduled.nats.trigger/Godeps/_workspace/src/github.com/nats-io/gnatsd/sublist/sublist.go:194-239 | What Match returns, on the sublist of a server with its trie, cache and hash table, is what a publish in `ExactlyOnce` finds |
| `Filing.MatchFinds` | example/topic/scheduled.nats.trigger/Godeps/_workspace/src/github.com/nats-io/gnatsd/sublist/sublist.go:194-239 | The subscribers of the list that match are, as subscriptions, what the index of the cluster counts |
| `Filing.InsertHolds` | example/topic/scheduled.nats.trigger/Godeps/_workspace/src/github.com/nats-io/gnatsd/sublist/sublist.go:100-149 | The list and the count of the index go on agreeing over an insert |
| `Filing.RemoveHolds` | example/topic/scheduled.nats.trigger/Godeps/_workspace/src/github.com/nats-io/gnatsd/sublist/sublist.go:284-342 | And over a removal |
| `Registry.Server.RemoveClient` | example/topic/scheduled.nats.trigger/Godeps/_workspace/src/github.com/nats-io/gnatsd/server/server.go:488-509 | The entry for a remote server goes only if it is this connection |
| `Registry.Server.AddRoute` | example/topic/scheduled.nats.trigger/Godeps/_workspace/src/github.com/nats-io/gnatsd/server/route.go:247-264 | False if another connection stands for the server; that one then shares the route record of a solicited one |
| `Registry.Server.ProcessRouteInfo` | example/topic/scheduled.nats.trigger/Godeps/_workspace/src/github.com/nats-io/gnatsd/server/route.go:61-82 | The tables stay valid if and only if no connection with this route record stood for another id before, and a connection entered for a new id is still registered |
| `Registry.Server.ProcessConnect` | example/topic/scheduled.nats.trigger/Godeps/_workspace/src/github.com/nats-io/gnatsd/server/client.go:259-262 | The name in a CONNECT is written over the id of the route; the tables stay valid if and only if the record stood for no other |
| `Registry.Server.LeftBehind` | example/topic/scheduled.nats.trigger/Godeps/_workspace/src/github.com/nats-io/gnatsd/server/client.go:259-262 | INFO with one id, CONNECT with another name, and the end of the connection: the entry for the first id stays with the connection that is gone, and another route of that server is refused |
| `Registry.Server.Register` | example/topic/scheduled.nats.trigger/Godeps/_workspace/src/github.com/nats-io/gnatsd/server/server.go:443-446 | The connection is filed under its id and the tables stay valid |
| `ConfParser.Rebuilds` | example/topic/scheduled.nats.trigger/Godeps/_workspace/src/github.com/nats-io/gnatsd/conf/parse.go:105-183 | The items of any nested value, comments among them, fed where a value can be set, set exactly that value |
| `ConfParser.Refused` | example/topic/scheduled.nats.trigger/Godeps/_workspace/src/github.com/nats-io/gnatsd/conf/parse.go:105-166 | One value in it that does not convert, wherever it stands, is refused |
| `ConfParser.LeafRefused` | example/topic/scheduled.nats.trigger/Godeps/_workspace/src/github.com/nats-io/gnatsd/conf/parse.go:118-166 | What does not convert: numbers and dates the library refuses, and TRUE and FALSE |
| `ConfParser.RebuildsRoot` | example/topic/scheduled.nats.trigger/Godeps/_workspace/src/github.com/nats-io/gnatsd/conf/parse.go:48-183 | The items of a whole configuration leave the root context alone, with the values written, and no pending keys |
| `ConfParser.FieldsKept` | example/topic/scheduled.nats.trigger/Godeps/_workspace/src/github.com/nats-io/gnatsd/conf/parse.go:168-183 | With distinct keys each key has the value written behind it, and no other key appears |
| `ConfParser.KeyLeftBehind` | example/topic/scheduled.nats.trigger/Godeps/_workspace/src/github.com/nats-io/gnatsd/conf/parse.go:105-183 | The items of "a={foo=}": the map is filed under "foo", and "a" stays pending |
| `ConfParser.Parser.ProcessItem` | example/topic/scheduled.nats.trigger/Godeps/_workspace/src/github.com/nats-io/gnatsd/conf/parse.go:105-166 | The method on its stacks does what the machine on values does, the error included |
| `ConfParser.Parser.SetVal` | example/topic/scheduled.nats.trigger/Godeps/_workspace/src/github.com/nats-io/gnatsd/conf/parse.go:168-183 | The value goes to the innermost array, or in the innermost map under the last pending key |
| `LexShape.ParserFollows` | example/topic/scheduled.nats.trigger/Godeps/_workspace/src/github.com/nats-io/gnatsd/conf/parse.go:75-103 | Where the brackets and keys of the items so far allow an item, the parser does not panic |
| `LexShape.ValueEnds` | example/topic/scheduled.nats.trigger/Godeps/_workspace/src/github.com/nats-io/gnatsd/conf/lex.go:115-123 | When a value is complete, there is a state to return to, and it fits what is open then |
| `Lexer.Lexer.Discipline` | example/topic/scheduled.nats.trigger/Godeps/_workspace/src/github.com/nats-io/gnatsd/conf/lex.go:55-123 | In every state: start <= pos <= input length, the line is one more than the newlines before, and the stack of continuations mirrors the open brackets |
| `Lexer.Lexer.Call` | example/topic/scheduled.nats.trigger/Godeps/_workspace/src/github.com/nats-io/gnatsd/conf/lex.go:182-848 | Every state function keeps that discipline and does what `LexSteps.LexStep` says |
| `Lexer.Lexer.Next` | example/topic/scheduled.nats.trigger/Godeps/_workspace/src/github.com/nats-io/gnatsd/conf/lex.go:130-142 | The next byte, or the end; position, width and line |
| `Lexer.Lexer.Backup` | example/topic/scheduled.nats.trigger/Godeps/_workspace/src/github.com/nats-io/gnatsd/conf/lex.go:150-155 | Takes back what was read, and its line |
| `Lexer.Lexer.LexBlock` | example/topic/scheduled.nats.trigger/Godeps/_workspace/src/github.com/nats-io/gnatsd/conf/lex.go:635-664 | The block ends at a parenthesis alone on its line; at the end of the input that parenthesis is taken into the string |
| `Lexer.Lexer.LexDateAfterYear` | example/topic/scheduled.nats.trigger/Godeps/_workspace/src/github.com/nats-io/gnatsd/conf/lex.go:741-764 | The loop over the date format accepts exactly the format |
| `Lexer.Lexer.NextItem` | example/topic/scheduled.nats.trigger/Godeps/_workspace/src/github.com/nats-io/gnatsd/conf/lex.go:89-98 | The items come in order, each allowed by what the parser has seen, and the lexer is where its state functions lead |
| `LexSteps.Balance` | example/topic/scheduled.nats.trigger/Godeps/_workspace/src/github.com/nats-io/gnatsd/conf/lex.go:502-531 | At every step: keys met by a closing brace in place of a value, and those about to be, are the map keys with that brace behind them |
| `LexSteps.OrphansDangle` | example/topic/scheduled.nats.trigger/Godeps/_workspace/src/github.com/nats-io/gnatsd/conf/lex.go:502-531 | At the end of the input the count of `lexMapValue` meeting a closing brace is the count of map keys followed, over blanks, newlines and one separator, by one |
| `LexStops.StopsExactly` | example/topic/scheduled.nats.trigger/Godeps/_workspace/src/github.com/nats-io/gnatsd/conf/lex.go:89-98 | The lexer stops, after at most 32n+13 calls of state functions, if and only if the input does not end inside a key, a quoted string or a block; otherwise it calls the same state function for ever |
| `LexStops.StepFalls` | example/topic/scheduled.nats.trigger/Godeps/_workspace/src/github.com/nats-io/gnatsd/conf/lex.go:182-848 | Every step but one at the end of the input inside a key, a quoted string or a block brings the lexer closer to its end |
| `LexStops.KeyAloneNeverStops` | example/topic/scheduled.nats.trigger/Godeps/_workspace/src/github.com/nats-io/gnatsd/conf/lex.go:246-292 | For an input that is one key and nothing else, "a" for one, the lexer never stops |
| `Lexer.Parse` | example/topic/scheduled.nats.trigger/Godeps/_workspace/src/github.com/nats-io/gnatsd/conf/parse.go:48-69 | No panic on any input; what is parsed is what all items of the input come to, with only the root context left; as many keys stay pending as map keys are followed by a closing brace, so none does if and only if there is no such key; with fuel linear in the input it is left unfinished only if the lexer would never stop; it fails if and only if the lexer comes to bytes that cannot stand where they are, or a value does not convert |
| `Flaws.StepAgrees` | example/topic/scheduled.nats.trigger/Godeps/_workspace/src/github.com/nats-io/gnatsd/conf/lex.go:182-848 | Each state function: an error item, and the end, if and only if the bytes are among those that cannot stand there; no other error, and no other end but that of the input |
| `Flaws.ErrorsAreFlaws` | example/topic/scheduled.nats.trigger/Godeps/_workspace/src/github.com/nats-io/gnatsd/conf/lex.go:89-175 | In every run from the start: an error item has been emitted if and only if the lexer came to such bytes, and errors and the end come last |
| `Flaws.ParsedIsClean` | example/topic/scheduled.nats.trigger/Godeps/_workspace/src/github.com/nats-io/gnatsd/conf/parse.go:48-69 | What is parsed has no error item and no value that does not convert |
| `ConfTrees.LexesBack` | example/topic/scheduled.nats.trigger/Godeps/_workspace/src/github.com/nats-io/gnatsd/conf/lex.go:182-848 | The text of a configuration is lexed to exactly the items it was written with, in at most 4n+2 steps: keys and strings plain, escaped and in either quotes, blocks, booleans, numbers, dates, nested arrays and maps, every separator and terminator, blanks, newlines and comments |
| `ConfTrees.ReadComment` | example/topic/scheduled.nats.trigger/Godeps/_workspace/src/github.com/nats-io/gnatsd/conf/lex.go:823-840 | Wherever a comment may stand: its text up to the newline is emitted, and the lexer is back where it was |
| `ConfTrees.ReadSlashKey` | example/topic/scheduled.nats.trigger/Godeps/_workspace/src/github.com/nats-io/gnatsd/conf/lex.go:428-460 | In a map, a slash before a key is no part of it |
| `ConfTrees.ParsesBack` | example/topic/scheduled.nats.trigger/Godeps/_workspace/src/github.com/nats-io/gnatsd/conf/parse.go:40-69 | The round trip: a configuration written out is parsed back to the values it stands for, or, if one of them does not convert, refused |
| `ConfValues.ValuesBack` | example/topic/scheduled.nats.trigger/Godeps/_workspace/src/github.com/nats-io/gnatsd/conf/parse.go:40-69 | From values to text and back: every map of strings, integers, fractions, booleans, dates, arrays and maps that has a text is what that text is parsed to |
| `ConfValues.SampleParses` | example/topic/scheduled.nats.trigger/Godeps/_workspace/src/github.com/nats-io/gnatsd/conf/parse.go:40-69 | "port=4222" and "debug=true", byte by byte |

## Findings

Properties one would expect of the code that do not hold of it, each with an instance and with the exact
condition under which the code has the property.

- **A jump can overflow.** `server/parser.go:175` adds the size of a PUB line to an index.  Without a
  payload limit, as on every route, the size may be any number below 2^63: "PUB s 9223372036854775807"
  makes the sum wrap, the index negative, and the next `buf[i]` panic.  `Parser.Client.Parse` has the
  exact guard, `Limits.PubOverruns` and `Limits.FeedPub` the exact sizes.
- **A payload can have no array.** `server/parser.go:634` panics if size+2 wraps or is more than any array can
  have, "PUB s 9000000000000000000" for one, or if more bytes than size+2 are already there, which a body
  without its newline can bring about.  The branch is taken only if the size does not fit behind the saved
  line in the scratch array.  `Parser.Client.Parse` has the exact guard, `Limits.PubUnmakeable` and
  `Limits.FeedPub` the instances.  `Framing.ServeFrames` shows that well-framed streams no longer than the
  largest array do not panic.
- **A cut can be noticed.** A CR inside an argument that no LF follows is stored differently after a cut
  (`CutInvariance.UncleanArgShows`), and may reach a call (`UncleanTextParts`); an LF right behind a
  payload is an error only after a cut (`UncleanPayloadFails`).  `CutInvariance.StoredAlikeExactly` has the
  exact condition on the stream for what is stored, `Hearing.HeardExactly` for the calls and the error, with
  the next two cases among them.
- **A PUB on a route can be taken for another's sid.** `processPub` leaves the sid of the last MSG line in the
  argument record (`server/client.go:379-431`), and `processMsg` reads it for every message of a route
  (`server/client.go:712`).  It is a window of the read buffer, and the next read writes over it.  Of "MSG a
  QRSID:1:x 1", "b", "PUB a 1", "b" the second message goes to one queue subscription or to nobody if all comes in one
  read, and to all plain subscriptions if a read comes in between (`StaleSids.InOneRead`, `InTwoReads`,
  `OtherReaders`).  `Framing.FramedExactly` has the exact condition on a framed stream; `Framing.LooksSettled` says
  that clients, and routes that send no PUB behind a MSG, meet it.
- **What follows a -ERR depends on the reads.** `processErr` closes the connection (`server/client.go:235-238`), `parse`
  goes on to the end of its buffer, and `readLoop` returns (`server/client.go:182-188`).  A line behind a -ERR
  line, a PUB with its message for one, is carried out in the same read and never in the next
  (`Framing.ReadBehindErr` has a PING).  `Hearing.HeardExactly` and `Framing.FramedExactly` have the exact
  condition: nothing is called for and no error met behind the line.
- **A remote entry can outlive its client.** `processSub` releases the client's lock before it broadcasts
  (`server/client.go:486-494`).  If `closeConnection` comes in between, its UNSUB is broadcast before the
  SUB, and the other server keeps the entry (`Cluster.RaceLeavesStale`); a message it sends on for that
  entry is lost (`ExactlyOnce.RaceLosesMessage`).  `Cluster.MirrorInRuns` has the exact condition on the
  run.
- **The cache and the trie read subjects differently.** The byte matcher that updates the cache
  (`sublist/sublist.go:400-432`) and the trie disagree on a literal that ends in an empty token, and on
  subjects that have a wildcard inside a longer token, "a*b" for one.  `Subject.TwoMatchers` has the exact
  condition on the literal, `Subject.WellFormedExactly` on the subject.  `Sublist` keeps the cache right
  as long as no subject outside that condition is filed or removed.
- **A map key can stay pending.** In "a={foo=}" the closing brace comes where the value of "foo" should
  be; the lexer lets it pass, and the map is filed under "foo" (`ConfParser.KeyLeftBehind`).
  `Lexer.Parse` says exactly how many keys stay pending, and when none does.
- **The lexer can run for ever.** The state functions for the inside of a key, of a quoted string and of a
  block do not look for the end of the input.  An input that ends there, such as "a" or "a='b", keeps
  `nextItem` (`conf/lex.go:89-98`) in its loop (`LexStops.KeyAloneNeverStops`).  `LexStops.StopsExactly`
  says that it stops on all other inputs, and how soon.
- **A route record can be told another id.** By a second INFO, and by the name in a CONNECT, which nobody compares
  with the table (`server/client.go:259-262`).  The entry for the first id outlives the connection, and no other route
  of that server is registered again (`Registry.Server.LeftBehind`).  `Registry.Server.ProcessRouteInfo` and
  `ProcessConnect` have the exact conditions under which the table of remotes stays valid.
- **A queue sid can be cut short.** A sid with a form feed, "a\fb" for one, is one word of a SUB line, and in its route
  id ends before the form feed (`RouteSid.FormFeedInSid`).  A message another server sends for it goes to the
  subscription "a" of the same client, or is lost (`ExactlyOnce.ShortSidGets`).  If the sid starts with the form feed
  and a route id follows, the subscription of that id is named (`RouteSid.NamesAnother`).
  `ExactlyOnce.QueueSidReaches` has the exact condition on the sid.
- **The byte before the last of a message is not looked at.** The protocol ends a payload with CRLF; `parse` takes any
  byte and a newline (`server/parser.go:207-227`).  `Lines.MessageExactly` says exactly which messages are taken.
- **TRUE and FALSE are no booleans.** The lexer takes them for booleans (`conf/lex.go:569-572`), and the parser knows
  them in lower case only (`conf/parse.go:140-147`), so a configuration with one of them is refused
  (`ConfParser.LeafRefused`).  `ConfTrees.ParsesBack` says that otherwise only a number or a date that the library does
  not convert makes a well-formed configuration fail.
- **A slash before a key is lost.** In a map, "/a" is read as the key "a" (`conf/lex.go:446-461`,
  `ConfTrees.ReadSlashKey`), and at the top it is an error (`Flaws.StepAgrees`).
- **A block takes its end.** At the end of the input the closing parenthesis of a block string becomes
  part of the string (`Lexer.Lexer.LexBlock`).

## Left out

- The Java service, `ws.js`, sockets, TLS, timers, deadlines, HTTP monitoring, statistics, option merging: I/O and library plumbing.
- CutInvariance.StoredAlikeExactly: compares the stored bytes as well as the calls and the error; `Hearing.HeardExactly` compares the calls, the error and the arguments of the message to come.
- ReadLoop.ReadAll: requires that no read ends inside an INFO argument; the code loses the beginning of such a line, where the machine of `Protocol`, and with it `CutInvariance` and `Hearing`, keeps it.
- Hearing.HeardExactly: so says nothing of the code for cuts inside an INFO argument.
- Parser.Make: a parameter says how large an array can be; running out of memory below that is not modelled.
- Protocol.Cut: what a sid of an earlier line shows once it lies in an array of the connection is not told by the machine; `Parser.Client` has the bytes.
- Protocol.Closes: of the calls, -ERR and a second INFO of a route close the connection; a close by a failed write, a timer or another goroutine is not modelled.
- Parser.Client.Parse: the replies sent to the peer (+OK, -ERR, PONG, the pedantic "Invalid Subject") are not part of the calls.
- TrieShape.Links: the table of a level is a map, not a `HashMap.HashMap`; that the hash table behaves as a map is proved once and used for the cache only, so the trie over hash tables is not put together.
- Trie.Trie.MatchLevel: the results are a value until `Match` stores them; their growth in the caller's slice is not modelled.
- HashMap.HashMap.Set: counters are natural numbers, so the wrap of `used` at 2^32 entries is not modelled; the cap on the number of buckets is.
- HashMap.Word: a byte is a `char` here as everywhere, so a word counts in the number of values of a `char` instead of 256.
- AutoUnsub.Client.DeliverLocked: buffered writes, flushing, write deadlines and the slow-consumer close are one outcome, written or not.
- AutoUnsub.LimitBounds: the reads of `nm` and `max` without the lock in `broadcastUnSubscribe` are not modelled.
- Cluster.Mirror: limits of UNSUB (auto-unsubscribe) and the reuse of a sid by one client are not events of the cluster; the first is treated on one server in `AutoUnsub`.
- Cluster.Init: the routes are there from the start and stay; setting up, losing and reconnecting a route, and sending local subscriptions to a new one, are not modelled.
- Cluster.Closed: removing the client from the server's table is part of the close.
- Registry.Server.AddRoute: locks and the order of two calls of different connections are not modelled.
- Lexer.Parse: runs for at most `fuel` steps, since it need not stop; `LexStops.StopsExactly` says how much fuel is enough.
- Lexer.Lexer.Next: takes one byte, where the code takes a UTF-8 rune; runes of more than one byte are not modelled.
- Lexer.Lexer.Backup: takes back one byte for the same reason.
- Lexer.Lexer.Errorf: the texts of error items are not modelled.
- ConfParser.Env: the conversions of integers, floats and dates by the standard library are parameters.
- ConfTrees.ParsesBack: a lone slash where the lexer passes over it, a comment or a block at the very end of the input, and a quoted key without a separator are read but not written.
- ConfValues.ValuesBack: a string or a key with quotes of both kinds has no text there.
- LexSteps.LineAt: that the lines of the items rise is not stated; the line of the lexer is (`Lexer.Lexer.Discipline`).
