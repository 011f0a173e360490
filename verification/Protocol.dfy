/** The protocol machine of server/parser.go, one byte at a time and on values.

    The Go parser behaves differently before and after a read buffer runs out in the middle of
    an operation: until then an argument is the slice `buf[as:i-drop]`, afterwards it is the
    copy `argBuf`, to which `\r` is never appended; likewise the payload.  The machine keeps
    this difference (`saved` is `argBuf != nil`, `msaved` is `msgBuf != nil`), and `Cut` is
    what the end of a read buffer does.  Module Parser proves the index-and-slice code equal
    to this machine; module CutInvariance proves when the cuts cannot be noticed. */
module Protocol {
  import opened Base
  import opened Args

  datatype ConnType = Client | Router

  /** The largest array that can be made, in bytes. */
  type AllocLimit = n: nat | n < TWO63 witness 0

  /** What the parser needs to know of its connection and its machine: its type, the payload
      limit (0 for none), the largest array, the verdict of the JSON and authorization code on
      CONNECT and INFO, and whether an INFO that is the n-th call closes a route. */
  datatype Env = Env(
    typ: ConnType, mpay: int, maxAlloc: AllocLimit,
    connectOk: Bytes -> bool, infoOk: Bytes -> bool, infoCloses: (nat, Bytes) -> bool)

  /** The states inside a verb, named after the constants of parser.go:28-79. */
  datatype Verb =
    | OpStart
    | OpPlus | OpPlusO
    | OpMinus | OpMinusE | OpMinusEr | OpMinusErr
    | OpC | OpCo | OpCon | OpConn | OpConne | OpConnec
    | OpP | OpPu | OpPub | OpPi | OpPin | OpPo | OpPon
    | OpS | OpSu | OpSub
    | OpU | OpUn | OpUns | OpUnsu
    | OpM | OpMs | OpMsg
    | OpI | OpIn | OpInf

  /** The operations with an argument line, and those without. */
  datatype Line = PubLine | MsgLine | SubLine | UnsubLine | ConnectLine | InfoLine | ErrLine
  datatype Short = PingOp | PongOp | OkOp

  /** `Blanks` are the states that skip blanks before an argument (OP_PUB_SPC, OP_UNSUB, ...),
      `Arg` the states inside one (PUB_ARG, ...), `Tail` those waiting for a newline. */
  datatype State = In(verb: Verb) | Blanks(of: Line) | Arg(of: Line) | Tail(what: Short) | MsgPayload | MsgEnd

  datatype Error =
    | Unknown                      // "Unknown Protocol Operation"
    | Authorization
    | MaxPayload
    | BadConnect | BadInfo | BadPub | BadMsg | BadSub | BadUnsub

  /** The arguments of a PUB or MSG line; a PUB line carries no sid. */
  datatype Pa = Pa(subject: Bytes, reply: Option<Bytes>, sid: Option<Bytes>, szb: Bytes, size: int)

  /** The sid that MSG lines leave in the argument record.  PUB lines do not touch it, and
      processMsg reads it for every message of a route: none; one that lies in the read buffer
      and shows `bytes`; or one that lies in an array of the connection, which the next line
      that is saved writes over: what it shows is not told. */
  datatype Stale = NoSid | Seen(bytes: Bytes) | Hidden

  /** The calls the parser makes, with the bytes it hands over.  `msg` includes the CRLF;
      `stale` is the sid a message without one of its own is taken to be for. */
  datatype Op =
    | Ping
    | Pong
    | Connect(arg: Bytes)
    | Info(arg: Bytes)
    | Complaint(arg: Bytes)
    | Sub(subject: Bytes, queue: Option<Bytes>, sid: Bytes)
    | Unsub(sid: Bytes, max: int)
    | Message(pa: Pa, stale: Stale, msg: Bytes)

  const NO_PA := Pa([], None, None, [], 0)

  // ----- argument lines -----

  function SubOp(arg: Bytes): Result<Op, Error> {
    var f := Fields(arg);
    if |f| == 2 then Ok(Sub(f[0], None, f[1]))
    else if |f| == 3 then Ok(Sub(f[0], Some(f[1]), f[2]))
    else Err(BadSub)
  }

  /** A missing or zero limit and an unreadable one all clear the limit. */
  function UnsubOp(arg: Bytes): Result<Op, Error> {
    var f := Fields(arg);
    if |f| == 1 then Ok(Unsub(f[0], 0))
    else if |f| == 2 then Ok(Unsub(f[0], if ParseSize(f[1]) > 0 then ParseSize(f[1]) else 0))
    else Err(BadUnsub)
  }

  function PubPa(env: Env, arg: Bytes): (r: Result<Pa, Error>)
    ensures r.Ok? ==> 0 <= r.value.size < TWO63 && (env.mpay > 0 ==> r.value.size <= env.mpay)
  {
    PubFields(env, Fields(arg))
  }

  function PubFields(env: Env, f: seq<Bytes>): (r: Result<Pa, Error>)
    ensures r.Ok? ==> 0 <= r.value.size < TWO63 && (env.mpay > 0 ==> r.value.size <= env.mpay)
  {
    if |f| != 2 && |f| != 3 then Err(BadPub)
    else
      var szb := f[|f| - 1];
      var size := ParseSize(szb);
      if size < 0 then Err(BadPub)
      else if env.mpay > 0 && size > env.mpay then Err(MaxPayload)
      else Ok(Pa(f[0], if |f| == 3 then Some(f[1]) else None, None, szb, size))
  }

  function MsgPa(arg: Bytes): (r: Result<Pa, Error>)
    ensures r.Ok? ==> 0 <= r.value.size < TWO63
  {
    MsgFields(Fields(arg))
  }

  function MsgFields(f: seq<Bytes>): (r: Result<Pa, Error>)
    ensures r.Ok? ==> 0 <= r.value.size < TWO63
  {
    if |f| != 3 && |f| != 4 then Err(BadMsg)
    else
      var szb := f[|f| - 1];
      var size := ParseSize(szb);
      if size < 0 then Err(BadMsg)
      else Ok(Pa(f[0], if |f| == 4 then Some(f[2]) else None, Some(f[1]), szb, size))
  }

  // ----- the states -----

  /** The argument states whose bytes survive the end of a read buffer (parser.go:615-617). */
  predicate IsKeptArg(st: State) { st.Arg? && !st.of.InfoLine? }

  predicate IsBody(st: State) { st.MsgPayload? || st.MsgEnd? }

  /** The letters of the verbs; None is a parse error. */
  function Keyword(typ: ConnType, verb: Verb, b: char): Option<State> {
    match verb
    case OpStart =>
      (match b
       case 'P' | 'p' => Some(In(OpP))
       case 'S' | 's' => Some(In(OpS))
       case 'U' | 'u' => Some(In(OpU))
       case 'M' | 'm' => if typ.Client? then None else Some(In(OpM))
       case 'C' | 'c' => Some(In(OpC))
       case 'I' | 'i' => Some(In(OpI))
       case '+' => Some(In(OpPlus))
       case '-' => Some(In(OpMinus))
       case _ => None)
    case OpP =>
      (match b
       case 'U' | 'u' => Some(In(OpPu))
       case 'I' | 'i' => Some(In(OpPi))
       case 'O' | 'o' => Some(In(OpPo))
       case _ => None)
    case OpPu => Letter(b, 'B', 'b', In(OpPub))
    case OpPub => Letter(b, ' ', '\t', Blanks(PubLine))
    case OpPi => Letter(b, 'N', 'n', In(OpPin))
    case OpPin => Letter(b, 'G', 'g', Tail(PingOp))
    case OpPo => Letter(b, 'N', 'n', In(OpPon))
    case OpPon => Letter(b, 'G', 'g', Tail(PongOp))
    case OpS => Letter(b, 'U', 'u', In(OpSu))
    case OpSu => Letter(b, 'B', 'b', In(OpSub))
    case OpSub => Letter(b, ' ', '\t', Blanks(SubLine))
    case OpU => Letter(b, 'N', 'n', In(OpUn))
    case OpUn => Letter(b, 'S', 's', In(OpUns))
    case OpUns => Letter(b, 'U', 'u', In(OpUnsu))
    case OpUnsu => Letter(b, 'B', 'b', Blanks(UnsubLine))
    case OpC => Letter(b, 'O', 'o', In(OpCo))
    case OpCo => Letter(b, 'N', 'n', In(OpCon))
    case OpCon => Letter(b, 'N', 'n', In(OpConn))
    case OpConn => Letter(b, 'E', 'e', In(OpConne))
    case OpConne => Letter(b, 'C', 'c', In(OpConnec))
    case OpConnec => Letter(b, 'T', 't', Blanks(ConnectLine))
    case OpM => Letter(b, 'S', 's', In(OpMs))
    case OpMs => Letter(b, 'G', 'g', In(OpMsg))
    case OpMsg => Letter(b, ' ', '\t', Blanks(MsgLine))
    case OpI => Letter(b, 'N', 'n', In(OpIn))
    case OpIn => Letter(b, 'F', 'f', In(OpInf))
    case OpInf => Letter(b, 'O', 'o', Blanks(InfoLine))
    case OpPlus => Letter(b, 'O', 'o', In(OpPlusO))
    case OpPlusO => Letter(b, 'K', 'k', Tail(OkOp))
    case OpMinus => Letter(b, 'E', 'e', In(OpMinusE))
    case OpMinusE => Letter(b, 'R', 'r', In(OpMinusEr))
    case OpMinusEr => Letter(b, 'R', 'r', In(OpMinusErr))
    case OpMinusErr => Letter(b, ' ', '\t', Blanks(ErrLine))
  }

  function Letter(b: char, upper: char, lower: char, next: State): Option<State> {
    if b == upper || b == lower then Some(next) else None
  }

  // ----- the machine -----

  /** `tok` is the argument so far (raw while it still lies in the read buffer), `msg` the
      payload so far, `stale` the sid of the last MSG line.  A `closed` connection is parsed to
      the end of its read buffer, and not read again.  `err` ends it at once. */
  datatype PS = PS(
    st: State, drop: nat,
    saved: bool, tok: Bytes,
    pa: Pa, msaved: bool, msg: Bytes, stale: Stale,
    auth: bool, closed: bool, log: seq<Op>, err: Option<Error>)

  function Init(auth: bool): PS {
    PS(In(OpStart), 0, false, [], NO_PA, false, [], NoSid, auth, false, [], None)
  }

  function Fail(s: PS, e: Error): PS { s.(err := Some(e)) }

  /** Back to OP_START with all buffers released and `ops` dispatched. */
  function Restart(s: PS, ops: seq<Op>): PS {
    s.(st := In(OpStart), drop := 0, saved := false, tok := [], pa := NO_PA, msaved := false, msg := [],
       log := s.log + ops)
  }

  function Step(env: Env, s: PS, b: char): PS {
    if s.err.Some? then s
    else
      match s.st
      case In(verb) =>
        if verb.OpStart? && s.auth && b != 'C' && b != 'c' then Fail(s, Authorization)
        else StepVerb(s, Keyword(env.typ, verb, b))
      case Blanks(of) => if IsBlank(b) then s else s.(st := Arg(of), tok := [b])
      case Arg(of) => StepArg(env, of, s, b)
      case Tail(what) => if b == '\n' then Restart(s, TailOps(what)) else s
      case MsgPayload => StepPayload(s, b)
      case MsgEnd => StepEnd(s, b)
  }

  function StepVerb(s: PS, next: Option<State>): PS {
    match next case None => Fail(s, Unknown) case Some(st) => s.(st := st)
  }

  function TailOps(what: Short): seq<Op> {
    match what case PingOp => [Ping] case PongOp => [Pong] case OkOp => []
  }

  function StepArg(env: Env, of: Line, s: PS, b: char): PS {
    if b == '\r' then s.(drop := 1, tok := if s.saved then s.tok else s.tok + [b])
    else if b == '\n' then EndArg(env, s, OutcomeOf(env, of, ArgOf(s)))
    else s.(tok := s.tok + [b])
  }

  /** The argument handed over at the newline: argBuf, or buf[as:i-drop]. */
  function ArgOf(s: PS): Bytes {
    if s.saved || |s.tok| < s.drop then s.tok else s.tok[..|s.tok| - s.drop]
  }

  /** What an argument line asks for. */
  datatype Outcome = Dispatch(op: Op) | Body(pa: Pa) | Refuse(error: Error)

  function OutcomeOfOp(r: Result<Op, Error>): Outcome {
    match r case Ok(op) => Dispatch(op) case Err(e) => Refuse(e)
  }

  function OutcomeOfPa(r: Result<Pa, Error>): Outcome {
    match r case Ok(pa) => Body(pa) case Err(e) => Refuse(e)
  }

  function OutcomeOf(env: Env, of: Line, arg: Bytes): (o: Outcome)
    ensures o.Body? ==> 0 <= o.pa.size < TWO63
  {
    match of
    case PubLine => OutcomeOfPa(PubPa(env, arg))
    case MsgLine => OutcomeOfPa(MsgPa(arg))
    case SubLine => OutcomeOfOp(SubOp(arg))
    case UnsubLine => OutcomeOfOp(UnsubOp(arg))
    case ConnectLine => if env.connectOk(arg) then Dispatch(Connect(arg)) else Refuse(BadConnect)
    case InfoLine => if env.infoOk(arg) then Dispatch(Info(arg)) else Refuse(BadInfo)
    case ErrLine => Dispatch(Complaint(arg))
  }

  /** processErr closes the connection, and so does a second INFO of a route. */
  predicate Closes(env: Env, n: nat, op: Op) {
    op.Complaint? || (op.Info? && env.typ.Router? && env.infoCloses(n, op.arg))
  }

  /** A successful CONNECT clears the authorization timer.  Before a payload a saved argument
      line stays saved: the arguments point into it. */
  function EndArg(env: Env, s: PS, o: Outcome): PS {
    match o
    case Dispatch(op) =>
      Restart(s, [op]).(auth := s.auth && !op.Connect?, closed := s.closed || Closes(env, |s.log|, op))
    case Body(pa) =>
      s.(st := MsgPayload, drop := 0, tok := [], pa := pa, msaved := false, msg := [], stale := Left(s, pa))
    case Refuse(e) => Fail(s, e)
  }

  /** The sid in the argument record after a line with the arguments `pa`. */
  function Left(s: PS, pa: Pa): Stale {
    if pa.sid.None? then s.stale else if s.saved then Hidden else Seen(pa.sid.value)
  }

  /** In the read buffer the byte after the payload is consumed before MSG_END is entered; in
      a saved payload MSG_END is entered as soon as `size` bytes are there. */
  function StepPayload(s: PS, b: char): PS {
    var msg := s.msg + [b];
    var done := if s.msaved then |msg| >= s.pa.size else |s.msg| >= s.pa.size;
    s.(msg := msg, st := if done then MsgEnd else MsgPayload)
  }

  function StepEnd(s: PS, b: char): PS {
    var msg := s.msg + [b];
    if b != '\n' then s.(msg := msg)
    else if |msg| != s.pa.size + 2 then Fail(s, Unknown)
    else Restart(s, [Message(s.pa, Inherited(s), msg)])
  }

  /** The sid processMsg takes a message for that has none of its own. */
  function Inherited(s: PS): Stale { if s.pa.sid.Some? then NoSid else s.stale }

  function Run(env: Env, s: PS, bytes: Bytes): PS
    decreases |bytes|
  {
    if bytes == [] then s else Run(env, Step(env, s, bytes[0]), bytes[1..])
  }

  /** The end of a read buffer (parser.go:614-640).  With the arguments of a message clonePubArg
      copies the sid in the record, whosever it is. */
  function Cut(s: PS): PS {
    if s.err.Some? then s
    else if IsKeptArg(s.st) && !s.saved then s.(saved := true, tok := ArgOf(s))
    else if IsBody(s.st) && !s.msaved then
      s.(saved := true, msaved := true, stale := if s.saved || s.stale.NoSid? then s.stale else Hidden)
    else s
  }

  /** The next read has written over the read buffer, where a sid left behind now shows `x`. */
  function Reread(s: PS, x: Bytes): PS {
    if s.stale.Seen? && |x| == |s.stale.bytes| then s.(stale := Seen(x)) else s
  }

  /** A payload, or a part of one, that is still in the read buffer. */
  predicate Unsaved(s: PS) { s.err.None? && IsBody(s.st) && !s.msaved }

  /** The array to save it in cannot be made: it would be larger than any array can be, or it is
      already longer than a message of its size. */
  predicate Unmakeable(env: Env, s: PS) { Unsaved(s) && (s.pa.size + 2 > env.maxAlloc || |s.msg| > s.pa.size + 2) }

  /** A good PUB line ends at index `i` of a read buffer, and the index its payload ends at
      overflows. */
  predicate Overruns(env: Env, s: PS, b: char, i: nat) {
    s.err.None? && s.st == Arg(PubLine) && b == '\n' && var t := Step(env, s, b); t.err.None? && i + t.pa.size >= TWO63
  }

  /** One does so from `pos` on. */
  predicate SomeOverrun(env: Env, s: PS, b: Bytes, pos: nat)
    requires pos <= |b|
    decreases |b| - pos
  {
    pos < |b| && (Overruns(env, s, b[pos], pos) || SomeOverrun(env, Step(env, s, b[pos]), b, pos + 1))
  }

  /** The parser may panic on the buffer `b`. */
  predicate MayPanic(env: Env, s: PS, b: Bytes) { SomeOverrun(env, s, b, 0) || Unmakeable(env, Run(env, s, b)) }

  /** One read: `x` is what it leaves to see of a sid in the read buffer. */
  function ReadOnce(env: Env, s: PS, x: Bytes, chunk: Bytes): PS { Cut(Run(env, Reread(s, x), chunk)) }

  /** Nothing is read any more. */
  predicate Over(s: PS) { s.closed || s.err.Some? }

  /** Successive reads, as long as the connection is open; `mem` has for each what it leaves to
      see of a sid in the read buffer. */
  function RunCuts(env: Env, s: PS, chunks: seq<Bytes>, mem: seq<Bytes>): PS
    requires |mem| == |chunks|
    decreases |chunks|
  {
    if chunks == [] || Over(s) then s else RunCuts(env, ReadOnce(env, s, mem[0], chunks[0]), chunks[1..], mem[1..])
  }

  lemma {:induction false} RunAppend(env: Env, s: PS, a: Bytes, b: Bytes)
    ensures Run(env, s, a + b) == Run(env, Run(env, s, a), b)
    decreases |a|
  {
    if a == [] {
      assert a + b == b;
    } else {
      RunAppend(env, Step(env, s, a[0]), a[1..], b);
      assert (a + b)[1..] == a[1..] + b;
    }
  }

  lemma RunSnoc(env: Env, s: PS, a: Bytes, b: char)
    ensures Run(env, s, a + [b]) == Step(env, Run(env, s, a), b)
  {
    RunAppend(env, s, a, [b]);
    assert Run(env, Run(env, s, a), [b]) == Run(env, Step(env, Run(env, s, a), b), []);
  }

  lemma RunOn(env: Env, s: PS, b: Bytes, i: nat, j: nat, k: nat)
    requires i <= j <= k <= |b|
    ensures Run(env, s, b[i..k]) == Run(env, Run(env, s, b[i..j]), b[j..k])
  {
    assert b[i..k] == b[i..j] + b[j..k];
    RunAppend(env, s, b[i..j], b[j..k]);
  }

  lemma StepOn(env: Env, s: PS, b: Bytes, i: nat, k: nat)
    requires i < k <= |b|
    ensures Run(env, s, b[i..k]) == Run(env, Step(env, s, b[i]), b[i + 1..k])
  {
    assert b[i..k][0] == b[i] && b[i..k][1..] == b[i + 1..k];
  }

  lemma OneStep(env: Env, s: PS, b: Bytes, pos: nat)
    requires pos < |b|
    ensures Run(env, s, b[pos..pos + 1]) == Step(env, s, b[pos])
  {
    assert b[pos..pos + 1] == [b[pos]];
    assert Run(env, s, [b[pos]]) == Run(env, Step(env, s, b[pos]), []);
  }

  lemma {:induction false} RunFailed(env: Env, s: PS, bytes: Bytes)
    requires s.err.Some?
    ensures Run(env, s, bytes) == s
    decreases |bytes|
  {
    if bytes != [] { RunFailed(env, s, bytes[1..]); }
  }

  /** An error in the middle of a stream is the error of the stream. */
  lemma RunFails(env: Env, s: PS, b: Bytes, pos: nat)
    requires pos < |b|
    requires Step(env, Run(env, s, b[..pos]), b[pos]).err.Some?
    ensures Run(env, s, b) == Step(env, Run(env, s, b[..pos]), b[pos])
  {
    assert b == b[..pos] + b[pos..];
    RunAppend(env, s, b[..pos], b[pos..]);
    StepOn(env, Run(env, s, b[..pos]), b, pos, |b|);
    RunFailed(env, Step(env, Run(env, s, b[..pos]), b[pos]), b[pos + 1..]);
  }

  lemma KeywordIsPlain(typ: ConnType, verb: Verb, b: char)
    ensures var k := Keyword(typ, verb, b); k.Some? ==> !k.value.Arg? && !IsBody(k.value)
  {
  }

  // ----- the payload jump -----

  /** Bytes of the payload still in the read buffer change nothing but the collected payload:
      what PUB's index jump relies on, for every size including 0 and 1. */
  lemma {:induction false} RunPayloadInBuffer(env: Env, s: PS, bytes: Bytes)
    requires s.err.None? && s.st.MsgPayload? && !s.msaved
    requires |s.msg| + |bytes| <= s.pa.size
    ensures Run(env, s, bytes) == s.(msg := s.msg + bytes)
    decreases |bytes|
  {
    if bytes == [] {
      assert s.msg + bytes == s.msg;
    } else {
      RunPayloadInBuffer(env, Step(env, s, bytes[0]), bytes[1..]);
      assert s.msg + [bytes[0]] + bytes[1..] == s.msg + bytes;
    }
  }

  /** The bulk copy into a saved payload, with the state it ends in. */
  lemma {:induction false} RunPayloadSaved(env: Env, s: PS, bytes: Bytes)
    requires s.err.None? && s.st.MsgPayload? && s.msaved
    requires bytes != [] && |s.msg| + |bytes| <= s.pa.size
    ensures Run(env, s, bytes) ==
            s.(msg := s.msg + bytes, st := if |s.msg| + |bytes| >= s.pa.size then MsgEnd else MsgPayload)
    decreases |bytes|
  {
    var t := Step(env, s, bytes[0]);
    if |bytes| == 1 {
      assert bytes == [bytes[0]];
      assert Run(env, s, bytes) == Run(env, t, []);
    } else {
      RunPayloadSaved(env, t, bytes[1..]);
      assert s.msg + [bytes[0]] + bytes[1..] == s.msg + bytes;
    }
  }

  // ----- overruns -----

  lemma {:induction false} FailedOverruns(env: Env, s: PS, b: Bytes, pos: nat)
    requires s.err.Some? && pos <= |b|
    ensures !SomeOverrun(env, s, b, pos)
    decreases |b| - pos
  {
    if pos < |b| { FailedOverruns(env, s, b, pos + 1); }
  }

  lemma FailsOverruns(env: Env, s: PS, b: Bytes, pos: nat)
    requires pos < |b| && Step(env, s, b[pos]).err.Some?
    ensures !SomeOverrun(env, s, b, pos)
  {
    FailedOverruns(env, Step(env, s, b[pos]), b, pos + 1);
  }

  lemma NoneLeft(env: Env, s: PS, b: Bytes)
    ensures !SomeOverrun(env, s, b, |b|)
  {
  }

  /** No PUB line ends in a payload. */
  lemma {:induction false} PayloadOverruns(env: Env, s: PS, b: Bytes, i: nat, j: nat)
    requires i <= j <= |b|
             && (i < j ==> s.err.None? && s.st.MsgPayload? && (|s.msg| + (j - i) <= s.pa.size || j == i + 1))
    ensures SomeOverrun(env, s, b, i) <==> SomeOverrun(env, Run(env, s, b[i..j]), b, j)
    decreases j - i
  {
    if i == j {
      assert b[i..j] == [];
    } else {
      StepOn(env, s, b, i, j);
      PayloadOverruns(env, Step(env, s, b[i]), b, i + 1, j);
    }
  }

  lemma StepOverruns(env: Env, s: PS, b: Bytes, i: nat)
    requires i < |b| && !Overruns(env, s, b[i], i)
    ensures SomeOverrun(env, s, b, i) <==> SomeOverrun(env, Run(env, s, b[i..i + 1]), b, i + 1)
  {
    OneStep(env, s, b, i);
  }
}
