/** Streams whose lines and payloads end in CRLF, as the protocol asks of every peer: when the ways to
    cut them into read buffers are not noticed. */
module Framing {
  import opened Base
  import opened Args
  import opened Protocol
  import opened Heirs
  import opened CutInvariance
  import opened Hearing
  import opened Wire
  import opened Parser
  import opened ReadLoop

  /** A line, and the payload it announces. */
  datatype Frame = Frame(line: Bytes, payload: Option<Bytes>)

  function Text(f: Frame): Bytes {
    f.line + CR_LF + match f.payload case None => [] case Some(p) => p + CR_LF
  }

  function Stream(frames: seq<Frame>): Bytes {
    if frames == [] then [] else Text(frames[0]) + Stream(frames[1..])
  }

  /** What the line `line` leads to announces what the frame has. */
  predicate Announces(t: PS, payload: Option<Bytes>) {
    match payload case None => !t.st.MsgPayload? case Some(p) => t.st.MsgPayload? && |p| == t.pa.size
  }

  /** Each line is free of CR and LF, and a payload follows exactly the lines that announce
      one, in the size they announce.  Behind a refused line nothing is asked any more. */
  predicate Framed(env: Env, s: PS, frames: seq<Frame>)
    decreases |frames|
  {
    frames == [] || (
      && Plain(frames[0].line)
      && var t := Run(env, s, frames[0].line + CR_LF);
         t.err.Some? || (Announces(t, frames[0].payload) && Framed(env, Run(env, s, Text(frames[0])), frames[1..])))
  }

  /** Inside a line, with nothing saved and no CR seen. */
  predicate InLine(s: PS) {
    s.err.Some? || (!s.saved && !s.msaved && s.msg == [] && !IsBody(s.st) && s.drop == 0)
  }

  /** Between two operations. */
  predicate Between(s: PS) { s.err.Some? || s == Init(s.auth).(log := s.log, stale := s.stale, closed := s.closed) }

  predicate Open(s: PS) { s.err.None? ==> !s.closed }

  lemma LineByteIsTidy(strict: bool, env: Env, s: PS, b: char)
    requires InLine(s) && (strict ==> Open(s))
    ensures Tidy(strict, Norm(s), b)
    ensures b != '\r' && b != '\n' ==> InLine(Step(env, s, b))
    ensures b != '\n' ==> var t := Step(env, s, b); t.err.Some? || t.closed == s.closed
  {
    if s.err.None? && s.st.In? {
      KeywordIsPlain(env.typ, s.st.verb, b);
    }
  }

  lemma {:induction false} LineIsTidy(strict: bool, env: Env, s: PS, line: Bytes)
    requires InLine(s) && Plain(line) && (strict ==> Open(s))
    ensures TidyStream(strict, env, s, line)
    ensures var t := Run(env, s, line); InLine(t) && (t.err.Some? || t.closed == s.closed)
    decreases |line|
  {
    if line != [] {
      LineByteIsTidy(strict, env, s, line[0]);
      if s.err.Some? {
        RunFailed(env, s, line);
      }
      LineIsTidy(strict, env, Step(env, s, line[0]), line[1..]);
    }
  }

  lemma {:induction false} AfterFailure(strict: bool, env: Env, s: PS, bytes: Bytes)
    requires s.err.Some?
    ensures TidyStream(strict, env, s, bytes)
    decreases |bytes|
  {
    if bytes != [] {
      AfterFailure(strict, env, s, bytes[1..]);
    }
  }

  /** Behind a line: between two operations, or before the payload it announces. */
  predicate Behind(t: PS, closed: bool) {
    Between(t) || (t.st.MsgPayload? && !t.msaved && t.msg == [] && t.closed == closed)
  }

  /** A whole line leads between two operations, or to the payload it announces. */
  lemma WholeLine(strict: bool, env: Env, s: PS, line: Bytes)
    requires Between(s) && Plain(line) && (strict ==> Open(s))
    ensures TidyStream(strict, env, s, line + CR_LF) && Behind(Run(env, s, line + CR_LF), s.closed)
  {
    LineIsTidy(strict, env, s, line);
    var u := Run(env, s, line);
    if s.err.Some? { RunFailed(env, s, line); }
    LineEnd(strict, env, u);
    TidyAppend(strict, env, s, line, CR_LF);
    RunAppend(env, s, line, CR_LF);
    if u.err.Some? { RunFailed(env, u, CR_LF); }
  }

  lemma LineEnd(strict: bool, env: Env, u: PS)
    requires InLine(u) && (strict ==> Open(u))
    ensures TidyStream(strict, env, u, CR_LF) && Behind(Run(env, u, CR_LF), u.closed)
  {
    var v := Step(env, u, '\r');
    LineByteIsTidy(strict, env, u, '\r');
    TidyOne(strict, env, u, '\r');
    CarriageReturn(env, u);
    TidyOne(strict, env, v, '\n');
    TidyAppend(strict, env, u, ['\r'], ['\n']);
    RunAppend(env, u, ['\r'], ['\n']);
    assert CR_LF == ['\r'] + ['\n'];
    Newline(env, v);
  }

  /** No verb has a CR among its letters. */
  lemma CarriageReturn(env: Env, u: PS)
    requires InLine(u)
    ensures var v := Step(env, u, '\r'); v.err.Some? || (!IsBody(v.st) && !v.st.In? && !v.st.Blanks?)
  {
  }

  lemma Newline(env: Env, v: PS)
    requires v.err.Some? || v.st.Arg? || v.st.Tail?
    ensures Behind(Step(env, v, '\n'), v.closed)
  {
    if v.err.None? && v.st.Arg? {
      var o := OutcomeOf(env, v.st.of, ArgOf(v));
      assert Step(env, v, '\n') == EndArg(env, v, o);
    }
  }

  /** A frame on an open connection is clean, unless its payload comes for the sid of an earlier MSG
      line; any frame is even. */
  lemma FrameIsTidy(strict: bool, env: Env, s: PS, f: Frame)
    requires Between(s) && Plain(f.line) && (strict ==> Open(s))
    requires var t := Run(env, s, f.line + CR_LF);
             t.err.None? && Announces(t, f.payload) && (strict && f.payload.Some? ==> Inherited(t).NoSid?)
    ensures TidyStream(strict, env, s, Text(f)) && Between(Run(env, s, Text(f)))
  {
    var line, t := f.line + CR_LF, Run(env, s, f.line + CR_LF);
    WholeLine(strict, env, s, f.line);
    if f.payload.Some? {
      if s.err.Some? { RunFailed(env, s, line); }
      RunPayload(strict, env, t, f.payload.value);
      TidyAppend(strict, env, s, line, f.payload.value + CR_LF);
      RunAppend(env, s, line, f.payload.value + CR_LF);
    } else {
      assert Text(f) == line;
    }
  }

  lemma RefusedIsTidy(strict: bool, env: Env, s: PS, line: Bytes, behind: Bytes)
    requires Between(s) && Plain(line) && (strict ==> Open(s)) && Run(env, s, line + CR_LF).err.Some?
    ensures TidyStream(strict, env, s, line + CR_LF + behind)
    ensures Run(env, s, line + CR_LF + behind) == Run(env, s, line + CR_LF)
  {
    var t := Run(env, s, line + CR_LF);
    WholeLine(strict, env, s, line);
    AfterFailure(strict, env, t, behind);
    TidyAppend(strict, env, s, line + CR_LF, behind);
    RunAppend(env, s, line + CR_LF, behind);
    RunFailed(env, t, behind);
  }

  lemma AfterFrame(env: Env, s: PS, f: Frame)
    requires Between(s) && s.err.None? && Plain(f.line)
    requires var t := Run(env, s, f.line + CR_LF); t.err.None? && Announces(t, f.payload)
    ensures var t, u := Run(env, s, f.line + CR_LF), Run(env, s, Text(f));
            Between(u) && u.err.None? && u.stale == t.stale && u.closed == t.closed
  {
    var t := Run(env, s, f.line + CR_LF);
    FrameIsTidy(false, env, s, f);
    WholeLine(false, env, s, f.line);
    if f.payload.Some? {
      RunPayload(false, env, t, f.payload.value);
      RunAppend(env, s, f.line + CR_LF, f.payload.value + CR_LF);
    } else {
      assert Text(f) == f.line + CR_LF;
    }
  }

  /** What follows the line of the first frame. */
  function Rest(frames: seq<Frame>): (r: Bytes)
    requires frames != []
    ensures Stream(frames) == frames[0].line + CR_LF + r
  {
    var r := (match frames[0].payload case None => [] case Some(p) => p + CR_LF) + Stream(frames[1..]);
    assert Text(frames[0]) + Stream(frames[1..]) == frames[0].line + CR_LF + r;
    r
  }

  /** CRLF framing is enough for a stream to be even. */
  lemma {:induction false} FramedIsEven(env: Env, s: PS, frames: seq<Frame>)
    requires Between(s) && Framed(env, s, frames)
    ensures EvenStream(env, s, Stream(frames))
    decreases |frames|
  {
    if frames != [] {
      var f := frames[0];
      if Run(env, s, f.line + CR_LF).err.Some? {
        RefusedIsTidy(false, env, s, f.line, Rest(frames));
      } else {
        FrameIsTidy(false, env, s, f);
        FramedIsEven(env, Run(env, s, Text(f)), frames[1..]);
        TidyAppend(false, env, s, Text(f), Stream(frames[1..]));
      }
    }
  }

  // ----- when the cuts are heard -----

  /** Behind the first line that closes the connection nothing is called for and no error met, and
      before it no payload comes for the sid of an earlier MSG line. */
  predicate Settled(env: Env, s: PS, frames: seq<Frame>)
    decreases |frames|
  {
    if s.closed then (var u := Run(env, s, Stream(frames)); u.err == s.err && u.log == s.log)
    else if frames == [] then true
    else (
      var t := Run(env, s, frames[0].line + CR_LF);
      t.err.Some? || (
        && (frames[0].payload.Some? ==> Inherited(t).NoSid?)
        && Settled(env, Run(env, s, Text(frames[0])), frames[1..])))
  }

  lemma StepLogs(env: Env, u: PS, b: char)
    ensures var t := Step(env, u, b); |u.log| <= |t.log| && t.log[..|u.log|] == u.log && (u.err.Some? ==> t == u)
  {
    if u.err.None? && u.st.Arg? {
      var o := OutcomeOf(env, u.st.of, ArgOf(u));
      assert b == '\n' ==> Step(env, u, b) == EndArg(env, u, o);
    }
  }

  lemma {:induction false} RunLogs(env: Env, u: PS, bytes: Bytes)
    ensures var t := Run(env, u, bytes); |u.log| <= |t.log| && t.log[..|u.log|] == u.log && (u.err.Some? ==> t == u)
    decreases |bytes|
  {
    if bytes != [] {
      StepLogs(env, u, bytes[0]);
      RunLogs(env, Step(env, u, bytes[0]), bytes[1..]);
      var t := Run(env, u, bytes);
      assert t.log[..|u.log|] == t.log[..|Step(env, u, bytes[0]).log|][..|u.log|];
    }
  }

  /** On a closed connection: quiet is to call for nothing and to meet no error. */
  lemma {:induction false} QuietBehind(env: Env, u: PS, bytes: Bytes)
    requires u.closed
    ensures QuietStream(env, u, bytes) <==> var t := Run(env, u, bytes); t.err == u.err && t.log == u.log
    decreases |bytes|
  {
    if bytes != [] {
      var v := Step(env, u, bytes[0]);
      ClosedStays(env, u, bytes[0]);
      QuietBehind(env, v, bytes[1..]);
      StepLogs(env, u, bytes[0]);
      RunLogs(env, v, bytes[1..]);
    }
  }

  lemma ClosedStays(env: Env, u: PS, b: char)
    requires u.closed
    ensures Step(env, u, b).closed
  {
    if u.err.None? && u.st.Arg? {
      var o := OutcomeOf(env, u.st.of, ArgOf(u));
      assert b == '\n' ==> Step(env, u, b) == EndArg(env, u, o);
    }
  }

  lemma {:induction false} QuietAppend(env: Env, u: PS, a: Bytes, b: Bytes)
    requires QuietStream(env, u, a)
    ensures QuietStream(env, u, a + b) <==> QuietStream(env, Run(env, u, a), b)
    decreases |a|
  {
    if a == [] {
      assert a + b == b;
    } else {
      QuietAppend(env, Step(env, u, a[0]), a[1..], b);
      assert (a + b)[1..] == a[1..] + b;
    }
  }

  /** A payload that comes for the sid of an earlier MSG line is heard. */
  lemma HeirIsUnquiet(env: Env, t: PS, payload: Bytes)
    requires t.err.None? && !t.closed && t.st.MsgPayload? && !t.msaved && t.msg == [] && |payload| == t.pa.size
    requires !Inherited(t).NoSid?
    ensures !QuietStream(env, t, payload + CR_LF)
  {
    RunPayloadInBuffer(env, t, payload);
    assert t.msg + payload == payload;
    var v := t.(msg := payload);
    var u := Step(env, v, '\r');
    assert HandsOver(u, '\n') && !Quiet(env, u, '\n');
    assert CR_LF[0] == '\r' && CR_LF[1..] == ['\n'];
    assert !QuietStream(env, u, ['\n']);
    if QuietStream(env, t, payload + CR_LF) { QuietStreamSplit(env, t, payload, CR_LF); }
  }

  lemma RefusedIsQuiet(env: Env, s: PS, frames: seq<Frame>)
    requires Between(s) && Fresh(s) && !Over(s) && Framed(env, s, frames)
    requires frames != [] && Run(env, s, frames[0].line + CR_LF).err.Some?
    ensures QuietStream(env, s, Stream(frames))
  {
    RefusedIsTidy(true, env, s, frames[0].line, Rest(frames));
    CleanIsQuiet(env, s, Stream(frames));
  }

  /** The first frame and what follows it. */
  lemma FirstFrame(env: Env, s: PS, frames: seq<Frame>)
    requires Between(s) && Fresh(s) && !Over(s) && Framed(env, s, frames)
    requires frames != [] && Run(env, s, frames[0].line + CR_LF).err.None?
    ensures var t, u := Run(env, s, frames[0].line + CR_LF), Run(env, s, Text(frames[0]));
            && Between(u) && Fresh(u)
            && (QuietStream(env, s, Stream(frames)) <==>
                (frames[0].payload.Some? ==> Inherited(t).NoSid?) && QuietStream(env, u, Stream(frames[1..])))
  {
    var f, rest := frames[0], Stream(frames[1..]);
    var t := Run(env, s, f.line + CR_LF);
    FrameIsTidy(false, env, s, f);
    RunKeepsFresh(env, s, Text(f));
    if f.payload.Some? && !Inherited(t).NoSid? {
      var p := f.payload.value + CR_LF;
      WholeLine(false, env, s, f.line);
      HeirIsUnquiet(env, t, f.payload.value);
      assert Stream(frames) == (f.line + CR_LF) + (p + rest);
      if QuietStream(env, s, Stream(frames)) {
        QuietStreamSplit(env, s, f.line + CR_LF, p + rest);
        QuietStreamSplit(env, t, p, rest);
      }
    } else {
      FrameIsTidy(true, env, s, f);
      CleanIsQuiet(env, s, Text(f));
      QuietAppend(env, s, Text(f), rest);
    }
  }

  /** A framed stream is quiet if and only if it is settled. */
  lemma {:induction false} SettledIsQuiet(env: Env, s: PS, frames: seq<Frame>)
    requires Between(s) && Fresh(s) && s.err.None? && Framed(env, s, frames)
    ensures QuietStream(env, s, Stream(frames)) <==> Settled(env, s, frames)
    decreases |frames|
  {
    if s.closed {
      QuietBehind(env, s, Stream(frames));
    } else if frames != [] {
      if Run(env, s, frames[0].line + CR_LF).err.Some? {
        RefusedIsQuiet(env, s, frames);
      } else {
        FirstFrame(env, s, frames);
        AfterFrame(env, s, frames[0]);
        SettledIsQuiet(env, Run(env, s, Text(frames[0])), frames[1..]);
      }
    }
  }

  /** On a new connection: no way to cut a framed stream or a prefix of it is heard if and only if it is
      settled. */
  lemma FramedExactly(env: Env, auth: bool, frames: seq<Frame>)
    requires Framed(env, Init(auth), frames)
    ensures !SomeCutHeard(env, Init(auth), Stream(frames)) <==> Settled(env, Init(auth), frames)
  {
    SettledIsQuiet(env, Init(auth), frames);
    HeardExactly(env, auth, Stream(frames));
  }

  // ----- a line behind a -ERR -----

  lemma ErrIsSpelled(typ: ConnType)
    ensures Spells(typ, OpStart, "-ERR ", Blanks(ErrLine))
  {
    hide Spells;
    SpellLast(typ, OpMinusErr, ' ', Blanks(ErrLine));
    SpellMore(typ, OpMinusEr, 'R', OpMinusErr, [' '], Blanks(ErrLine));
    SpellMore(typ, OpMinusE, 'R', OpMinusEr, ['R'] + [' '], Blanks(ErrLine));
    SpellMore(typ, OpMinus, 'E', OpMinusE, ['R'] + (['R'] + [' ']), Blanks(ErrLine));
    SpellMore(typ, OpStart, '-', OpMinus, ['E'] + (['R'] + (['R'] + [' '])), Blanks(ErrLine));
    assert "-ERR " == ['-'] + (['E'] + (['R'] + (['R'] + [' '])));
  }

  lemma PingIsSpelled(typ: ConnType)
    ensures Spells(typ, OpStart, "PING", Tail(PingOp))
  {
    hide Spells;
    SpellLast(typ, OpPin, 'G', Tail(PingOp));
    SpellMore(typ, OpPi, 'N', OpPin, ['G'], Tail(PingOp));
    SpellMore(typ, OpP, 'I', OpPi, ['N'] + ['G'], Tail(PingOp));
    SpellMore(typ, OpStart, 'P', OpP, ['I'] + (['N'] + ['G']), Tail(PingOp));
    assert "PING" == ['P'] + (['I'] + (['N'] + ['G']));
  }

  function ErrText(text: Bytes): Bytes { "-ERR " + (text + CR_LF) }

  function PingText(): Bytes { "PING" + CR_LF }

  /** A -ERR line closes the connection. */
  lemma ErrRun(env: Env, text: Bytes)
    requires text != [] && Plain(text) && !IsBlank(text[0])
    ensures Run(env, Init(false), ErrText(text)) == Init(false).(log := [Complaint(text)], closed := true)
  {
    var s := Init(false);
    ErrIsSpelled(env.typ);
    SpelledRun(env, s, "-ERR ", Blanks(ErrLine));
    var t := s.(st := Blanks(ErrLine));
    assert OutcomeOf(env, ErrLine, text) == Dispatch(Complaint(text));
    hide Run, Spells, OutcomeOf, CleanStream;
    RunArg(true, env, t, ErrLine, text);
    RunAppend(env, s, "-ERR ", text + CR_LF);
  }

  lemma PingRun(env: Env, s: PS)
    requires AtStart(s) && !s.auth && Between(s)
    ensures Run(env, s, PingText()) == s.(log := s.log + [Ping])
  {
    PingIsSpelled(env.typ);
    SpelledRun(env, s, "PING", Tail(PingOp));
    RunAppend(env, s, "PING", CR_LF);
    RunTwo(env, s.(st := Tail(PingOp)), '\r', '\n');
    assert CR_LF == ['\r', '\n'];
  }

  /** A PING behind a -ERR makes its call in the same read, and is not read any more in the next. */
  lemma ReadBehindErr(env: Env, text: Bytes, mem: seq<Bytes>)
    requires text != [] && Plain(text) && !IsBlank(text[0]) && |mem| == 2
    ensures Run(env, Init(false), ErrText(text) + PingText()).log == [Complaint(text), Ping]
    ensures RunCuts(env, Init(false), [ErrText(text), PingText()], mem).log == [Complaint(text)]
  {
    var s, chunks := Init(false), [ErrText(text), PingText()];
    ErrRun(env, text);
    var t := Run(env, s, ErrText(text));
    PingRun(env, t);
    RunAppend(env, s, ErrText(text), PingText());
    assert Reread(s, mem[0]) == s && ReadOnce(env, s, mem[0], chunks[0]) == t;
    assert RunCuts(env, s, chunks, mem) == RunCuts(env, t, chunks[1..], mem[1..]);
  }

  // ----- the first letter of a line -----

  /** The first letter of the verb, upper case. */
  function Initial(st: State): char {
    match st
    case In(verb) => VerbInitial(verb)
    case Blanks(of) => LineInitial(of)
    case Arg(of) => LineInitial(of)
    case Tail(what) => if what.OkOp? then '+' else 'P'
    case _ => ' '
  }

  function VerbInitial(verb: Verb): char {
    match verb
    case OpStart => ' '
    case OpPlus | OpPlusO => '+'
    case OpMinus | OpMinusE | OpMinusEr | OpMinusErr => '-'
    case OpC | OpCo | OpCon | OpConn | OpConne | OpConnec => 'C'
    case OpP | OpPu | OpPub | OpPi | OpPin | OpPo | OpPon => 'P'
    case OpS | OpSu | OpSub => 'S'
    case OpU | OpUn | OpUns | OpUnsu => 'U'
    case OpM | OpMs | OpMsg => 'M'
    case OpI | OpIn | OpInf => 'I'
  }

  function LineInitial(of: Line): char {
    match of
    case PubLine => 'P' case MsgLine => 'M' case SubLine => 'S' case UnsubLine => 'U'
    case ConnectLine => 'C' case InfoLine => 'I' case ErrLine => '-'
  }

  predicate StartsMsg(line: Bytes) { line != [] && (line[0] == 'M' || line[0] == 'm') }

  predicate StartsInfo(line: Bytes) { line != [] && (line[0] == 'I' || line[0] == 'i') }

  predicate StartsErr(line: Bytes) { line != [] && line[0] == '-' }

  /** What the state inside a line says of the line's first byte. */
  predicate Since(typ: ConnType, line: Bytes, st: State) {
    && st != In(OpStart) && !IsBody(st)
    && (Initial(st) == 'M' <==> StartsMsg(line)) && (Initial(st) == 'M' ==> typ.Router?)
    && (Initial(st) == 'I' <==> StartsInfo(line)) && (Initial(st) == '-' <==> StartsErr(line))
  }

  lemma FirstLetter(typ: ConnType, line: Bytes)
    requires line != []
    ensures var k := Keyword(typ, OpStart, line[0]); k.Some? ==> Since(typ, line, k.value)
  {
  }

  predicate KeepsInitial(typ: ConnType, verb: Verb, b: char) {
    var k := Keyword(typ, verb, b);
    k.Some? ==> Initial(k.value) == VerbInitial(verb) && k.value != In(OpStart) && !IsBody(k.value)
  }

  lemma NextLetter(typ: ConnType, verb: Verb, b: char)
    requires verb != OpStart
    ensures KeepsInitial(typ, verb, b)
  {
    hide KeepsInitial;
    if VerbInitial(verb) == 'P' || VerbInitial(verb) == 'C' {
      NextOfPubConnect(typ, verb, b);
    } else if VerbInitial(verb) == 'S' || VerbInitial(verb) == 'U' {
      NextOfSubUnsub(typ, verb, b);
    } else {
      NextOfOthers(typ, verb, b);
    }
  }

  lemma NextOfPubConnect(typ: ConnType, verb: Verb, b: char)
    requires VerbInitial(verb) == 'P' || VerbInitial(verb) == 'C'
    ensures KeepsInitial(typ, verb, b)
  {
  }

  lemma NextOfSubUnsub(typ: ConnType, verb: Verb, b: char)
    requires VerbInitial(verb) == 'S' || VerbInitial(verb) == 'U'
    ensures KeepsInitial(typ, verb, b)
  {
  }

  lemma NextOfOthers(typ: ConnType, verb: Verb, b: char)
    requires verb != OpStart && VerbInitial(verb) !in "PCSU"
    ensures KeepsInitial(typ, verb, b)
  {
  }

  lemma NextInLine(env: Env, line: Bytes, s: PS, b: char)
    requires s.err.None? && Since(env.typ, line, s.st) && b != '\n'
    ensures var t := Step(env, s, b);
            t.err.Some? || (Since(env.typ, line, t.st) && t.stale == s.stale && t.closed == s.closed)
  {
    if s.st.In? {
      NextLetter(env.typ, s.st.verb, b);
      hide Keyword;
    }
  }

  lemma {:induction false} RestOfLine(env: Env, line: Bytes, s: PS, more: Bytes)
    requires Plain(more) && (s.err.None? ==> Since(env.typ, line, s.st))
    ensures var t := Run(env, s, more);
            t.err.Some? || (Since(env.typ, line, t.st) && t.stale == s.stale && t.closed == s.closed)
    decreases |more|
  {
    if s.err.Some? {
      RunFailed(env, s, more);
    } else if more != [] {
      NextInLine(env, line, s, more[0]);
      RestOfLine(env, line, Step(env, s, more[0]), more[1..]);
    }
  }

  /** A line before its CRLF. */
  lemma InWholeLine(env: Env, s: PS, line: Bytes)
    requires Between(s) && s.err.None? && Plain(line) && line != []
    ensures var t := Run(env, s, line);
            t.err.Some? || (Since(env.typ, line, t.st) && t.stale == s.stale && t.closed == s.closed)
  {
    FirstLetter(env.typ, line);
    var u := Step(env, s, line[0]);
    assert u.err.Some? || (Keyword(env.typ, OpStart, line[0]).Some?
                           && u == s.(st := Keyword(env.typ, OpStart, line[0]).value));
    RestOfLine(env, line, u, line[1..]);
  }

  /** What the newline of a line may do depends on the line's first letter. */
  lemma LineEffect(env: Env, s: PS, line: Bytes)
    requires Between(s) && s.err.None? && Plain(line)
    ensures var t := Run(env, s, line + CR_LF);
            t.err.Some? || (
              && (t.closed != s.closed ==> StartsErr(line) || StartsInfo(line))
              && (t.stale != s.stale ==> StartsMsg(line) && env.typ.Router?)
              && (t.st.MsgPayload? && StartsMsg(line) ==> t.pa.sid.Some?))
  {
    var u := Run(env, s, line);
    RunAppend(env, s, line, CR_LF);
    TwoSteps(env, u);
    if u.err.Some? {
      RunFailed(env, u, CR_LF);
    } else if line != [] {
      InWholeLine(env, s, line);
      var v := Step(env, u, '\r');
      NextInLine(env, line, u, '\r');
      if v.err.None? { EndEffect(env, line, v); }
    }
  }

  lemma EndEffect(env: Env, line: Bytes, v: PS)
    requires v.err.None? && Since(env.typ, line, v.st)
    ensures var t := Step(env, v, '\n');
            t.err.Some? || (
              && (t.closed != v.closed ==> StartsErr(line) || StartsInfo(line))
              && (t.stale != v.stale ==> StartsMsg(line) && env.typ.Router?)
              && (t.st.MsgPayload? && StartsMsg(line) ==> t.pa.sid.Some?))
  {
    if v.st.Arg? {
      var o := OutcomeOf(env, v.st.of, ArgOf(v));
      assert Step(env, v, '\n') == EndArg(env, v, o);
    } else if v.st.In? {
      hide Keyword;
      KeywordIsPlain(env.typ, v.st.verb, '\n');
    }
  }

  /** No line follows a -ERR line, and none is an INFO. */
  predicate NoneBehindErr(frames: seq<Frame>) {
    forall k :: 0 <= k < |frames| - 1 ==> !StartsErr(frames[k].line)
  }

  predicate NoInfo(frames: seq<Frame>) { forall k :: 0 <= k < |frames| ==> !StartsInfo(frames[k].line) }

  /** No PUB line follows a MSG line. */
  predicate NoPubBehindMsg(frames: seq<Frame>) {
    forall i, j :: 0 <= i < j < |frames| && StartsMsg(frames[i].line) && frames[j].payload.Some? ==>
          StartsMsg(frames[j].line)
  }

  predicate OnlyMsgs(frames: seq<Frame>) {
    forall j :: 0 <= j < |frames| && frames[j].payload.Some? ==> StartsMsg(frames[j].line)
  }

  /** Streams that are settled by their looks: those of a client, or of a route that sends no PUB behind a
      MSG, if nothing comes behind a -ERR. */
  lemma {:induction false} LooksSettled(env: Env, s: PS, frames: seq<Frame>)
    requires Between(s) && s.err.None? && !s.closed && Framed(env, s, frames)
    requires NoInfo(frames) && NoneBehindErr(frames) && (env.typ.Client? || NoPubBehindMsg(frames))
    requires s.stale.NoSid? || (env.typ.Router? && OnlyMsgs(frames))
    ensures Settled(env, s, frames)
    decreases |frames|
  {
    if frames != [] && Run(env, s, frames[0].line + CR_LF).err.None? {
      var f, rest := frames[0], frames[1..];
      LineEffect(env, s, f.line);
      WholeLine(false, env, s, f.line);
      var u := Run(env, s, Text(f));
      AfterFrame(env, s, f);
      assert forall k {:trigger rest[k]} :: 0 <= k < |rest| ==> rest[k] == frames[k + 1];
      if rest == [] {
        assert Stream(rest) == [] && Run(env, u, Stream(rest)) == u;
      } else {
        assert !StartsErr(frames[0].line);
        LooksSettled(env, u, rest);
      }
    }
  }

  // ----- what a framed stream never meets -----

  /** Outside INFO, with no more of a payload than a message of its size has, and the rest of it
      among the `left` bytes to come. */
  predicate Good(s: PS, left: nat) {
    s.err.Some? || (Initial(s.st) != 'I' && (IsBody(s.st) ==> |s.msg| <= s.pa.size + 2 <= |s.msg| + left))
  }

  /** Good before every byte, and at the end, with `more` bytes behind. */
  predicate StaysGood(env: Env, s: PS, bytes: Bytes, more: nat)
    decreases |bytes|
  {
    Good(s, |bytes| + more) && (bytes == [] || StaysGood(env, Step(env, s, bytes[0]), bytes[1..], more))
  }

  lemma {:induction false} StaysGoodOn(env: Env, s: PS, a: Bytes, b: Bytes, more: nat)
    requires StaysGood(env, s, a, |b| + more) && StaysGood(env, Run(env, s, a), b, more)
    ensures StaysGood(env, s, a + b, more)
    decreases |a|
  {
    hide Good, Step;
    if a == [] {
      assert a + b == b;
    } else {
      StaysGoodOn(env, Step(env, s, a[0]), a[1..], b, more);
      assert (a + b)[1..] == a[1..] + b;
    }
  }

  lemma {:induction false} GoodSoFar(env: Env, s: PS, a: Bytes, b: Bytes, more: nat)
    requires StaysGood(env, s, a + b, more)
    ensures Good(Run(env, s, a), |b| + more)
    decreases |a|
  {
    if a == [] {
      assert a + b == b;
    } else {
      assert (a + b)[1..] == a[1..] + b;
      GoodSoFar(env, Step(env, s, a[0]), a[1..], b, more);
    }
  }

  /** In a line there is no payload yet. */
  lemma GoodInLine(s: PS, n: nat, k: nat)
    requires InLine(s) && Good(s, n)
    ensures Good(s, k)
  {
  }

  lemma {:induction false} RestStaysInLine(env: Env, line: Bytes, s: PS, rest: Bytes, more: nat)
    requires InLine(s) && Plain(rest) && !StartsInfo(line) && (s.err.None? ==> Since(env.typ, line, s.st))
    ensures StaysGood(env, s, rest, more) && Good(Run(env, s, rest), 0)
    decreases |rest|
  {
    if rest != [] {
      LineByteIsTidy(false, env, s, rest[0]);
      if s.err.None? { NextInLine(env, line, s, rest[0]); }
      RestStaysInLine(env, line, Step(env, s, rest[0]), rest[1..], more);
    }
  }

  lemma LineStaysGood(env: Env, s: PS, line: Bytes, more: nat)
    requires Between(s) && Plain(line) && !StartsInfo(line)
    ensures StaysGood(env, s, line, more) && Good(Run(env, s, line), 0)
  {
    if s.err.Some? {
      FailedIsGood(env, s, line, more);
      RunFailed(env, s, line);
    } else if line != [] {
      LineByteIsTidy(false, env, s, line[0]);
      FirstLetter(env.typ, line);
      RestStaysInLine(env, line, Step(env, s, line[0]), line[1..], more);
    }
  }

  lemma {:induction false} PayloadStaysGood(env: Env, s: PS, payload: Bytes, more: nat)
    requires s.err.None? && s.st.MsgPayload? && !s.msaved
             && |s.msg| + |payload| <= s.pa.size <= |s.msg| + |payload| + more - 2
    ensures StaysGood(env, s, payload, more)
    decreases |payload|
  {
    if payload != [] {
      PayloadStaysGood(env, Step(env, s, payload[0]), payload[1..], more);
    }
  }

  lemma CrLfStaysGood(env: Env, s: PS, more: nat)
    requires Good(s, 2 + more) && Good(Step(env, s, '\r'), 1 + more) && Good(Step(env, Step(env, s, '\r'), '\n'), more)
    ensures StaysGood(env, s, CR_LF, more)
  {
    assert CR_LF[1..] == ['\n'] && ['\n'][1..] == [];
    assert StaysGood(env, Step(env, s, '\r'), ['\n'], more);
  }

  lemma TwoSteps(env: Env, u: PS)
    ensures Run(env, u, CR_LF) == Step(env, Step(env, u, '\r'), '\n')
  {
    RunTwo(env, u, '\r', '\n');
    assert CR_LF == ['\r', '\n'];
  }

  /** Behind the line either nothing is announced, or a payload that is all to come. */
  predicate Announced(t: PS, more: nat) { t.err.None? && t.st.MsgPayload? ==> t.pa.size + 2 <= more }

  lemma WholeLineStaysGood(env: Env, s: PS, line: Bytes, more: nat)
    requires Between(s) && Plain(line) && !StartsInfo(line) && Announced(Run(env, s, line + CR_LF), more)
    ensures StaysGood(env, s, line + CR_LF, more)
  {
    LineStaysGood(env, s, line, 2 + more);
    LineIsTidy(false, env, s, line);
    RunAppend(env, s, line, CR_LF);
    LineEndStaysGood(env, Run(env, s, line), more);
    StaysGoodOn(env, s, line, CR_LF, more);
  }

  lemma LineEndStaysGood(env: Env, u: PS, more: nat)
    requires InLine(u) && Good(u, 0) && Announced(Run(env, u, CR_LF), more)
    ensures StaysGood(env, u, CR_LF, more)
  {
    hide Step, Run;
    LineEnd(false, env, u);
    GoodInLine(u, 0, 2 + more);
    GoodAfterCr(env, u, 1 + more);
    TwoSteps(env, u);
    SizeBehind(env, u);
    GoodBehind(Run(env, u, CR_LF), u.closed, more);
    CrLfStaysGood(env, u, more);
  }

  lemma SizeBehind(env: Env, u: PS)
    requires InLine(u)
    ensures var t := Run(env, u, CR_LF); t.err.None? && t.st.MsgPayload? ==> 0 <= t.pa.size
  {
    TwoSteps(env, u);
    CarriageReturn(env, u);
    var v := Step(env, u, '\r');
    if v.err.None? && v.st.Arg? {
      var o := OutcomeOf(env, v.st.of, ArgOf(v));
      assert Step(env, v, '\n') == EndArg(env, v, o);
    }
  }

  lemma GoodBehind(t: PS, closed: bool, more: nat)
    requires Behind(t, closed)
    requires Announced(t, more) && (t.st.MsgPayload? ==> t.err.Some? || 0 <= t.pa.size)
    ensures Good(t, more)
  {
  }

  lemma GoodAfterCr(env: Env, u: PS, more: nat)
    requires InLine(u) && Good(u, 0)
    ensures Good(Step(env, u, '\r'), more)
  {
    CarriageReturn(env, u);
  }

  lemma BodyStaysGood(env: Env, t: PS, payload: Bytes, more: nat)
    requires t.err.None? && t.st.MsgPayload? && !t.msaved && t.msg == [] && |payload| == t.pa.size
    ensures StaysGood(env, t, payload + CR_LF, more)
  {
    PayloadStaysGood(env, t, payload, 2 + more);
    RunPayloadInBuffer(env, t, payload);
    RunPayload(false, env, t, payload);
    RunAppend(env, t, payload, CR_LF);
    TwoSteps(env, Run(env, t, payload));
    CrLfStaysGood(env, Run(env, t, payload), more);
    StaysGoodOn(env, t, payload, CR_LF, more);
  }

  lemma FailedIsGood(env: Env, s: PS, bytes: Bytes, more: nat)
    requires s.err.Some?
    ensures StaysGood(env, s, bytes, more)
    decreases |bytes|
  {
    if bytes != [] {
      FailedIsGood(env, s, bytes[1..], more);
    }
  }

  lemma FrameStaysGood(env: Env, s: PS, f: Frame, more: nat)
    requires Between(s) && s.err.None? && Plain(f.line) && !StartsInfo(f.line)
    requires var t := Run(env, s, f.line + CR_LF); t.err.None? && Announces(t, f.payload)
    ensures StaysGood(env, s, Text(f), more)
  {
    var line := f.line + CR_LF;
    WholeLine(false, env, s, f.line);
    if f.payload.Some? {
      var p := f.payload.value;
      WholeLineStaysGood(env, s, f.line, |p| + 2 + more);
      BodyStaysGood(env, Run(env, s, line), p, more);
      StaysGoodOn(env, s, line, p + CR_LF, more);
    } else {
      WholeLineStaysGood(env, s, f.line, more);
      assert Text(f) == line;
    }
  }

  lemma RefusedStaysGood(env: Env, s: PS, line: Bytes, behind: Bytes)
    requires Between(s) && Plain(line) && !StartsInfo(line) && Run(env, s, line + CR_LF).err.Some?
    ensures StaysGood(env, s, line + CR_LF + behind, 0)
  {
    WholeLineStaysGood(env, s, line, |behind|);
    FailedIsGood(env, Run(env, s, line + CR_LF), behind, 0);
    StaysGoodOn(env, s, line + CR_LF, behind, 0);
  }

  lemma {:induction false} FramedStaysGood(env: Env, s: PS, frames: seq<Frame>)
    requires Between(s) && s.err.None? && Framed(env, s, frames) && NoInfo(frames)
    ensures StaysGood(env, s, Stream(frames), 0)
    decreases |frames|
  {
    if frames != [] {
      var f, rest := frames[0], Stream(frames[1..]);
      assert !StartsInfo(f.line);
      if Run(env, s, f.line + CR_LF).err.Some? {
        RefusedStaysGood(env, s, f.line, Rest(frames));
      } else {
        FrameStaysGood(env, s, f, |rest|);
        AfterFrame(env, s, f);
        FramedStaysGood(env, Run(env, s, Text(f)), frames[1..]);
        StaysGoodOn(env, s, Text(f), rest, 0);
      }
    } else {
      assert Good(s, 0);
    }
  }

  // ----- the reads -----

  lemma GoodRespectsBlind(s: PS, t: PS, left: nat)
    requires Blind(s) == Blind(t) && Good(s, left)
    ensures Good(t, left)
  {
    BlindFields(s, t);
    if s.err.None? {
      assert s.msg == t.msg && s.pa == t.pa && (IsBody(s.st) <==> IsBody(t.st)) && (!IsBody(s.st) ==> s.st == t.st);
    }
  }

  lemma {:induction false} ConcatSplit(a: seq<Bytes>, b: seq<Bytes>)
    ensures Concat(a + b) == Concat(a) + Concat(b)
  {
    if a == [] {
      assert a + b == b;
    } else {
      ConcatSplit(a[1..], b);
      assert (a + b)[1..] == a[1..] + b;
      assert a[0] + (Concat(a[1..]) + Concat(b)) == (a[0] + Concat(a[1..])) + Concat(b);
    }
  }

  /** After each read an open connection is as good as after the same bytes uncut, and the rest of
      the stream still stays good. */
  lemma GoodAfterReads(env: Env, s: PS, inputs: seq<Bytes>, k: nat, mem: seq<Bytes>, x: Bytes)
    requires Sound(s) && k == |mem| <= |inputs| && !Over(RunCuts(env, s, inputs[..k], mem))
    requires EvenStream(env, s, Concat(inputs)) && StaysGood(env, s, Concat(inputs), 0)
    ensures var t := Reread(RunCuts(env, s, inputs[..k], mem), x);
            Sound(t) && Good(t, |Concat(inputs[k..])|) && StaysGood(env, t, Concat(inputs[k..]), 0)
    ensures Blind(Reread(RunCuts(env, s, inputs[..k], mem), x)) == Blind(Run(env, s, Concat(inputs[..k])))
  {
    var a, b := Concat(inputs[..k]), Concat(inputs[k..]);
    assert inputs == inputs[..k] + inputs[k..];
    ConcatSplit(inputs[..k], inputs[k..]);
    EvenStreamSplit(env, s, a, b);
    EvenCuts(env, s, inputs[..k], mem);
    RunRespectsBlind(env, s, s, a);
    var u, t := Run(env, s, a), Reread(RunCuts(env, s, inputs[..k], mem), x);
    RereadIsAlike(RunCuts(env, s, inputs[..k], mem), x);
    RestStaysGood(env, s, a, b);
    EvenStreamRespectsBlind(env, u, t, b);
    StaysGoodRespectsBlind(env, u, t, b);
  }

  lemma {:induction false} RestStaysGood(env: Env, s: PS, a: Bytes, b: Bytes)
    requires StaysGood(env, s, a + b, 0)
    ensures StaysGood(env, Run(env, s, a), b, 0)
    decreases |a|
  {
    if a == [] {
      assert a + b == b;
    } else {
      assert (a + b)[1..] == a[1..] + b;
      RestStaysGood(env, Step(env, s, a[0]), a[1..], b);
    }
  }

  lemma {:induction false} StaysGoodRespectsBlind(env: Env, s: PS, t: PS, bytes: Bytes)
    requires Sound(s) && Sound(t) && Blind(s) == Blind(t) && EvenStream(env, s, bytes) && StaysGood(env, s, bytes, 0)
    ensures StaysGood(env, t, bytes, 0)
    decreases |bytes|
  {
    GoodRespectsBlind(s, t, |bytes|);
    if bytes != [] {
      StepRespectsBlind(env, s, t, bytes[0]);
      StepKeepsSound(env, s, bytes[0]);
      StepKeepsSound(env, t, bytes[0]);
      StaysGoodRespectsBlind(env, Step(env, s, bytes[0]), Step(env, t, bytes[0]), bytes[1..]);
    }
  }

  /** Where a payload is all to come, no index overflows. */
  lemma {:induction false} GoodNeverOverruns(env: Env, s: PS, b: Bytes, pos: nat, rest: Bytes)
    requires pos <= |b| && StaysGood(env, s, b[pos..] + rest, 0) && |b| + |rest| < TWO63
    ensures !SomeOverrun(env, s, b, pos)
    decreases |b| - pos
  {
    if pos < |b| {
      var all := b[pos..] + rest;
      var t := Step(env, s, b[pos]);
      assert all[0] == b[pos] && all[1..] == b[pos + 1..] + rest;
      GoodNeverOverruns(env, t, b, pos + 1, rest);
      assert Good(t, |b| - pos - 1 + |rest|);
      if Overruns(env, s, b[pos], pos) { PubAnnounces(env, s); }
    }
  }

  lemma PubAnnounces(env: Env, s: PS)
    requires s.err.None? && s.st == Arg(PubLine) && Step(env, s, '\n').err.None?
    ensures Step(env, s, '\n').st.MsgPayload? && Step(env, s, '\n').msg == []
  {
    var o := OutcomeOf(env, PubLine, ArgOf(s));
    assert Step(env, s, '\n') == EndArg(env, s, o);
  }

  lemma {:induction false} MessageGrows(env: Env, s: PS, bytes: Bytes)
    ensures |Run(env, s, bytes).msg| <= |s.msg| + |bytes|
    decreases |bytes|
  {
    if bytes != [] {
      StepGrows(env, s, bytes[0]);
      MessageGrows(env, Step(env, s, bytes[0]), bytes[1..]);
    }
  }

  lemma StepGrows(env: Env, s: PS, b: char)
    ensures |Step(env, s, b).msg| <= |s.msg| + 1
  {
    if s.err.None? && s.st.Arg? {
      var o := OutcomeOf(env, s.st.of, ArgOf(s));
      assert b == '\n' ==> Step(env, s, b) == EndArg(env, s, o);
    }
  }

  /** What has been collected of a message is part of what has been read. */
  lemma ReadSoFar(env: Env, s: PS, t: PS, read: Bytes)
    requires s.msg == [] && Blind(t) == Blind(Run(env, s, read))
    ensures t.err.None? ==> |t.msg| <= |read|
  {
    MessageGrows(env, s, read);
    BlindFields(t, Run(env, s, read));
    assert t.err.None? ==> t.msg == Run(env, s, read).msg;
  }

  lemma GoodIsMakeable(env: Env, u: PS, left: nat, used: nat)
    requires Good(u, left) && (u.err.None? ==> |u.msg| <= used) && used + left <= env.maxAlloc
    ensures !Unmakeable(env, u)
  {
  }

  lemma BufferNeverPanics(env: Env, t: PS, b: Bytes, rest: Bytes, used: nat)
    requires StaysGood(env, t, b + rest, 0) && used + |b| + |rest| <= env.maxAlloc && (t.err.None? ==> |t.msg| <= used)
    ensures !MayPanic(env, t, b)
  {
    assert b[0..] == b;
    hide SomeOverrun, StaysGood, Run, Unmakeable, Good;
    GoodNeverOverruns(env, t, b, 0, rest);
    GoodSoFar(env, t, b, rest, 0);
    if t.err.Some? { RunFailed(env, t, b); } else { MessageGrows(env, t, b); }
    GoodIsMakeable(env, Run(env, t, b), |rest|, used + |b|);
  }

  lemma ReadsAround(inputs: seq<Bytes>, k: nat)
    requires k < |inputs|
    ensures Concat(inputs[k..]) == inputs[k] + Concat(inputs[k + 1..])
    ensures |Concat(inputs)| == |Concat(inputs[..k])| + |inputs[k]| + |Concat(inputs[k + 1..])|
  {
    assert inputs[k..] == [inputs[k]] + inputs[k + 1..];
    assert inputs == inputs[..k] + inputs[k..];
    ConcatSplit(inputs[..k], inputs[k..]);
  }

  /** The parser does not panic on an even stream that is no longer than the largest array. */
  lemma NeverPanics(env: Env, s: PS, inputs: seq<Bytes>, k: nat, mem: seq<Bytes>, x: Bytes)
    requires Sound(s) && s.msg == [] && k == |mem| < |inputs| && |Concat(inputs)| <= env.maxAlloc
    requires EvenStream(env, s, Concat(inputs)) && StaysGood(env, s, Concat(inputs), 0)
    ensures !PanicsAt(env, s, inputs, k, mem, x)
  {
    var t := Reread(RunCuts(env, s, inputs[..k], mem), x);
    hide MayPanic, StaysGood, EvenStream, RunCuts, Reread, Run, Sound, Good, Blind, Over;
    if !Over(RunCuts(env, s, inputs[..k], mem)) {
      var b, rest := inputs[k], Concat(inputs[k + 1..]);
      GoodAfterReads(env, s, inputs, k, mem, x);
      ReadsAround(inputs, k);
      ReadSoFar(env, s, t, Concat(inputs[..k]));
      BufferNeverPanics(env, t, b, rest, |Concat(inputs[..k])|);
    }
  }

  /** The streams peers send, however the reads cut them: the parser never panics on a CRLF-framed
      stream without INFO that is no longer than the largest array, and if the stream is settled it
      makes the calls of the uncut stream and ends with its error if it has one. */
  method ServeFrames(env: Env, auth: bool, frames: seq<Frame>, inputs: seq<Bytes>, room: array<char>)
    returns (c: Client, v: Verdict)
    requires Framed(env, Init(auth), frames) && NoInfo(frames) && Concat(inputs) == Stream(frames)
    requires room.Length < TWO63 && forall k :: 0 <= k < |inputs| ==> |inputs[k]| <= room.Length
    modifies room
    ensures |Stream(frames)| <= env.maxAlloc ==> !v.Panic?
    ensures !v.Panic? && Settled(env, Init(auth), frames) ==>
              && c.calls == Run(env, Init(auth), Stream(frames)).log
              && match Run(env, Init(auth), Stream(frames)).err case None => v == Fine case Some(e) => v == Failed(e)
  {
    ghost var s := Init(auth);
    FramedIsEven(env, s, frames);
    FramedStaysGood(env, s, frames);
    FramedReads(env, s, frames, inputs);
    c := new Client(env, auth, room);
    ghost var mem;
    v, mem := ReadAll(c, inputs);
    if !v.Panic? && Settled(env, s, frames) {
      SettledIsQuiet(env, s, frames);
      QuietCutsFollow(env, s, s, inputs, mem);
      QuietInheritsNothing(env, s, Stream(frames));
      ToldExactly(c.calls, c.told);
    }
  }

  lemma FramedReads(env: Env, s: PS, frames: seq<Frame>, inputs: seq<Bytes>)
    requires Sound(s) && s.msg == [] && Concat(inputs) == Stream(frames)
    requires EvenStream(env, s, Stream(frames)) && StaysGood(env, s, Stream(frames), 0)
    ensures NoCutInInfo(env, s, inputs)
    ensures |Stream(frames)| <= env.maxAlloc ==> !SomePanic(env, s, inputs)
  {
    hide MayPanic, StaysGood, EvenStream, RunCuts, Stream;
    forall k: nat, mem: seq<Bytes> | k == |mem| < |inputs| ensures OutsideInfo(RunCuts(env, s, inputs[..k], mem)) {
      if !Over(RunCuts(env, s, inputs[..k], mem)) {
        GoodAfterReads(env, s, inputs, k, mem, []);
      }
    }
    if |Stream(frames)| <= env.maxAlloc {
      forall k: nat, mem: seq<Bytes>, x: Bytes ensures !PanicsAt(env, s, inputs, k, mem, x) {
        if k == |mem| < |inputs| { NeverPanics(env, s, inputs, k, mem, x); }
      }
    }
  }
}
