/** The lines one server prints to another (server/route.go:194-245, server/client.go:548-558)
    and what the other end's parser makes of them. */
module Wire {
  import opened Base
  import opened Args
  import opened Protocol
  import opened CutInvariance

  const CR_LF := "\r\n"

  /** A line for a route: SUB and UNSUB as broadcast, MSG as delivered. */
  datatype Proto =
    | SubProto(subject: Bytes, queue: Bytes, rsid: Bytes)
    | UnsubProto(rsid: Bytes, max: nat)
    | MsgProto(subject: Bytes, sid: Bytes, reply: Option<Bytes>, szb: Bytes, payload: Bytes)

  /** The words of a line behind its verb: "SUB %s %s %s", "UNSUB %s%s" with " %d" for a
      limit, and the words of msgHeader. */
  function Words(w: Proto): seq<Bytes> {
    match w
    case SubProto(subject, queue, rsid) => [subject, queue, rsid]
    case UnsubProto(rsid, max) => [rsid] + if max > 0 then [Decimal(max)] else []
    case MsgProto(subject, sid, reply, szb, payload) =>
      [subject, sid] + (if reply.Some? then [reply.value] else []) + [szb]
  }

  function Verb(w: Proto): Bytes {
    match w case SubProto(_, _, _) => "SUB " case UnsubProto(_, _) => "UNSUB " case MsgProto(_, _, _, _, _) => "MSG "
  }

  function Print(w: Proto): Bytes {
    Verb(w) + (Join(Words(w)) + CR_LF) + (if w.MsgProto? then w.payload + CR_LF else [])
  }

  /** What a server can have to print: names without separators, a size that is the payload's,
      and numbers below the machine bound. */
  predicate Printable(w: Proto) {
    match w
    case SubProto(subject, queue, rsid) => Name(subject) && NoSpace(queue) && Name(rsid)
    case UnsubProto(rsid, max) => Name(rsid) && max < TWO63
    case MsgProto(subject, sid, reply, szb, payload) =>
      && Name(subject) && Name(sid) && (reply.Some? ==> Name(reply.value))
      && szb != [] && AllDigits(szb) && Value(szb) == |payload| < TWO63
  }

  predicate Name(s: Bytes) { s != [] && NoSpace(s) }

  /** What the other server is to be told. */
  function Meaning(w: Proto): Op {
    match w
    case SubProto(subject, queue, rsid) => Sub(subject, if queue == [] then None else Some(queue), rsid)
    case UnsubProto(rsid, max) => Unsub(rsid, max)
    case MsgProto(subject, sid, reply, szb, payload) =>
      Message(Pa(subject, reply, Some(sid), szb, |payload|), NoSid, payload + CR_LF)
  }

  // ----- argument lines -----

  lemma WordsAreFields(w: Proto)
    requires Printable(w)
    ensures Fields(Join(Words(w))) == NonEmpty(Words(w))
    ensures NonEmpty(Words(w)) == if w.SubProto? && w.queue == [] then [w.subject, w.rsid] else Words(w)
  {
    match w
    case SubProto(subject, queue, rsid) =>
      FieldsOfJoin([subject, queue, rsid]);
      NonEmpty3(subject, queue, rsid);
    case UnsubProto(rsid, max) =>
      DigitsAreNoSpace(Decimal(max));
      FieldsOfJoin(Words(w));
      AllNonEmpty(Words(w));
    case MsgProto(subject, sid, reply, szb, payload) =>
      DigitsAreNoSpace(szb);
      FieldsOfJoin(Words(w));
      AllNonEmpty(Words(w));
  }

  lemma NonEmpty3(a: Bytes, b: Bytes, c: Bytes)
    requires a != [] && c != []
    ensures NonEmpty([a, b, c]) == if b == [] then [a, c] else [a, b, c]
  {
    assert [a, b, c][1..] == [b, c] && [b, c][1..] == [c] && [c][1..] == [];
    assert NonEmpty([c]) == [c];
    assert NonEmpty([b, c]) == (if b == [] then [] else [b]) + [c];
  }

  lemma {:induction false} AllNonEmpty(ws: seq<Bytes>)
    requires forall k :: 0 <= k < |ws| ==> ws[k] != []
    ensures NonEmpty(ws) == ws
  {
    if ws != [] {
      AllNonEmpty(ws[1..]);
      assert ws == [ws[0]] + ws[1..];
    }
  }

  // ----- running the machine over a line -----

  /** An open route connection between two operations. */
  predicate Ready(s: PS) {
    s == Init(false).(log := s.log, stale := s.stale)
  }

  /** Clean, or at least even. */
  predicate Tidy(strict: bool, n: PS, b: char) { if strict then Clean(n, b) else Even(n, b) }

  predicate TidyStream(strict: bool, env: Env, s: PS, bytes: Bytes) {
    if strict then CleanStream(env, s, bytes) else EvenStream(env, s, bytes)
  }

  lemma {:induction false} TidyAppend(strict: bool, env: Env, s: PS, a: Bytes, b: Bytes)
    requires TidyStream(strict, env, s, a) && TidyStream(strict, env, Run(env, s, a), b)
    ensures TidyStream(strict, env, s, a + b)
    decreases |a|
  {
    if a == [] {
      assert a + b == b;
    } else {
      TidyAppend(strict, env, Step(env, s, a[0]), a[1..], b);
      assert (a + b)[1..] == a[1..] + b;
    }
  }

  lemma CleanAppend(env: Env, s: PS, a: Bytes, b: Bytes)
    requires CleanStream(env, s, a) && CleanStream(env, Run(env, s, a), b)
    ensures CleanStream(env, s, a + b)
  {
    TidyAppend(true, env, s, a, b);
  }

  lemma TidyOne(strict: bool, env: Env, s: PS, c: char)
    requires Tidy(strict, Norm(s), c)
    ensures TidyStream(strict, env, s, [c]) && Run(env, s, [c]) == Step(env, s, c)
  {
    assert [c][1..] == [];
    assert Run(env, s, [c]) == Run(env, Step(env, s, c), []);
  }

  lemma CleanOne(env: Env, s: PS, c: char)
    requires Clean(Norm(s), c)
    ensures CleanStream(env, s, [c]) && Run(env, s, [c]) == Step(env, s, c)
  {
    TidyOne(true, env, s, c);
  }

  /** The letters `word` lead from the verb state `verb` to `next`. */
  predicate Spells(typ: ConnType, verb: Verb, word: Bytes, next: State)
    decreases |word|
  {
    word != [] &&
    var k := Keyword(typ, verb, word[0]);
    if |word| == 1 then k == Some(next) else k.Some? && k.value.In? && Spells(typ, k.value.verb, word[1..], next)
  }

  lemma {:induction false} SpelledRun(env: Env, s: PS, word: Bytes, next: State)
    requires s.err.None? && !s.auth && s.st.In? && Spells(env.typ, s.st.verb, word, next)
    ensures Run(env, s, word) == s.(st := next) && (!s.closed ==> CleanStream(env, s, word))
    decreases |word|
  {
    var t := Step(env, s, word[0]);
    if |word| == 1 {
      assert word == [word[0]];
      TidyOne(!s.closed, env, s, word[0]);
    } else {
      SpelledRun(env, t, word[1..], next);
    }
  }

  lemma SpellLast(typ: ConnType, verb: Verb, c: char, next: State)
    requires Keyword(typ, verb, c) == Some(next)
    ensures Spells(typ, verb, [c], next)
  {
  }

  lemma SpellMore(typ: ConnType, verb: Verb, c: char, follow: Verb, rest: Bytes, next: State)
    requires Keyword(typ, verb, c) == Some(In(follow)) && Spells(typ, follow, rest, next)
    ensures Spells(typ, verb, [c] + rest, next)
  {
    assert ([c] + rest)[1..] == rest;
  }

  lemma SubIsSpelled(typ: ConnType)
    ensures Spells(typ, OpStart, "SUB ", Blanks(SubLine))
  {
    SpellLast(typ, OpSub, ' ', Blanks(SubLine));
    SpellMore(typ, OpSu, 'B', OpSub, [' '], Blanks(SubLine));
    SpellMore(typ, OpS, 'U', OpSu, ['B'] + [' '], Blanks(SubLine));
    SpellMore(typ, OpStart, 'S', OpS, ['U'] + (['B'] + [' ']), Blanks(SubLine));
    assert "SUB " == ['S'] + (['U'] + (['B'] + [' ']));
  }

  /** UNSUB takes its blanks without a state of its own for the first. */
  lemma UnsubIsSpelled(typ: ConnType)
    ensures Spells(typ, OpStart, "UNSUB", Blanks(UnsubLine))
  {
    hide Spells;
    SpellLast(typ, OpUnsu, 'B', Blanks(UnsubLine));
    SpellMore(typ, OpUns, 'U', OpUnsu, ['B'], Blanks(UnsubLine));
    SpellMore(typ, OpUn, 'S', OpUns, ['U'] + ['B'], Blanks(UnsubLine));
    SpellMore(typ, OpU, 'N', OpUn, ['S'] + (['U'] + ['B']), Blanks(UnsubLine));
    SpellMore(typ, OpStart, 'U', OpU, ['N'] + (['S'] + (['U'] + ['B'])), Blanks(UnsubLine));
    assert "UNSUB" == ['U'] + (['N'] + (['S'] + (['U'] + ['B'])));
  }

  lemma MsgIsSpelled()
    ensures Spells(Router, OpStart, "MSG ", Blanks(MsgLine))
  {
    SpellLast(Router, OpMsg, ' ', Blanks(MsgLine));
    SpellMore(Router, OpMs, 'G', OpMsg, [' '], Blanks(MsgLine));
    SpellMore(Router, OpM, 'S', OpMs, ['G'] + [' '], Blanks(MsgLine));
    SpellMore(Router, OpStart, 'M', OpM, ['S'] + (['G'] + [' ']), Blanks(MsgLine));
    assert "MSG " == ['M'] + (['S'] + (['G'] + [' ']));
  }

  function LineOf(w: Proto): Line {
    match w case SubProto(_, _, _) => SubLine case UnsubProto(_, _) => UnsubLine case MsgProto(_, _, _, _, _) => MsgLine
  }

  /** Over its verb the machine comes to the blanks of the line. */
  lemma RunVerb(env: Env, s: PS, w: Proto)
    requires Ready(s) && env.typ.Router?
    ensures CleanStream(env, s, Verb(w)) && Run(env, s, Verb(w)) == s.(st := Blanks(LineOf(w)))
  {
    match w
    case SubProto(_, _, _) =>
      SubIsSpelled(env.typ);
      SpelledRun(env, s, "SUB ", Blanks(SubLine));
    case UnsubProto(_, _) =>
      UnsubIsSpelled(env.typ);
      SpelledRun(env, s, "UNSUB", Blanks(UnsubLine));
      var t := s.(st := Blanks(UnsubLine));
      CleanOne(env, t, ' ');
      CleanAppend(env, s, "UNSUB", [' ']);
      RunAppend(env, s, "UNSUB", [' ']);
      assert "UNSUB " == "UNSUB" + [' '];
    case MsgProto(_, _, _, _, _) =>
      MsgIsSpelled();
      SpelledRun(env, s, "MSG ", Blanks(MsgLine));
  }

  // ----- the argument and the payload -----

  predicate Plain(a: Bytes) { forall k :: 0 <= k < |a| ==> a[k] != '\r' && a[k] != '\n' }

  /** In a line, with nothing of an argument yet, saved or not. */
  predicate InBlanks(s: PS, of: Line) { s.err.None? && s.st == Blanks(of) && s.drop == 0 && !s.saved && s.tok == [] }

  lemma {:induction false} RunArgBytes(strict: bool, env: Env, s: PS, a: Bytes)
    requires s.err.None? && s.st.Arg? && s.drop == 0 && !s.saved && Plain(a) && (strict ==> !s.closed)
    ensures TidyStream(strict, env, s, a) && Run(env, s, a) == s.(tok := s.tok + a)
    decreases |a|
  {
    if a == [] {
      assert s.tok + a == s.tok;
    } else {
      var t := Step(env, s, a[0]);
      RunArgBytes(strict, env, t, a[1..]);
      assert s.tok + [a[0]] + a[1..] == s.tok + a;
    }
  }

  /** Over the words of an argument the machine collects them. */
  lemma RunWords(strict: bool, env: Env, s: PS, of: Line, a: Bytes)
    requires InBlanks(s, of) && a != [] && Plain(a) && !IsBlank(a[0]) && (strict ==> !s.closed)
    ensures TidyStream(strict, env, s, a) && Run(env, s, a) == s.(st := Arg(of), tok := a)
  {
    var first := s.(st := Arg(of), tok := [a[0]]);
    TidyOne(strict, env, s, a[0]);
    assert a == [a[0]] + a[1..];
    RunArgBytes(strict, env, first, a[1..]);
    TidyAppend(strict, env, s, [a[0]], a[1..]);
    RunAppend(env, s, [a[0]], a[1..]);
  }

  /** Over an argument and its CRLF the machine does what the argument asks for. */
  lemma RunArg(strict: bool, env: Env, s: PS, of: Line, a: Bytes)
    requires InBlanks(s, of) && a != [] && Plain(a) && !IsBlank(a[0]) && (strict ==> !s.closed)
    ensures TidyStream(strict, env, s, a + CR_LF)
    ensures Run(env, s, a + CR_LF) ==
            EndArg(env, s.(st := Arg(of), tok := a + ['\r'], drop := 1), OutcomeOf(env, of, a))
  {
    RunWords(strict, env, s, of, a);
    var whole := s.(st := Arg(of), tok := a);
    RunCrLf(strict, env, whole, of);
    TidyAppend(strict, env, s, a, CR_LF);
    RunAppend(env, s, a, CR_LF);
  }

  lemma RunCrLf(strict: bool, env: Env, s: PS, of: Line)
    requires s.err.None? && s.st == Arg(of) && s.drop == 0 && !s.saved && (strict ==> !s.closed)
    ensures TidyStream(strict, env, s, CR_LF)
    ensures Run(env, s, CR_LF) == EndArg(env, s.(tok := s.tok + ['\r'], drop := 1), OutcomeOf(env, of, s.tok))
  {
    var t := s.(tok := s.tok + ['\r'], drop := 1);
    TidyOne(strict, env, s, '\r');
    TidyOne(strict, env, t, '\n');
    assert ArgOf(t) == s.tok;
    TidyAppend(strict, env, s, ['\r'], ['\n']);
    RunAppend(env, s, ['\r'], ['\n']);
    assert CR_LF == ['\r'] + ['\n'];
  }

  /** Over a payload of the announced size and its CRLF the machine hands the message over. */
  lemma RunPayload(strict: bool, env: Env, s: PS, payload: Bytes)
    requires s.err.None? && s.st.MsgPayload? && !s.msaved && s.msg == [] && |payload| == s.pa.size
    requires strict ==> !s.closed && Inherited(s).NoSid?
    ensures TidyStream(strict, env, s, payload + CR_LF)
    ensures Run(env, s, payload + CR_LF) == Restart(s, [Message(s.pa, Inherited(s), payload + CR_LF)])
  {
    PayloadIsTidy(strict, env, s, payload);
    RunPayloadInBuffer(env, s, payload);
    assert s.msg + payload == payload;
    PayloadEnds(strict, env, s.(msg := payload));
    TidyAppend(strict, env, s, payload, CR_LF);
    RunAppend(env, s, payload, CR_LF);
  }

  lemma PayloadEnds(strict: bool, env: Env, t: PS)
    requires t.err.None? && t.st.MsgPayload? && !t.msaved && |t.msg| == t.pa.size
    requires strict ==> !t.closed && Inherited(t).NoSid?
    ensures TidyStream(strict, env, t, CR_LF)
    ensures Run(env, t, CR_LF) == Restart(t, [Message(t.pa, Inherited(t), t.msg + CR_LF)])
  {
    var u := Step(env, t, '\r');
    TidyOne(strict, env, t, '\r');
    TidyOne(strict, env, u, '\n');
    TidyAppend(strict, env, t, ['\r'], ['\n']);
    RunAppend(env, t, ['\r'], ['\n']);
    assert ['\r'] + ['\n'] == CR_LF;
    assert t.msg + ['\r'] + ['\n'] == t.msg + CR_LF;
  }

  lemma {:induction false} PayloadIsTidy(strict: bool, env: Env, s: PS, payload: Bytes)
    requires s.err.None? && s.st.MsgPayload? && !s.msaved && |s.msg| + |payload| <= s.pa.size && (strict ==> !s.closed)
    ensures TidyStream(strict, env, s, payload)
    decreases |payload|
  {
    if payload != [] {
      PayloadIsTidy(strict, env, Step(env, s, payload[0]), payload[1..]);
    }
  }

  // ----- round trips -----

  lemma {:induction false} JoinIsPlain(ws: seq<Bytes>)
    requires forall k :: 0 <= k < |ws| ==> NoSpace(ws[k])
    ensures Plain(Join(ws))
    ensures ws != [] && ws[0] != [] ==> Join(ws) != [] && !IsBlank(Join(ws)[0])
  {
    if ws != [] {
      forall k | 0 <= k < |ws[0]| ensures !IsSpace(ws[0][k]) { }
      if |ws| > 1 {
        JoinIsPlain(ws[1..]);
      }
    }
  }

  /** What the argument line of a printed operation asks for. */
  lemma OutcomeOfPrinted(env: Env, w: Proto)
    requires Printable(w)
    ensures var o := OutcomeOf(env, LineOf(w), Join(Words(w)));
            o == if w.MsgProto? then Body(Meaning(w).pa) else Dispatch(Meaning(w))
  {
    match w
    case SubProto(_, _, _) => SubPrinted(w);
    case UnsubProto(_, _) => UnsubPrinted(w);
    case MsgProto(_, _, _, _, _) => MsgPrinted(w);
  }

  lemma SubPrinted(w: Proto)
    requires w.SubProto? && Printable(w)
    ensures SubOp(Join(Words(w))) == Ok(Meaning(w))
  {
    WordsAreFields(w);
    hide Fields, Join;
  }

  lemma UnsubPrinted(w: Proto)
    requires w.UnsubProto? && Printable(w)
    ensures UnsubOp(Join(Words(w))) == Ok(Meaning(w))
  {
    WordsAreFields(w);
    ParseSizeOfDecimal(w.max);
    hide Fields, Join, ParseSize, Decimal;
  }

  lemma MsgPrinted(w: Proto)
    requires w.MsgProto? && Printable(w)
    ensures MsgPa(Join(Words(w))) == Ok(Meaning(w).pa)
  {
    WordsAreFields(w);
    hide Fields, Join;
  }

  /** The record after the operation: a MSG line leaves its sid there. */
  function SidBehind(s: PS, w: Proto): Stale { if w.MsgProto? then Seen(w.sid) else s.stale }

  /** Behind the line of an operation. */
  function LineBehind(s: PS, w: Proto): PS {
    if w.MsgProto? then s.(st := MsgPayload, pa := Meaning(w).pa, stale := SidBehind(s, w))
    else s.(log := s.log + [Meaning(w)])
  }

  lemma RunLine(env: Env, s: PS, w: Proto)
    requires Ready(s) && env.typ.Router? && Printable(w)
    ensures var line := Verb(w) + (Join(Words(w)) + CR_LF);
            CleanStream(env, s, line) && Run(env, s, line) == LineBehind(s, w)
  {
    var arg, t := Join(Words(w)), s.(st := Blanks(LineOf(w)));
    RunVerb(env, s, w);
    PrintedWords(w);
    JoinIsPlain(Words(w));
    RunArg(true, env, t, LineOf(w), arg);
    OutcomeOfPrinted(env, w);
    CleanAppend(env, s, Verb(w), arg + CR_LF);
    RunAppend(env, s, Verb(w), arg + CR_LF);
  }

  /** The round trip of one operation: on a route, the bytes one server prints make the other
      make exactly the call meant, whatever came before. */
  lemma RoundTrip(env: Env, s: PS, w: Proto)
    requires Ready(s) && env.typ.Router? && Printable(w)
    ensures CleanStream(env, s, Print(w))
    ensures Run(env, s, Print(w)) == s.(log := s.log + [Meaning(w)], stale := SidBehind(s, w))
  {
    var line := Verb(w) + (Join(Words(w)) + CR_LF);
    var tail := if w.MsgProto? then w.payload + CR_LF else [];
    RunLine(env, s, w);
    if w.MsgProto? {
      RunPayload(true, env, LineBehind(s, w), w.payload);
    }
    CleanAppend(env, s, line, tail);
    RunAppend(env, s, line, tail);
  }

  lemma PrintedWords(w: Proto)
    requires Printable(w)
    ensures forall k :: 0 <= k < |Words(w)| ==> NoSpace(Words(w)[k])
    ensures Words(w) != [] && Words(w)[0] != []
  {
    if w.UnsubProto? { DigitsAreNoSpace(Decimal(w.max)); }
    if w.MsgProto? { DigitsAreNoSpace(w.szb); }
  }

  function PrintAll(ws: seq<Proto>): Bytes {
    if ws == [] then [] else Print(ws[0]) + PrintAll(ws[1..])
  }

  function Meanings(ws: seq<Proto>): seq<Op> {
    if ws == [] then [] else [Meaning(ws[0])] + Meanings(ws[1..])
  }

  lemma {:induction false} RoundTripAll(env: Env, s: PS, ws: seq<Proto>)
    requires Ready(s) && env.typ.Router? && forall k :: 0 <= k < |ws| ==> Printable(ws[k])
    ensures CleanStream(env, s, PrintAll(ws))
    ensures var t := Run(env, s, PrintAll(ws)); Ready(t) && t.log == s.log + Meanings(ws)
    decreases |ws|
  {
    if ws == [] {
      assert s.log + Meanings(ws) == s.log;
    } else {
      RoundTripAll(env, s.(log := s.log + [Meaning(ws[0])], stale := SidBehind(s, ws[0])), ws[1..]);
      RoundTripThen(env, s, ws[0], PrintAll(ws[1..]), Meanings(ws[1..]));
    }
  }

  lemma RoundTripThen(env: Env, s: PS, w: Proto, rest: Bytes, m: seq<Op>)
    requires Ready(s) && env.typ.Router? && Printable(w)
    requires var t := s.(log := s.log + [Meaning(w)], stale := SidBehind(s, w));
             CleanStream(env, t, rest) && Ready(Run(env, t, rest)) && Run(env, t, rest).log == t.log + m
    ensures CleanStream(env, s, Print(w) + rest)
    ensures var t := Run(env, s, Print(w) + rest); Ready(t) && t.log == s.log + ([Meaning(w)] + m)
  {
    hide *;
    RoundTrip(env, s, w);
    CleanAppend(env, s, Print(w), rest);
    RunAppend(env, s, Print(w), rest);
    assert s.log + [Meaning(w)] + m == s.log + ([Meaning(w)] + m);
  }

  /** A route delivers what was printed, however the network cuts the stream. */
  lemma RouteDelivers(env: Env, ws: seq<Proto>, chunks: seq<Bytes>, mem: seq<Bytes>)
    requires env.typ.Router? && forall k :: 0 <= k < |ws| ==> Printable(ws[k])
    requires Concat(chunks) == PrintAll(ws) && |mem| == |chunks|
    ensures RunCuts(env, Init(false), chunks, mem).log == Meanings(ws)
    ensures RunCuts(env, Init(false), chunks, mem).err == None
  {
    RoundTripAll(env, Init(false), ws);
    CutsAreInvisible(env, Init(false), chunks, mem);
  }
}
