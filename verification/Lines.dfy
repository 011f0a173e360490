/** What every line of the protocol asks for, from its bytes: verbs in any case, any number of blanks
    behind them, and words in the order of the protocol (server/parser.go:82-612, server/client.go:330-546). */
module Lines {
  import opened Base
  import opened Args
  import opened Protocol
  import opened Heirs
  import opened CutInvariance
  import opened Wire
  import opened Framing
  import opened Limits

  // ----- verbs -----

  /** Upper case; a tab counts as a blank. */
  function Fold(b: char): char {
    if 'a' <= b <= 'z' then ('A' as int + (b as int - 'a' as int)) as char else if b == '\t' then ' ' else b
  }

  function FoldAll(w: Bytes): (r: Bytes)
    ensures |r| == |w| && forall k :: 0 <= k < |w| ==> r[k] == Fold(w[k])
  {
    if w == [] then [] else FoldAll(w[..|w| - 1]) + [Fold(w[|w| - 1])]
  }

  /** The letters that lead from the start of an operation to a state. */
  function Title(st: State): Option<Bytes> {
    match st
    case In(verb) => Some(Begun(verb))
    case Blanks(of) => Some(LineTitle(of))
    case Tail(what) => Some(match what case PingOp => "PING" case PongOp => "PONG" case OkOp => "+OK")
    case _ => None
  }

  function LineTitle(of: Line): Bytes {
    match of
    case PubLine => "PUB " case MsgLine => "MSG " case SubLine => "SUB " case UnsubLine => "UNSUB"
    case ConnectLine => "CONNECT" case InfoLine => "INFO" case ErrLine => "-ERR "
  }

  function Begun(verb: Verb): Bytes {
    match verb
    case OpStart => ""
    case OpPlus => "+" case OpPlusO => "+O"
    case OpMinus => "-" case OpMinusE => "-E" case OpMinusEr => "-ER" case OpMinusErr => "-ERR"
    case OpC => "C" case OpCo => "CO" case OpCon => "CON" case OpConn => "CONN" case OpConne => "CONNE"
    case OpConnec => "CONNEC"
    case OpP => "P" case OpPu => "PU" case OpPub => "PUB" case OpPi => "PI" case OpPin => "PIN"
    case OpPo => "PO" case OpPon => "PON"
    case OpS => "S" case OpSu => "SU" case OpSub => "SUB"
    case OpU => "U" case OpUn => "UN" case OpUns => "UNS" case OpUnsu => "UNSU"
    case OpM => "M" case OpMs => "MS" case OpMsg => "MSG"
    case OpI => "I" case OpIn => "IN" case OpInf => "INF"
  }

  /** A word that leads to a state; clients send no MSG. */
  predicate Leads(typ: ConnType, word: Bytes, st: State) {
    Title(st) == Some(FoldAll(word)) && (typ.Client? && word != [] ==> Fold(word[0]) != 'M')
  }

  /** One letter more. */
  predicate LeadsOn(verb: Verb, b: char, st: State) {
    Title(st).Some? && Title(st).value == Begun(verb) + [Fold(b)]
  }

  lemma LetterLeads(typ: ConnType, verb: Verb, b: char, st: State)
    requires Keyword(typ, verb, b) == Some(st)
    ensures LeadsOn(verb, b, st) && (typ.Client? && verb.OpStart? ==> Fold(b) != 'M')
  {
    hide LeadsOn, Keyword;
    match VerbInitial(verb)
    case ' ' => StartLeads(typ, b, st);
    case 'P' => PLeads(typ, verb, b, st);
    case 'C' => CLeads(typ, verb, b, st);
    case 'S' => SLeads(typ, verb, b, st);
    case 'U' => ULeads(typ, verb, b, st);
    case 'M' => MLeads(typ, verb, b, st);
    case 'I' => ILeads(typ, verb, b, st);
    case _ => SignLeads(typ, verb, b, st);
  }

  lemma StartLeads(typ: ConnType, b: char, st: State)
    requires Keyword(typ, OpStart, b) == Some(st)
    ensures LeadsOn(OpStart, b, st) && (typ.Client? ==> Fold(b) != 'M')
  {
  }

  lemma PLeads(typ: ConnType, verb: Verb, b: char, st: State)
    requires Keyword(typ, verb, b) == Some(st) && VerbInitial(verb) == 'P'
    ensures LeadsOn(verb, b, st)
  {
  }

  lemma CLeads(typ: ConnType, verb: Verb, b: char, st: State)
    requires Keyword(typ, verb, b) == Some(st) && VerbInitial(verb) == 'C'
    ensures LeadsOn(verb, b, st)
  {
  }

  lemma SLeads(typ: ConnType, verb: Verb, b: char, st: State)
    requires Keyword(typ, verb, b) == Some(st) && VerbInitial(verb) == 'S'
    ensures LeadsOn(verb, b, st)
  {
  }

  lemma ULeads(typ: ConnType, verb: Verb, b: char, st: State)
    requires Keyword(typ, verb, b) == Some(st) && VerbInitial(verb) == 'U'
    ensures LeadsOn(verb, b, st)
  {
  }

  lemma MLeads(typ: ConnType, verb: Verb, b: char, st: State)
    requires Keyword(typ, verb, b) == Some(st) && VerbInitial(verb) == 'M'
    ensures LeadsOn(verb, b, st)
  {
  }

  lemma ILeads(typ: ConnType, verb: Verb, b: char, st: State)
    requires Keyword(typ, verb, b) == Some(st) && VerbInitial(verb) == 'I'
    ensures LeadsOn(verb, b, st)
  {
  }

  lemma SignLeads(typ: ConnType, verb: Verb, b: char, st: State)
    requires Keyword(typ, verb, b) == Some(st) && (VerbInitial(verb) == '+' || VerbInitial(verb) == '-')
    ensures LeadsOn(verb, b, st)
  {
  }

  /** Where the last letter was read. */
  function Before(st: State): Verb {
    match st
    case In(verb) => VerbBefore(verb)
    case Blanks(of) =>
      (match of
       case PubLine => OpPub case MsgLine => OpMsg case SubLine => OpSub case UnsubLine => OpUnsu
       case ConnectLine => OpConnec case InfoLine => OpInf case ErrLine => OpMinusErr)
    case Tail(what) => (match what case PingOp => OpPin case PongOp => OpPon case OkOp => OpPlusO)
    case _ => OpStart
  }

  function VerbBefore(verb: Verb): Verb {
    match verb
    case OpPlusO => OpPlus
    case OpMinusE => OpMinus case OpMinusEr => OpMinusE case OpMinusErr => OpMinusEr
    case OpCo => OpC case OpCon => OpCo case OpConn => OpCon case OpConne => OpConn case OpConnec => OpConne
    case OpPu => OpP case OpPub => OpPu case OpPi => OpP case OpPin => OpPi case OpPo => OpP case OpPon => OpPo
    case OpSu => OpS case OpSub => OpSu
    case OpUn => OpU case OpUns => OpUn case OpUnsu => OpUns
    case OpMs => OpM case OpMsg => OpMs
    case OpIn => OpI case OpInf => OpIn
    case _ => OpStart
  }

  function LastLetter(st: State): char
    requires Title(st).Some?
  {
    var t := Title(st).value; if t == [] then ' ' else t[|t| - 1]
  }

  /** The last letter leads from where it was read. */
  predicate CameBy(typ: ConnType, st: State, b: char)
    requires Title(st).Some?
  {
    Begun(Before(st)) + [Fold(b)] == Title(st).value && Keyword(typ, Before(st), b) == Some(st)
  }

  lemma LetterBack(typ: ConnType, st: State, b: char)
    requires Title(st).Some? && st != In(OpStart)
    requires Fold(b) == LastLetter(st) && (typ.Client? ==> st != In(OpM))
    ensures CameBy(typ, st, b)
  {
    hide CameBy, Keyword, LastLetter;
    match Initial(st)
    case 'P' => PBack(typ, st, b);
    case 'C' => CBack(typ, st, b);
    case 'S' => SBack(typ, st, b);
    case 'U' => UBack(typ, st, b);
    case 'M' => MBack(typ, st, b);
    case 'I' => IBack(typ, st, b);
    case _ => SignBack(typ, st, b);
  }

  lemma PBack(typ: ConnType, st: State, b: char)
    requires Title(st).Some? && Initial(st) == 'P'
    requires Fold(b) == LastLetter(st) && (typ.Client? ==> st != In(OpM))
    ensures CameBy(typ, st, b)
  {
  }

  lemma CBack(typ: ConnType, st: State, b: char)
    requires Title(st).Some? && Initial(st) == 'C'
    requires Fold(b) == LastLetter(st) && (typ.Client? ==> st != In(OpM))
    ensures CameBy(typ, st, b)
  {
  }

  lemma SBack(typ: ConnType, st: State, b: char)
    requires Title(st).Some? && Initial(st) == 'S'
    requires Fold(b) == LastLetter(st) && (typ.Client? ==> st != In(OpM))
    ensures CameBy(typ, st, b)
  {
  }

  lemma UBack(typ: ConnType, st: State, b: char)
    requires Title(st).Some? && Initial(st) == 'U'
    requires Fold(b) == LastLetter(st) && (typ.Client? ==> st != In(OpM))
    ensures CameBy(typ, st, b)
  {
  }

  lemma MBack(typ: ConnType, st: State, b: char)
    requires Title(st).Some? && Initial(st) == 'M'
    requires Fold(b) == LastLetter(st) && (typ.Client? ==> st != In(OpM))
    ensures CameBy(typ, st, b)
  {
  }

  lemma IBack(typ: ConnType, st: State, b: char)
    requires Title(st).Some? && Initial(st) == 'I'
    requires Fold(b) == LastLetter(st) && (typ.Client? ==> st != In(OpM))
    ensures CameBy(typ, st, b)
  {
  }

  lemma SignBack(typ: ConnType, st: State, b: char)
    requires Title(st).Some? && (Initial(st) == '+' || Initial(st) == '-')
    requires Fold(b) == LastLetter(st) && (typ.Client? ==> st != In(OpM))
    ensures CameBy(typ, st, b)
  {
  }

  // ----- the machine over a verb -----

  lemma FoldSnoc(w: Bytes, b: char)
    ensures FoldAll(w + [b]) == FoldAll(w) + [Fold(b)]
  {
    assert (w + [b])[..|w|] == w;
  }

  /** Between two operations, or before the first.  Until a CONNECT has come only a CONNECT may. */
  predicate MayBegin(s: PS, word: Bytes) {
    AtStart(s) && (s.auth && word != [] ==> Fold(word[0]) == 'C')
  }

  /** A word that leads to a state, without its last letter. */
  lemma Shorter(typ: ConnType, word: Bytes, st: State)
    requires Leads(typ, word, st) && word != []
    ensures var n := |word| - 1;
            && word == word[..n] + [word[n]] && Leads(typ, word[..n], In(Before(st)))
            && Keyword(typ, Before(st), word[n]) == Some(st) && (n == 0 <==> Before(st) == OpStart)
  {
    hide Keyword, Before;
    var n := |word| - 1;
    var w, b := word[..n], word[n];
    assert word == w + [b];
    FoldSnoc(w, b);
    StartAlone(st);
    if typ.Client? { MLeadsOnly(typ, word, st); }
    LetterBack(typ, st, b);
    assert FoldAll(word)[..n] == FoldAll(w) == Begun(Before(st));
    StartAlone(In(Before(st)));
  }

  /** The letters that lead to a state, in either case, lead there. */
  lemma {:induction false} VerbRun(env: Env, s: PS, word: Bytes, st: State)
    requires MayBegin(s, word) && Leads(env.typ, word, st)
    ensures Run(env, s, word) == s.(st := st)
    decreases |word|
  {
    hide Keyword, Step, Before, FoldAll, Begun;
    if word != [] {
      var w, b := word[..|word| - 1], word[|word| - 1];
      Shorter(env.typ, word, st);
      var p := In(Before(st));
      VerbRun(env, s, w, p);
      RunSnoc(env, s, w, b);
      VerbStep(env, s.(st := p), b);
    } else {
      assert Title(st).value == [];
      StartAlone(st);
    }
  }

  lemma StartAlone(st: State)
    requires Title(st).Some?
    ensures Title(st).value == [] <==> st == In(OpStart)
  {
  }

  lemma MLeadsOnly(typ: ConnType, word: Bytes, st: State)
    requires Leads(typ, word, st) && typ.Client?
    ensures st != In(OpM)
  {
    var f := FoldAll(word);
    if f != [] { assert f[0] == Fold(word[0]); }
  }

  lemma VerbStep(env: Env, s: PS, b: char)
    requires s.err.None? && s.st.In? && (s.st == In(OpStart) && s.auth ==> b == 'C' || b == 'c')
    ensures Step(env, s, b) ==
            match Keyword(env.typ, s.st.verb, b) case None => s.(err := Some(Unknown)) case Some(st) => s.(st := st)
  {
  }

  /** One letter more leads on if and only if some word of the protocol goes on like this, in either case;
      else it is the end, and nothing is called for. */
  lemma NextLetterExactly(env: Env, s: PS, w: Bytes, v: Verb, b: char)
    requires MayBegin(s, w + [b]) && Leads(env.typ, w, In(v))
    ensures var t := Run(env, s, w + [b]);
            if exists st :: Leads(env.typ, w + [b], st) then Leads(env.typ, w + [b], t.st) && t == s.(st := t.st)
            else t == s.(st := In(v), err := Some(Unknown))
  {
    hide *;
    ReadsLetter(env, s, w, v, b);
    var k := Keyword(env.typ, v, b);
    if k.Some? {
      GoesOn(env.typ, w, v, b, k.value);
    } else if st :| Leads(env.typ, w + [b], st) {
      VerbRun(env, s, w + [b], st);
    }
  }

  lemma ReadsLetter(env: Env, s: PS, w: Bytes, v: Verb, b: char)
    requires MayBegin(s, w + [b]) && Leads(env.typ, w, In(v))
    ensures s.err.None?
    ensures Run(env, s, w + [b]) ==
            match Keyword(env.typ, v, b)
            case None => s.(st := In(v), err := Some(Unknown))
            case Some(st) => s.(st := st)
  {
    hide Keyword, Step, Run;
    if w == [] { StartAlone(In(v)); } else { assert (w + [b])[0] == w[0]; }
    VerbRun(env, s, w, In(v));
    RunSnoc(env, s, w, b);
    VerbStep(env, s.(st := In(v)), b);
  }

  lemma GoesOn(typ: ConnType, w: Bytes, v: Verb, b: char, st: State)
    requires Leads(typ, w, In(v)) && Keyword(typ, v, b) == Some(st)
    ensures Leads(typ, w + [b], st)
  {
    LetterLeads(typ, v, b, st);
    FoldSnoc(w, b);
    hide Keyword;
    assert FoldAll(w + [b]) == Begun(v) + [Fold(b)];
    if w == [] {
      StartAlone(In(v));
      assert (w + [b])[0] == b;
    } else {
      assert (w + [b])[0] == w[0];
    }
  }

  /** Until a CONNECT has come, anything else ends the connection, and nothing is called for. */
  lemma AuthorizeFirst(env: Env, s: PS, bytes: Bytes)
    requires AtStart(s) && s.auth && bytes != [] && bytes[0] != 'C' && bytes[0] != 'c'
    ensures Run(env, s, bytes) == s.(err := Some(Authorization))
  {
    RunFailed(env, Step(env, s, bytes[0]), bytes[1..]);
  }

  // ----- whole lines -----

  predicate Idle(s: PS) { s.err.None? && Between(s) }

  predicate AllBlank(b: Bytes) { forall k :: 0 <= k < |b| ==> IsBlank(b[k]) }

  lemma {:induction false} RunBlanks(env: Env, s: PS, of: Line, b: Bytes)
    requires s.err.None? && s.st == Blanks(of) && AllBlank(b)
    ensures Run(env, s, b) == s
    decreases |b|
  {
    if b != [] { RunBlanks(env, s, of, b[1..]); }
  }

  /** The verb of a line, with the blanks behind it. */
  predicate Opens(env: Env, s: PS, verb: Bytes, blanks: Bytes, of: Line) {
    Idle(s) && MayBegin(s, verb) && Leads(env.typ, verb, Blanks(of)) && AllBlank(blanks)
  }

  function LineBytes(verb: Bytes, blanks: Bytes, a: Bytes): Bytes { verb + (blanks + (a + CR_LF)) }

  predicate Argument(a: Bytes) { a != [] && Plain(a) && !IsBlank(a[0]) }

  lemma LineRun(env: Env, s: PS, verb: Bytes, blanks: Bytes, of: Line, a: Bytes)
    requires Opens(env, s, verb, blanks, of) && Argument(a)
    ensures Run(env, s, LineBytes(verb, blanks, a)) ==
            EndArg(env, s.(st := Arg(of), tok := a + ['\r'], drop := 1), OutcomeOf(env, of, a))
  {
    var t := s.(st := Blanks(of));
    hide Run, Step, Leads, EndArg, OutcomeOf, MayBegin, TidyStream;
    VerbRun(env, s, verb, Blanks(of));
    RunBlanks(env, t, of, blanks);
    RunArg(false, env, t, of, a);
    RunAppend(env, s, verb, blanks + (a + CR_LF));
    RunAppend(env, t, blanks, a + CR_LF);
  }

  /** Words of an argument. */
  lemma WordsAreArgument(ws: seq<Bytes>)
    requires ws != [] && Wordy(ws)
    ensures Argument(Join(ws)) && Fields(Join(ws)) == ws
  {
    JoinIsPlain(ws);
    FieldsOfJoin(ws);
    AllNonEmpty(ws);
  }

  /** SUB subject [queue] sid */
  lemma SubCalls(env: Env, s: PS, verb: Bytes, blanks: Bytes, subject: Bytes, queue: Option<Bytes>, sid: Bytes)
    requires Opens(env, s, verb, blanks, SubLine)
    requires Name(subject) && (queue.Some? ==> Name(queue.value)) && Name(sid)
    ensures var ws := match queue case None => [subject, sid] case Some(q) => [subject, q, sid];
            Run(env, s, LineBytes(verb, blanks, Join(ws))) == s.(log := s.log + [Sub(subject, queue, sid)])
  {
    var ws := match queue case None => [subject, sid] case Some(q) => [subject, q, sid];
    WordsAreArgument(ws);
    hide Run, Opens, Fields, Join;
    LineRun(env, s, verb, blanks, SubLine, Join(ws));
    assert OutcomeOf(env, SubLine, Join(ws)) == Dispatch(Sub(subject, queue, sid));
    StaysIdle(env, s, verb, blanks, SubLine);
  }

  lemma StaysIdle(env: Env, s: PS, verb: Bytes, blanks: Bytes, of: Line)
    requires Opens(env, s, verb, blanks, of)
    ensures Idle(s)
  {
  }

  /** UNSUB sid [max]; a limit of zero clears it. */
  lemma UnsubCalls(env: Env, s: PS, verb: Bytes, blanks: Bytes, sid: Bytes, max: Option<nat>)
    requires Opens(env, s, verb, blanks, UnsubLine) && Name(sid) && (max.Some? ==> max.value < TWO63)
    ensures var ws := match max case None => [sid] case Some(m) => [sid, Decimal(m)];
            Run(env, s, LineBytes(verb, blanks, Join(ws))) ==
            s.(log := s.log + [Unsub(sid, match max case None => 0 case Some(m) => m)])
  {
    var ws := match max case None => [sid] case Some(m) => [sid, Decimal(m)];
    if max.Some? {
      DigitsAreNoSpace(Decimal(max.value));
      ParseSizeOfDecimal(max.value);
    }
    WordsAreArgument(ws);
    StaysIdle(env, s, verb, blanks, UnsubLine);
    hide Run, Opens, Fields, Join, ParseSize, Decimal;
    LineRun(env, s, verb, blanks, UnsubLine, Join(ws));
  }

  /** A limit that cannot be read clears it, too. */
  lemma UnsubUnread(env: Env, s: PS, verb: Bytes, blanks: Bytes, sid: Bytes, word: Bytes)
    requires Opens(env, s, verb, blanks, UnsubLine) && Name(sid) && Name(word) && !AllDigits(word)
    ensures Run(env, s, LineBytes(verb, blanks, Join([sid, word]))) == s.(log := s.log + [Unsub(sid, 0)])
  {
    WordsAreArgument([sid, word]);
    StaysIdle(env, s, verb, blanks, UnsubLine);
    hide Run, Opens, Fields, Join;
    LineRun(env, s, verb, blanks, UnsubLine, Join([sid, word]));
  }

  /** PUB subject [reply] size */
  lemma PubCalls(env: Env, s: PS, verb: Bytes, blanks: Bytes, subject: Bytes, reply: Option<Bytes>, payload: Bytes)
    requires Opens(env, s, verb, blanks, PubLine) && Names(subject, reply) && Allowed(env, |payload|)
    ensures var d := Decimal(|payload|);
            var ws := match reply case None => [subject, d] case Some(r) => [subject, r, d];
            Run(env, s, LineBytes(verb, blanks, Join(ws)) + (payload + CR_LF)) ==
            s.(log := s.log + [Message(Pa(subject, reply, None, d, |payload|), s.stale, payload + CR_LF)])
  {
    var d := Decimal(|payload|);
    var ws := match reply case None => [subject, d] case Some(r) => [subject, r, d];
    DigitsAreNoSpace(d);
    ParseSizeOfDecimal(|payload|);
    WordsAreArgument(ws);
    StaysIdle(env, s, verb, blanks, PubLine);
    hide Run, Opens, Fields, Join, ParseSize, Decimal;
    LineRun(env, s, verb, blanks, PubLine, Join(ws));
    BodyCalls(env, s, LineBytes(verb, blanks, Join(ws)), Pa(subject, reply, None, d, |payload|), payload);
  }

  /** MSG subject sid [reply] size, on a route */
  lemma MsgCalls(env: Env, s: PS, verb: Bytes, blanks: Bytes, subject: Bytes, sid: Bytes, reply: Option<Bytes>,
                 payload: Bytes)
    requires Opens(env, s, verb, blanks, MsgLine) && Names(subject, reply) && Name(sid) && |payload| < TWO63
    ensures var d := Decimal(|payload|);
            var ws := match reply case None => [subject, sid, d] case Some(r) => [subject, sid, r, d];
            Run(env, s, LineBytes(verb, blanks, Join(ws)) + (payload + CR_LF)) ==
            s.(log := s.log + [Message(Pa(subject, reply, Some(sid), d, |payload|), NoSid, payload + CR_LF)],
               stale := Seen(sid))
  {
    var d := Decimal(|payload|);
    var ws := match reply case None => [subject, sid, d] case Some(r) => [subject, sid, r, d];
    DigitsAreNoSpace(d);
    ParseSizeOfDecimal(|payload|);
    WordsAreArgument(ws);
    StaysIdle(env, s, verb, blanks, MsgLine);
    hide Run, Opens, Fields, Join, ParseSize, Decimal;
    LineRun(env, s, verb, blanks, MsgLine, Join(ws));
    BodyCalls(env, s, LineBytes(verb, blanks, Join(ws)), Pa(subject, reply, Some(sid), d, |payload|), payload);
  }

  /** A line with good arguments, and the payload behind it. */
  lemma BodyCalls(env: Env, s: PS, line: Bytes, pa: Pa, payload: Bytes)
    requires Idle(s) && pa.size == |payload|
    requires Run(env, s, line) ==
             s.(st := MsgPayload, pa := pa, stale := if pa.sid.Some? then Seen(pa.sid.value) else s.stale)
    ensures Run(env, s, line + (payload + CR_LF)) ==
            s.(log := s.log + [Message(pa, if pa.sid.Some? then NoSid else s.stale, payload + CR_LF)],
               stale := if pa.sid.Some? then Seen(pa.sid.value) else s.stale)
  {
    RunAppend(env, s, line, payload + CR_LF);
    RunPayload(false, env, Run(env, s, line), payload);
  }

  /** CONNECT clears the way for all others, unless its argument is refused. */
  lemma ConnectCalls(env: Env, s: PS, verb: Bytes, blanks: Bytes, arg: Bytes)
    requires Opens(env, s, verb, blanks, ConnectLine) && Argument(arg)
    ensures var t := Run(env, s, LineBytes(verb, blanks, arg));
            if env.connectOk(arg) then t == s.(log := s.log + [Connect(arg)], auth := false)
            else t.err == Some(BadConnect) && t.log == s.log
  {
    StaysIdle(env, s, verb, blanks, ConnectLine);
    hide Run, Opens;
    LineRun(env, s, verb, blanks, ConnectLine, arg);
  }

  /** INFO may close a route, and no client. */
  lemma InfoCalls(env: Env, s: PS, verb: Bytes, blanks: Bytes, arg: Bytes)
    requires Opens(env, s, verb, blanks, InfoLine) && Argument(arg)
    ensures var t := Run(env, s, LineBytes(verb, blanks, arg));
            if env.infoOk(arg) then
              t == s.(log := s.log + [Info(arg)],
                      closed := s.closed || (env.typ.Router? && env.infoCloses(|s.log|, arg)))
            else t.err == Some(BadInfo) && t.log == s.log
  {
    StaysIdle(env, s, verb, blanks, InfoLine);
    hide Run, Opens;
    LineRun(env, s, verb, blanks, InfoLine, arg);
  }

  /** -ERR closes the connection. */
  lemma ErrCalls(env: Env, s: PS, verb: Bytes, blanks: Bytes, text: Bytes)
    requires Opens(env, s, verb, blanks, ErrLine) && Argument(text)
    ensures Run(env, s, LineBytes(verb, blanks, text)) == s.(log := s.log + [Complaint(text)], closed := true)
  {
    StaysIdle(env, s, verb, blanks, ErrLine);
    hide Run, Opens;
    LineRun(env, s, verb, blanks, ErrLine, text);
  }

  /** PING and PONG make their calls, +OK makes none. */
  lemma ShortCalls(env: Env, s: PS, verb: Bytes, what: Short)
    requires Idle(s) && MayBegin(s, verb) && Leads(env.typ, verb, Tail(what))
    ensures Run(env, s, verb + CR_LF) ==
            s.(log := s.log + match what case PingOp => [Ping] case PongOp => [Pong] case OkOp => [])
  {
    VerbRun(env, s, verb, Tail(what));
    RunAppend(env, s, verb, CR_LF);
    RunTwo(env, s.(st := Tail(what)), '\r', '\n');
    assert CR_LF == ['\r', '\n'];
  }

  // ----- what is refused -----

  /** How many words a line may have, and what the code says of another number. */
  predicate Counts(of: Line, n: nat) {
    match of
    case PubLine => n == 2 || n == 3 case MsgLine => n == 3 || n == 4
    case SubLine => n == 2 || n == 3 case UnsubLine => n == 1 || n == 2
    case _ => true
  }

  function Complains(of: Line): Error {
    match of
    case PubLine => BadPub case MsgLine => BadMsg case SubLine => BadSub case UnsubLine => BadUnsub
    case ConnectLine => BadConnect case InfoLine => BadInfo case ErrLine => Unknown
  }

  /** The connection has ended with `e`, and nothing has been called for since `s`. */
  predicate Refused(s: PS, t: PS, e: Error) { t.err == Some(e) && t.log == s.log }

  lemma WrongNumber(env: Env, s: PS, verb: Bytes, blanks: Bytes, of: Line, ws: seq<Bytes>)
    requires Opens(env, s, verb, blanks, of) && ws != [] && Wordy(ws) && !Counts(of, |ws|)
    ensures Refused(s, Run(env, s, LineBytes(verb, blanks, Join(ws))), Complains(of))
  {
    WordsAreArgument(ws);
    hide Run, Opens, Fields, Join;
    LineRun(env, s, verb, blanks, of, Join(ws));
  }

  /** The last word of a PUB or MSG line is a number below 2^63 in digits, or the line is refused. */
  lemma WrongSize(env: Env, s: PS, verb: Bytes, blanks: Bytes, of: Line, ws: seq<Bytes>)
    requires Opens(env, s, verb, blanks, of) && (of.PubLine? || of.MsgLine?)
    requires ws != [] && Wordy(ws) && Counts(of, |ws|) && !AllDigits(ws[|ws| - 1])
    ensures Refused(s, Run(env, s, LineBytes(verb, blanks, Join(ws))), Complains(of))
  {
    WordsAreArgument(ws);
    hide Run, Opens, Fields, Join;
    LineRun(env, s, verb, blanks, of, Join(ws));
  }

  /** More than the payload limit. */
  lemma TooMuch(env: Env, s: PS, verb: Bytes, blanks: Bytes, ws: seq<Bytes>, n: nat)
    requires Opens(env, s, verb, blanks, PubLine) && Wordy(ws) && Counts(PubLine, |ws|) && ws[|ws| - 1] == Decimal(n)
    requires 0 < env.mpay < n < TWO63
    ensures Refused(s, Run(env, s, LineBytes(verb, blanks, Join(ws))), MaxPayload)
  {
    WordsAreArgument(ws);
    ParseSizeOfDecimal(n);
    hide Run, Opens, Fields, Join;
    LineRun(env, s, verb, blanks, PubLine, Join(ws));
  }

  lemma {:induction false} RunStray(env: Env, s: PS, p: Bytes)
    requires s.err.None? && s.st.MsgEnd? && '\n' !in p
    ensures Run(env, s, p) == s.(msg := s.msg + p)
    decreases |p|
  {
    if p == [] {
      assert s.msg + p == s.msg;
    } else {
      assert p[0] in p;
      RunStray(env, Step(env, s, p[0]), p[1..]);
      assert s.msg + [p[0]] + p[1..] == s.msg + p;
    }
  }

  /** A message is taken if its newline is the second byte behind a payload of the announced size, whatever
      the first one is; with the next newline later, the connection ends and nothing is called for. */
  lemma MessageExactly(env: Env, s: PS, payload: Bytes, c: char, more: Bytes)
    requires s.err.None? && s.st.MsgPayload? && !s.msaved && s.msg == [] && |payload| == s.pa.size && '\n' !in more
    ensures var t := Run(env, s, payload + ([c] + (more + ['\n'])));
            if more == [] then t.err.None? && t.log == s.log + [Message(s.pa, Inherited(s), payload + [c, '\n'])]
            else Refused(s, t, Unknown)
  {
    RunPayloadInBuffer(env, s, payload);
    assert s.msg + payload == payload;
    var u := s.(msg := payload);
    var v := Step(env, u, c);
    var w := v.(msg := v.msg + more);
    assert v == u.(msg := payload + [c], st := MsgEnd);
    RunStray(env, v, more);
    RunSnoc(env, v, more, '\n');
    RunAppend(env, u, [c], more + ['\n']);
    assert Run(env, u, [c]) == Run(env, v, []);
    RunAppend(env, s, payload, [c] + (more + ['\n']));
    if more == [] {
      assert payload + [c] + more + ['\n'] == payload + [c, '\n'];
    }
  }

  /** A client that has to authenticate: a PUB before its CONNECT is the end, and behind a good one it is
      called for. */
  lemma ConnectThenPub(env: Env, verb: Bytes, blanks: Bytes, arg: Bytes, pub: Bytes, subject: Bytes, payload: Bytes)
    requires Opens(env, Init(true), verb, blanks, ConnectLine) && Argument(arg) && env.connectOk(arg)
    requires Allowed(env, |payload|) && Name(subject) && Leads(env.typ, pub, Blanks(PubLine))
    ensures var line := LineBytes(pub, [], Join([subject, Decimal(|payload|)])) + (payload + CR_LF);
            && Run(env, Init(true), line) == Init(true).(err := Some(Authorization))
            && Run(env, Init(true), LineBytes(verb, blanks, arg) + line).log ==
               [Connect(arg), Message(Pa(subject, None, None, Decimal(|payload|), |payload|), NoSid, payload + CR_LF)]
  {
    var s, line := Init(true), LineBytes(pub, [], Join([subject, Decimal(|payload|)])) + (payload + CR_LF);
    ConnectCalls(env, s, verb, blanks, arg);
    var t := Run(env, s, LineBytes(verb, blanks, arg));
    RunAppend(env, s, LineBytes(verb, blanks, arg), line);
    PubCalls(env, t, pub, [], subject, None, payload);
    assert pub != [] && line[0] == pub[0] && FoldAll(pub)[0] == 'P';
    AuthorizeFirst(env, s, line);
  }
}
