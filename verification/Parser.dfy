/** The parser of server/parser.go as it stands: one loop over a read buffer with a jumping
    index, arguments and payloads that are slices of the buffer until it runs out, and copies
    in one scratch array afterwards.  Every method is proved to do what the machine of module
    Protocol does on the bytes it passes over. */
module Parser {
  import opened Base
  import opened Args
  import opened Slices
  import opened Protocol
  import opened PubArgs

  const MAX_CONTROL_LINE_SIZE := 1024
  const LEN_CR_LF := 2

  /** How a call of parse ends.  `Panic` is the run-time error of an index below zero, or of
      `make` with a capacity below zero or below the length. */
  datatype Verdict = Fine | Failed(error: Error) | Panic

  /** The struct parseState, but for its scratch array; `start` is the field `as`. */
  datatype ParseState = ParseState(
    st: State, start: int, drop: nat, pa: ArgSlices, argBuf: Slice, msgBuf: Slice)

  /** What the slices show: the saved line, the argument so far, the payload so far, the
      arguments in use, and whether pa.sid belongs to them. */
  datatype Shown = Shown(line: Bytes, tok: Bytes, msg: Bytes, pa: Pa, sidLive: bool)

  /** The rest of the machine state: the calls as the machine tells them, and what the sid in the
      argument record shows. */
  datatype Outer = Outer(auth: bool, closed: bool, told: seq<Op>, stale: Stale)

  /** The machine state of module Protocol that the parser is in. */
  ghost function Machine(p: ParseState, g: Shown, o: Outer): PS {
    PS(p.st, p.drop, p.argBuf.Slice?, g.tok, g.pa, p.msgBuf.Slice?, g.msg, o.stale, o.auth, o.closed, o.told, None)
  }

  /** The call `c` is what the machine tells as `op`, down to the bytes a hidden sid shows. */
  predicate Tells(c: Op, op: Op) {
    c == op || (op.Message? && op.stale.Hidden? && c.Message? && c.stale.Seen? && c.pa == op.pa && c.msg == op.msg)
  }

  predicate AllTold(calls: seq<Op>, told: seq<Op>) {
    |calls| == |told| && forall k :: 0 <= k < |calls| ==> Tells(calls[k], told[k])
  }

  /** No message is taken for a sid that is not its own. */
  predicate NoneInherits(log: seq<Op>) { forall k :: 0 <= k < |log| && log[k].Message? ==> log[k].stale.NoSid? }

  lemma ToldExactly(calls: seq<Op>, told: seq<Op>)
    requires AllTold(calls, told) && NoneInherits(told)
    ensures calls == told
  {
    forall k | 0 <= k < |calls| ensures calls[k] == told[k] { assert Tells(calls[k], told[k]); }
  }

  ghost predicate Keeps(owned: set<array<char>>, s: Slice) {
    s.Valid() && (s.Slice? ==> s.arr in owned)
  }

  /** The saved argument line `a`, alone or with the saved payload `m` behind it in the same
      array: saved arguments and saved payload never overlap. */
  ghost predicate Layout(owned: set<array<char>>, scratch: array<char>, a: Slice, m: Slice, size: int) {
    && scratch.Length == MAX_CONTROL_LINE_SIZE && scratch in owned
    && Keeps(owned, a) && Keeps(owned, m)
    && (a.Slice? ==> a.off == 0 && (a.len <= MAX_CONTROL_LINE_SIZE ==> a.arr == scratch))
    && (m.Slice? ==> a.Slice? && size <= m.arr.Length - m.off && (m.arr == a.arr ==> a.len <= m.off))
  }

  /** What the state says of the other fields. */
  ghost predicate Control(p: ParseState, g: Shown) {
    && p.drop <= 1
    && p.pa.sid.Valid()
    && (p.argBuf.Slice? ==> IsKeptArg(p.st) || IsBody(p.st))
    && (p.msgBuf.Slice? ==> IsBody(p.st))
    && (!p.st.Arg? ==> p.drop == 0 && g.tok == [])
    && (p.st.Arg? ==> if p.argBuf.Slice? then g.tok == g.line else p.drop <= |g.tok|)
    && (!IsBody(p.st) ==> g.pa == NO_PA && g.msg == [])
    && (IsBody(p.st) ==> 0 <= p.pa.size < TWO63)
    && (p.st.MsgPayload? ==> |g.msg| <= p.pa.size)
    && (p.st.MsgEnd? ==> p.pa.size <= |g.msg|)
  }

  /** Where the arguments lie: in the saved argument line, or in the read buffer. */
  ghost function Home(a: Slice, buf: Slice): Slice { if a.Slice? then a else buf }

  /** What is not saved yet lies in the read buffer `buf`, which shows `b`. */
  ghost predicate Tracks(p: ParseState, g: Shown, buf: Slice, b: Bytes, pos: nat) {
    && pos <= |b|
    && (p.st.Arg? && p.argBuf.NilSlice? ==> 0 <= p.start <= pos && g.tok == b[p.start..pos])
    && (IsBody(p.st) && p.msgBuf.NilSlice? ==> 0 <= p.start <= pos && g.msg == b[p.start..pos])
    && (IsBody(p.st) ==> Denotes(p.pa, g.sidLive, Home(p.argBuf, buf), if p.argBuf.Slice? then g.line else b, g.pa))
  }

  lemma SizeTracked(p: ParseState, g: Shown, buf: Slice, b: Bytes, pos: nat)
    requires Tracks(p, g, buf, b, pos) && IsBody(p.st)
    ensures p.pa.size == g.pa.size
  {
  }

  // ----- transitions on values -----

  /** The argument at the newline: argBuf, or buf[as:i-drop]. */
  lemma ArgumentShows(p: ParseState, g: Shown, o: Outer, buf: Slice, b: Bytes, i: nat)
    requires Control(p, g) && Tracks(p, g, buf, b, i) && p.st.Arg?
    ensures var arg := ArgOf(Machine(p, g, o));
            if p.argBuf.Slice? then arg == g.line
            else p.start + p.drop <= i && arg == b[p.start..i - p.drop]
  {
  }

  /** After a good PUB or MSG line the payload follows. */
  lemma EnterBody(env: Env, p: ParseState, g: Shown, o: Outer, buf: Slice, b: Bytes, i: nat,
                  pa: ArgSlices, live: bool, v: Pa)
    requires Control(p, g) && Tracks(p, g, buf, b, i) && i < |b| && (p.st == Arg(PubLine) || p.st == Arg(MsgLine))
    requires pa.sid.Valid() && 0 <= v.size < TWO63
    requires Denotes(pa, live, Home(p.argBuf, buf), if p.argBuf.Slice? then g.line else b, v)
    ensures var p' := p.(pa := pa, drop := 0, start := i + 1, st := MsgPayload);
            var g' := g.(tok := [], msg := [], pa := v, sidLive := live);
            && Control(p', g') && Tracks(p', g', buf, b, i + 1)
            && Machine(p', g', o.(stale := Left(Machine(p, g, o), v))) == EndArg(env, Machine(p, g, o), Body(v))
  {
  }

  /** Back to OP_START. */
  lemma Leave(p: ParseState, g: Shown, o: Outer, buf: Slice, b: Bytes, i: nat, ops: seq<Op>)
    requires Control(p, g) && Tracks(p, g, buf, b, i) && i < |b|
    ensures var p' := p.(argBuf := NilSlice, msgBuf := NilSlice, drop := 0, start := i + 1, st := In(OpStart));
            var g' := g.(tok := [], msg := [], pa := NO_PA);
            && Control(p', g') && Tracks(p', g', buf, b, i + 1)
            && Machine(p', g', o.(told := o.told + ops)) == Restart(Machine(p, g, o), ops)
  {
  }

  /** A byte of an argument that stays in the read buffer, or a `\r` of a saved one. */
  lemma ArgByte(env: Env, p: ParseState, g: Shown, o: Outer, buf: Slice, b: Bytes, i: nat)
    requires Control(p, g) && Tracks(p, g, buf, b, i) && i < |b| && p.st.Arg?
    requires b[i] != '\n' && (p.argBuf.Slice? ==> b[i] == '\r')
    ensures var p' := if b[i] == '\r' then p.(drop := 1) else p;
            var g' := if p.argBuf.Slice? then g else g.(tok := g.tok + [b[i]]);
            && Control(p', g') && Tracks(p', g', buf, b, i + 1)
            && Machine(p', g', o) == Step(env, Machine(p, g, o), b[i])
  {
    if p.argBuf.NilSlice? {
      assert b[p.start..i + 1] == b[p.start..i] + [b[i]];
    }
  }

  /** A byte appended to a saved argument. */
  lemma SavedArgByte(env: Env, p: ParseState, g: Shown, o: Outer, buf: Slice, b: Bytes, i: nat, r: Slice)
    requires Control(p, g) && Tracks(p, g, buf, b, i) && i < |b| && p.st.Arg? && p.argBuf.Slice? && r.Slice?
    requires b[i] != '\n' && b[i] != '\r'
    ensures var p' := p.(argBuf := r);
            var g' := g.(line := g.line + [b[i]], tok := g.tok + [b[i]]);
            && Control(p', g') && Tracks(p', g', buf, b, i + 1)
            && Machine(p', g', o) == Step(env, Machine(p, g, o), b[i])
  {
  }

  /** A byte of a payload that stays in the read buffer. */
  lemma BodyByte(env: Env, p: ParseState, g: Shown, o: Outer, buf: Slice, b: Bytes, i: nat)
    requires Control(p, g) && Tracks(p, g, buf, b, i) && i < |b| && IsBody(p.st) && p.msgBuf.NilSlice?
    requires p.st.MsgEnd? ==> b[i] != '\n'
    ensures var p' := p.(st := if p.st.MsgPayload? && i - p.start >= p.pa.size then MsgEnd else p.st);
            var g' := g.(msg := g.msg + [b[i]]);
            && Control(p', g') && Tracks(p', g', buf, b, i + 1)
            && Machine(p', g', o) == Step(env, Machine(p, g, o), b[i])
  {
    assert b[p.start..i + 1] == b[p.start..i] + [b[i]];
    assert g.pa.size == p.pa.size;
  }

  /** `k` bytes of the payload copied behind the saved ones, or one byte appended to them. */
  lemma SavedPayload(env: Env, p: ParseState, g: Shown, o: Outer, buf: Slice, b: Bytes, i: nat, k: nat, r: Slice)
    requires Control(p, g) && Tracks(p, g, buf, b, i) && p.st.MsgPayload? && p.msgBuf.Slice? && r.Slice?
    requires 0 < k && i + k <= |b| && (|g.msg| + k <= p.pa.size || k == 1)
    ensures var p' := p.(msgBuf := r, st := if |g.msg| + k >= p.pa.size then MsgEnd else MsgPayload);
            var g' := g.(msg := g.msg + b[i..i + k]);
            && Control(p', g') && Tracks(p', g', buf, b, i + k)
            && Machine(p', g', o) == Run(env, Machine(p, g, o), b[i..i + k])
  {
    var s := Machine(p, g, o);
    assert g.pa.size == p.pa.size;
    if |g.msg| + k <= p.pa.size {
      RunPayloadSaved(env, s, b[i..i + k]);
    } else {
      assert b[i..i + k] == [b[i]];
      assert Run(env, s, [b[i]]) == Run(env, Step(env, s, b[i]), []);
    }
  }

  /** A stray byte appended to a saved payload. */
  lemma SavedEndByte(env: Env, p: ParseState, g: Shown, o: Outer, buf: Slice, b: Bytes, i: nat, r: Slice)
    requires Control(p, g) && Tracks(p, g, buf, b, i) && i < |b| && p.st.MsgEnd? && p.msgBuf.Slice? && r.Slice?
    requires b[i] != '\n'
    ensures var p' := p.(msgBuf := r);
            var g' := g.(msg := g.msg + [b[i]]);
            && Control(p', g') && Tracks(p', g', buf, b, i + 1)
            && Machine(p', g', o) == Step(env, Machine(p, g, o), b[i])
  {
  }

  /** PUB's index jump: `k` bytes of the payload, all still in the read buffer. */
  lemma Jump(env: Env, p: ParseState, g: Shown, o: Outer, buf: Slice, b: Bytes, i: nat, k: nat)
    requires Control(p, g) && Tracks(p, g, buf, b, i) && p.st.MsgPayload? && p.msgBuf.NilSlice?
    requires i + k <= |b| && |g.msg| + k <= p.pa.size
    ensures var g' := g.(msg := g.msg + b[i..i + k]);
            && Control(p, g') && Tracks(p, g', buf, b, i + k)
            && Machine(p, g', o) == Run(env, Machine(p, g, o), b[i..i + k])
  {
    assert g.pa.size == p.pa.size;
    RunPayloadInBuffer(env, Machine(p, g, o), b[i..i + k]);
    assert b[p.start..i + k] == b[p.start..i] + b[i..i + k];
  }

  /** The index PUB jumps to from the newline at `i`, in 64-bit arithmetic. */
  ghost predicate Jumped(p: ParseState, next: int, i: nat) {
    && next == Wrap64(i + 1 + p.pa.size - LEN_CR_LF) && p.start == i + 1 && p.st.MsgPayload? && p.msgBuf.NilSlice?
    && 0 <= p.pa.size < TWO63
  }

  lemma JumpedIs(p: ParseState, next: int, i: nat)
    requires next == Wrap64(p.start + p.pa.size - LEN_CR_LF) && p.start == i + 1 && 0 <= p.pa.size < TWO63
    requires p.st.MsgPayload? && p.msgBuf.NilSlice?
    ensures Jumped(p, next, i)
  {
  }

  /** What the loop's own step makes of it. */
  lemma NextIndex(size: nat, i: nat)
    requires i < TWO63 && size < TWO63
    ensures var next := Wrap64(Wrap64(i + 1 + size - LEN_CR_LF) + 1);
            if i + size < TWO63 then next == i + size else next < 0
  {
    if i + size > TWO63 {
      ModShift(i + size - 1 + TWO63 - TWO64, 1);
      ModShift(i + size + TWO63 - TWO64, 1);
    } else if i + size == TWO63 {
      ModShift(0, 1);
    }
  }

  /** The loop index `i` against the number `pos` of bytes passed: equal, but for PUB's jump,
      which may overrun the buffer or, for an empty payload, see the newline again. */
  ghost predicate Placed(p: ParseState, i: int, pos: nat, n: nat) {
    || 0 <= i == pos <= n
    || (p.st.MsgPayload? && p.msgBuf.NilSlice? && i > pos == n)
    || (p.st.MsgPayload? && p.msgBuf.NilSlice? && 0 <= i && i + 1 == pos == p.start <= n)
  }

  /** How many bytes of a payload of `size` bytes the jump from the newline at `i` passes. */
  ghost function JumpLength(i: nat, size: nat, n: nat): (k: nat)
    requires i < n
    ensures i + 1 + k <= n && k <= size
  {
    if size == 0 then 0 else if i + size <= n then size - 1 else n - (i + 1)
  }

  lemma JumpIsPlaced(p: ParseState, i: nat, n: nat)
    requires i < n && i + p.pa.size < TWO63 && Jumped(p, i + p.pa.size - 1, i)
    ensures Placed(p, i + p.pa.size, i + 1 + JumpLength(i, p.pa.size, n), n)
  {
  }

  /** A letter of a verb, a blank, or the first byte of an argument. */
  lemma Letters(p: ParseState, g: Shown, o: Outer, buf: Slice, b: Bytes, i: nat, st: State)
    requires Control(p, g) && Tracks(p, g, buf, b, i) && i < |b| && !p.st.Arg? && !IsBody(p.st) && !IsBody(st)
    ensures var p' := p.(st := st, start := if st.Arg? then i else p.start);
            var g' := if st.Arg? then g.(tok := [b[i]]) else g;
            && Control(p', g') && Tracks(p', g', buf, b, i + 1)
            && Machine(p', g', o) == Machine(p, g, o).(st := st, tok := if st.Arg? then [b[i]] else [])
  {
    assert b[i..i + 1] == [b[i]];
  }

  /** The machine's step at the newline of an argument line. */
  lemma NewlineStep(env: Env, s: PS)
    requires s.err.None? && s.st.Arg?
    ensures var o := OutcomeOf(env, s.st.of, ArgOf(s));
            && Step(env, s, '\n') == EndArg(env, s, o)
            && (o.Refuse? ==> Step(env, s, '\n').err == Some(o.error) && Step(env, s, '\n').log == s.log)
  {
  }

  /** A line that is refused ends the connection. */
  lemma Refused(env: Env, s: PS)
    ensures forall e :: var t := EndArg(env, s, Refuse(e)); t.err == Some(e) && t.log == s.log
  {
  }

  lemma MessageInBuffer(p: ParseState, g: Shown, buf: Slice, b: Bytes, i: nat)
    requires Tracks(p, g, buf, b, i) && p.st.MsgEnd? && p.msgBuf.NilSlice? && i < |b| && b[i] == '\n'
    ensures 0 <= p.start <= i && b[p.start..i + 1] == g.msg + ['\n']
  {
    assert b[p.start..i + 1] == b[p.start..i] + [b[i]];
  }

  /** The machine's step at the newline of a message. */
  lemma MessageStep(env: Env, s: PS)
    requires s.err.None? && s.st.MsgEnd?
    ensures |s.msg| + 1 == s.pa.size + 2 ==>
              Step(env, s, '\n') == Restart(s, [Message(s.pa, Inherited(s), s.msg + ['\n'])])
    ensures |s.msg| + 1 != s.pa.size + 2 ==> Step(env, s, '\n') == Fail(s, Unknown)
  {
  }

  // ----- the end of the buffer -----

  /** A payload does not fit the scratch array behind `saved` bytes of arguments, and no other
      array can be made for it. */
  predicate NoRoom(env: Env, s: PS, saved: nat) { s.pa.size > MAX_CONTROL_LINE_SIZE - saved && Unmakeable(env, s) }

  lemma NoRoomIs(env: Env, p: ParseState, g: Shown, o: Outer, saved: nat)
    requires IsBody(p.st) && p.msgBuf.NilSlice? && p.pa.size == g.pa.size
    ensures NoRoom(env, Machine(p, g, o), saved) <==>
            p.pa.size > MAX_CONTROL_LINE_SIZE - saved
                && (p.pa.size + LEN_CR_LF > env.maxAlloc || |g.msg| > p.pa.size + LEN_CR_LF)
  {
  }

  /** make([]byte, length, size + LEN_CR_LF), which panics if the capacity has overflowed, is
      larger than any array can be, or is below the length. */
  method Make(env: Env, length: nat, size: nat) returns (room: Option<array<char>>)
    requires size < TWO63
    ensures room.Some? <==> length <= size + LEN_CR_LF <= env.maxAlloc
    ensures room.Some? ==> fresh(room.value) && room.value.Length == size + LEN_CR_LF
  {
    var cap := Wrap64(size + LEN_CR_LF);
    if cap < 0 || cap > env.maxAlloc || length > cap {
      return None;
    }
    var made := new char[cap](_ => '\0');
    room := Some(made);
  }

  lemma SavedArg(p: ParseState, g: Shown, o: Outer, arg: Bytes, r: Slice)
    requires Control(p, g) && IsKeptArg(p.st) && p.argBuf.NilSlice? && r.Slice?
    requires arg == ArgOf(Machine(p, g, o))
    ensures var p', g' := p.(argBuf := r), g.(line := arg, tok := arg);
            Control(p', g') && Machine(p', g', o) == Cut(Machine(p, g, o))
  {
  }

  lemma SavedBody(p: ParseState, g: Shown, o: Outer, pa: ArgSlices, a: Slice, line: Bytes, m: Slice)
    requires Control(p, g) && IsBody(p.st) && p.msgBuf.NilSlice? && a.Slice? && m.Slice?
    requires pa.size == p.pa.size && pa.sid.Valid()
    ensures var p', g' := p.(pa := pa, argBuf := a, msgBuf := m), g.(line := line);
            && Control(p', g')
            && Machine(p', g', o.(stale := if p.argBuf.Slice? || o.stale.NoSid? then o.stale else Hidden))
               == Cut(Machine(p, g, o))
  {
  }

  class Client {
    const env: Env
    const scratch: array<char>
    const room: array<char>          // the read buffer of readLoop
    var ps: ParseState
    var auth: bool                   // the authorization timer is set
    var closed: bool
    var count: nat                   // of the calls made; the verdicts on them may differ
    ghost var calls: seq<Op>         // the calls made
    ghost var told: seq<Op>          // and as the machine tells them
    ghost var g: Shown
    ghost var owned: set<array<char>>

    constructor (env: Env, auth: bool, room: array<char>)
      ensures Idle() && fresh(owned)
      ensures this.env == env && this.room == room && Now() == Init(auth) && calls == []
    {
      this.env, this.room := env, room;
      var space := new char[MAX_CONTROL_LINE_SIZE](_ => '\0');
      scratch := space;
      ps := ParseState(In(OpStart), 0, 0, NO_ARGS, NilSlice, NilSlice);
      this.auth, closed, count := auth, false, 0;
      calls, told, owned, g := [], [], {space}, Shown([], [], [], NO_PA, false);
    }

    /** What a sid shows as long as the read buffer stays as it is. */
    ghost function ShownIn(sid: Slice): Stale
      reads room
    {
      if sid.NilSlice? then NoSid else if sid.arr == room && sid.Valid() then Seen(sid.Val()) else Hidden
    }

    /** What the sid in the argument record shows, whosever it is. */
    ghost function StaleNow(): Stale
      reads this, room
    {
      ShownIn(ps.pa.sid)
    }

    ghost function Out(): Outer
      reads this, room
    {
      Outer(auth, closed, told, StaleNow())
    }

    ghost function Now(): PS
      reads this, room
    {
      Machine(ps, g, Out())
    }

    /** The length of the argument line of a payload, where it is saved or will be. */
    function SavedLength(): nat
      reads this
    {
      if ps.argBuf.Slice? then ps.argBuf.len
      else ps.pa.subject.Len() + ps.pa.reply.Len() + ps.pa.sid.Len() + ps.pa.szb.Len()
    }

    /** The arrays of this connection hold what `g` says. */
    ghost predicate Stored()
      reads this, owned
    {
      && Layout(owned, scratch, ps.argBuf, ps.msgBuf, ps.pa.size)
      && (ps.argBuf.Slice? ==> ps.argBuf.Val() == g.line)
      && (ps.msgBuf.Slice? ==> ps.msgBuf.Val() == g.msg)
      && room !in owned && Logged()
    }

    /** The calls made are those the machine tells. */
    ghost predicate Logged()
      reads this`calls, this`told, this`count
    {
      AllTold(calls, told) && count == |told|
    }

    /** In a call of parse on `buf`, which shows `b`, after its first `pos` bytes. */
    ghost predicate Valid(buf: Slice, b: Bytes, pos: nat)
      reads this, owned
    {
      Stored() && Control(ps, g) && Tracks(ps, g, buf, b, pos)
    }

    /** Between two calls of parse nothing that is needed lies in a read buffer. */
    ghost predicate Idle()
      reads this, owned
    {
      && Stored() && Control(ps, g)
      && (IsKeptArg(ps.st) ==> ps.argBuf.Slice?)
      && (IsBody(ps.st) ==> ps.argBuf.Slice? && ps.msgBuf.Slice? && Denotes(ps.pa, g.sidLive, ps.argBuf, g.line, g.pa))
    }

    /** `buf` is a part of the read buffer, which is none of the connection's own arrays. */
    ghost predicate Reads(buf: Slice, b: Bytes)
      reads this, room
    {
      buf.Slice? && buf.arr == room && room !in owned && buf.Valid() && buf.Val() == b && |b| < TWO63
    }

    /** What one byte did: the machine's step, with the same error if it failed. */
    ghost predicate Stepped(v: Verdict, s: PS, buf: Slice, b: Bytes, pos: nat)
      reads this, owned, room
    {
      match v
      case Fine => Valid(buf, b, pos) && Now() == s
      case Failed(e) => s.err == Some(e) && s.log == told && Logged()
      case Panic => false
    }

    /** processPub or processMsgArgs. */
    method ReadLine(arg: Slice) returns (pa: ArgSlices, err: Option<Error>, ghost o: Outcome)
      requires (ps.st == Arg(PubLine) || ps.st == Arg(MsgLine)) && arg.Slice? && arg.Valid()
      ensures o == OutcomeOf(env, ps.st.of, arg.Val())
      ensures if err.Some? then o == Refuse(err.value) else o.Body?
      ensures err.None? ==> Denotes(pa, ps.st == Arg(MsgLine), arg, arg.Val(), o.pa) && 0 <= o.pa.size < TWO63
      ensures err.None? && ps.st == Arg(PubLine) ==> pa.sid == ps.pa.sid
    {
      hide Denotes, PubPa, MsgPa;
      o := OutcomeOf(env, ps.st.of, arg.Val());
      if ps.st == Arg(PubLine) {
        pa, err := ProcessPub(env, arg, ps.pa);
      } else {
        pa, err := ProcessMsgArgs(arg, ps.pa);
      }
    }

    /** The newline of a PUB or MSG line. */
    method Arguments(buf: Slice, ghost b: Bytes, i: nat, arg: Slice) returns (v: Verdict)
      requires Reads(buf, b) && Valid(buf, b, i) && i < |b| && (ps.st == Arg(PubLine) || ps.st == Arg(MsgLine))
      requires arg.Slice? && arg.Valid()
      requires Shows(arg, Home(ps.argBuf, buf), if ps.argBuf.Slice? then g.line else b, arg.Val())
      modifies this`ps, this`g
      ensures Stepped(v, EndArg(env, old(Now()), OutcomeOf(env, old(ps.st.of), arg.Val())), buf, b, i + 1)
      ensures v.Fine? ==> ps.argBuf == old(ps.argBuf) && ps.msgBuf.NilSlice? && ps.start == i + 1 && ps.st.MsgPayload?
      ensures v.Fine? ==> 0 <= ps.pa.size < TWO63
    {
      Refused(env, Now());
      assert Logged() && Now().log == told;
      hide Control, Tracks, Layout, Machine, EndArg, AllTold, StaleNow, Left, Denotes, Shows, OutcomeOf;
      ghost var o;
      var pa, err;
      pa, err, o := ReadLine(arg);
      if err.Some? {
        return Failed(err.value);
      }
      ghost var live := ps.st == Arg(MsgLine);
      DenotesIn(pa, live, arg, arg.Val(), Home(ps.argBuf, buf), if ps.argBuf.Slice? then g.line else b, o.pa);
      BodyBegins(buf, b, i, pa, live, o.pa);
      v := Fine;
    }

    /** The state after a good PUB or MSG line. */
    method BodyBegins(buf: Slice, ghost b: Bytes, i: nat, pa: ArgSlices, ghost live: bool, ghost v: Pa)
      requires Reads(buf, b) && Valid(buf, b, i) && i < |b| && (ps.st == Arg(PubLine) || ps.st == Arg(MsgLine))
      requires Denotes(pa, live, Home(ps.argBuf, buf), if ps.argBuf.Slice? then g.line else b, v)
      requires 0 <= v.size < TWO63 && (!live ==> pa.sid == ps.pa.sid)
      modifies this`ps, this`g
      ensures Valid(buf, b, i + 1) && Now() == EndArg(env, old(Now()), Body(v))
      ensures ps.argBuf == old(ps.argBuf) && ps.msgBuf.NilSlice? && ps.start == i + 1 && ps.st.MsgPayload?
      ensures ps.pa.size == v.size
    {
      hide *;
      BodyFacts(buf, b, i, pa, live, v);
      ghost var o, t := Out(), EndArg(env, Now(), Body(v));
      OuterIs();
      Change(ps.(pa := pa, drop := 0, start := i + 1, st := MsgPayload),
             g.(tok := [], msg := [], pa := v, sidLive := live));
      StateIs(buf, b, i + 1, o, t);
    }

    lemma OuterIs()
      ensures auth == Out().auth && closed == Out().closed && told == Out().told
      ensures Out() == Out().(stale := ShownIn(ps.pa.sid))
    {
    }

    /** What the state after a good PUB or MSG line will be. */
    lemma BodyFacts(buf: Slice, b: Bytes, i: nat, pa: ArgSlices, live: bool, v: Pa)
      requires Reads(buf, b) && Valid(buf, b, i) && i < |b| && (ps.st == Arg(PubLine) || ps.st == Arg(MsgLine))
      requires Denotes(pa, live, Home(ps.argBuf, buf), if ps.argBuf.Slice? then g.line else b, v)
      requires 0 <= v.size < TWO63 && (!live ==> pa.sid == ps.pa.sid)
      ensures Stored() && ps.msgBuf.NilSlice? && pa.size == v.size
      ensures Layout(owned, scratch, ps.argBuf, ps.msgBuf, pa.size)
      ensures var p' := ps.(pa := pa, drop := 0, start := i + 1, st := MsgPayload);
              var g' := g.(tok := [], msg := [], pa := v, sidLive := live);
              && Control(p', g') && Tracks(p', g', buf, b, i + 1)
              && Machine(p', g', Out().(stale := ShownIn(pa.sid))) == EndArg(env, Now(), Body(v))
    {
      SidLeft(buf, b, pa, live, v);
      EnterBody(env, ps, g, Out(), buf, b, i, pa, live, v);
    }

    lemma StateIs(buf: Slice, b: Bytes, pos: nat, o: Outer, t: PS)
      requires Stored() && Control(ps, g) && Tracks(ps, g, buf, b, pos)
      requires auth == o.auth && closed == o.closed && told == o.told
      requires Machine(ps, g, o.(stale := ShownIn(ps.pa.sid))) == t
      ensures Valid(buf, b, pos) && Now() == t
    {
    }

    /** Take over a new parse state with the same saved line, and no saved payload. */
    method Change(p: ParseState, ghost shown: Shown)
      requires Stored() && p.argBuf == ps.argBuf && p.msgBuf.NilSlice? && shown.line == g.line
      requires Layout(owned, scratch, p.argBuf, p.msgBuf, p.pa.size)
      modifies this`ps, this`g
      ensures ps == p && g == shown && Stored()
    {
      ps := p;
      g := shown;
    }

    /** What the sid of a line shows in the argument record: it is a window of the read buffer, or of
        the saved line. */
    lemma SidLeft(buf: Slice, b: Bytes, pa: ArgSlices, live: bool, v: Pa)
      requires Reads(buf, b) && Stored() && ps.pa.sid.Valid() && (!live ==> pa.sid == ps.pa.sid)
      requires Denotes(pa, live, Home(ps.argBuf, buf), if ps.argBuf.Slice? then g.line else b, v)
      ensures pa.sid.Valid() && ShownIn(pa.sid) == Left(Now(), v)
    {
      if live { ShownValue(pa.sid, Home(ps.argBuf, buf), v.sid.value); }
    }

    /** The newline of a SUB, UNSUB, CONNECT, INFO or -ERR line: release the argument and make
        the call. */
    method Operation(buf: Slice, ghost b: Bytes, i: nat, arg: Bytes) returns (v: Verdict)
      requires Valid(buf, b, i) && i < |b| && ps.st.Arg? && !ps.st.of.PubLine? && !ps.st.of.MsgLine?
      modifies this`ps, this`g, this`auth, this`closed, this`count, this`calls, this`told
      ensures Stepped(v, EndArg(env, old(Now()), OutcomeOf(env, old(ps.st.of), arg)), buf, b, i + 1)
    {
      Refused(env, Now());
      var outcome := OutcomeOf(env, ps.st.of, arg);
      if outcome.Refuse? {
        return Failed(outcome.error);
      }
      var closes := Closes(env, count, outcome.op);
      Release(buf, b, i, 1, [outcome.op], [outcome.op]);
      auth, closed := auth && !outcome.op.Connect?, closed || closes;
      v := Fine;
    }

    /** argBuf, or buf[as:i-drop] */
    method Argument(buf: Slice, ghost b: Bytes, i: nat) returns (arg: Slice)
      requires Reads(buf, b) && Valid(buf, b, i) && ps.st.Arg?
      ensures arg.Slice? && arg.Valid() && arg.Val() == ArgOf(Now())
      ensures Shows(arg, Home(ps.argBuf, buf), if ps.argBuf.Slice? then g.line else b, arg.Val())
    {
      ArgumentShows(ps, g, Out(), buf, b, i);
      hide Denotes, Control, Run, Step;
      if ps.argBuf.Slice? {
        arg := ps.argBuf;
      } else {
        arg := Window(buf, ps.start, i - ps.drop);
        ShownValue(arg, buf, b[ps.start..i - ps.drop]);
      }
    }

    lemma IsInState()
      ensures Now().st == ps.st && Now().err.None?
    {
    }

    /** The newline of a PUB or MSG line.  `next` is the loop index afterwards: PUB jumps to the last
        byte of its payload, or beyond the buffer. */
    method MessageLine(buf: Slice, ghost b: Bytes, i: nat, arg: Slice) returns (next: int, v: Verdict)
      requires Reads(buf, b) && Valid(buf, b, i) && i < |b| && (ps.st == Arg(PubLine) || ps.st == Arg(MsgLine))
      requires arg.Slice? && arg.Valid() && arg.Val() == ArgOf(Now())
      requires Shows(arg, Home(ps.argBuf, buf), if ps.argBuf.Slice? then g.line else b, arg.Val())
      modifies this`ps, this`g
      ensures Stepped(v, Step(env, old(Now()), '\n'), buf, b, i + 1)
      ensures v.Fine? ==> if old(ps.st) == Arg(PubLine) then Jumped(ps, next, i) else next == i
    {
      hide *;
      IsInState();
      NewlineStep(env, Now());
      var pub := ps.st == Arg(PubLine);
      next := i;
      v := Arguments(buf, b, i, arg);
      if v.Fine? && pub {
        next := Wrap64(ps.start + ps.pa.size - LEN_CR_LF);
        JumpedIs(ps, next, i);
      }
    }

    /** The newline of an argument line. */
    method Newline(buf: Slice, ghost b: Bytes, i: nat) returns (next: int, v: Verdict)
      requires Reads(buf, b) && Valid(buf, b, i) && i < |b| && ps.st.Arg? && b[i] == '\n'
      modifies this`ps, this`g, this`auth, this`closed, this`count, this`calls, this`told
      ensures Stepped(v, Step(env, old(Now()), '\n'), buf, b, i + 1)
      ensures v.Fine? ==> if old(ps.st) == Arg(PubLine) then Jumped(ps, next, i) else next == i
    {
      hide *;
      IsInState();
      NewlineStep(env, Now());
      var arg := Argument(buf, b, i);
      if ps.st == Arg(PubLine) || ps.st == Arg(MsgLine) {
        next, v := MessageLine(buf, b, i, arg);
      } else {
        next := i;
        v := Operation(buf, b, i, arg.Val());
      }
    }

    /** A byte of an argument line. */
    method InArg(buf: Slice, ghost b: Bytes, i: nat) returns (next: int, v: Verdict)
      requires Reads(buf, b) && Valid(buf, b, i) && i < |b| && ps.st.Arg?
      modifies this, owned
      ensures fresh(owned - old(owned))
      ensures Stepped(v, Step(env, old(Now()), b[i]), buf, b, i + 1)
      ensures v.Fine? ==> if old(ps.st) == Arg(PubLine) && b[i] == '\n' then Jumped(ps, next, i) else next == i
    {
      hide Denotes, Run, Jumped, OutcomeOf;
      var c := buf.arr[buf.off + i];
      assert c == b[i];
      next, v := i, Fine;
      if c == '\n' {
        next, v := Newline(buf, b, i);
      } else if c == '\r' || ps.argBuf.NilSlice? {
        ArgByte(env, ps, g, Out(), buf, b, i);
        if c == '\r' {
          ps := ps.(drop := 1);
        }
        if ps.argBuf.NilSlice? {
          g := g.(tok := g.tok + [c]);
        }
      } else {
        InSavedArg(buf, b, i, c);
      }
    }

    /** A byte of a saved argument line. */
    method InSavedArg(buf: Slice, ghost b: Bytes, i: nat, c: char)
      requires Reads(buf, b) && Valid(buf, b, i) && i < |b| && ps.st.Arg? && ps.argBuf.Slice?
      requires c == b[i] && c != '\n' && c != '\r'
      modifies this`ps, this`g, this`owned, owned
      ensures fresh(owned - old(owned))
      ensures Valid(buf, b, i + 1) && Now() == Step(env, old(Now()), c)
    {
      hide Denotes, Run, Step;
      ghost var o := Out();
      var r := Append(ps.argBuf, [c]);
      SavedArgByte(env, ps, g, o, buf, b, i, r);
      Adopt(ps.(argBuf := r), g.(line := g.line + [c], tok := g.tok + [c]), {r.arr});
    }

    /** Take over a new parse state after its slices were written, some in the arrays `more`. */
    method Adopt(p: ParseState, ghost shown: Shown, ghost more: set<array<char>>)
      requires Layout(owned + more, scratch, p.argBuf, p.msgBuf, p.pa.size) && room !in owned + more && Logged()
      requires p.argBuf.Slice? ==> p.argBuf.Val() == shown.line
      requires p.msgBuf.Slice? ==> p.msgBuf.Val() == shown.msg
      modifies this`ps, this`g, this`owned
      ensures ps == p && g == shown && owned == old(owned) + more && Stored()
    {
      ps := p;
      g := shown;
      owned := owned + more;
    }

    /** A byte of a payload that is still in the read buffer. */
    method InPayload(buf: Slice, ghost b: Bytes, i: nat)
      requires Reads(buf, b) && Valid(buf, b, i) && i < |b| && ps.st.MsgPayload? && ps.msgBuf.NilSlice?
      modifies this`ps, this`g
      ensures Valid(buf, b, i + 1) && Now() == Step(env, old(Now()), b[i])
    {
      BodyByte(env, ps, g, Out(), buf, b, i);
      hide Control, Tracks, Machine, Step, Denotes, Layout;
      if i - ps.start >= ps.pa.size {
        ps := ps.(st := MsgEnd);
      }
      g := g.(msg := g.msg + [b[i]]);
    }

    /** Write `bs` behind the saved payload.  The saved argument line stays as it is, and bytes
        that belong to the payload go into the capacity that is there: for them this is the
        reslice and copy of parser.go:191-194. */
    method Extend(bs: Bytes) returns (r: Slice)
      requires Stored() && ps.msgBuf.Slice?
      modifies ps.msgBuf.arr
      ensures r.Slice? && r.Valid() && r.Val() == g.msg + bs && ps.argBuf.Val() == g.line
      ensures r.arr in owned || fresh(r.arr)
      ensures ps.msgBuf.len + |bs| <= ps.pa.size ==> r.arr == ps.msgBuf.arr && r.off == ps.msgBuf.off
      ensures Layout(owned + {r.arr}, scratch, ps.argBuf, r, ps.pa.size)
    {
      r := Append(ps.msgBuf, bs);
    }

    /** Write `bs` behind the saved payload and go on in the state `st`. */
    method Lengthen(bs: Bytes, st: State)
      requires Stored() && ps.msgBuf.Slice?
      modifies this`ps, this`g, this`owned, ps.msgBuf.arr
      ensures fresh(owned - old(owned)) && Stored()
      ensures ps.msgBuf.Slice? && ps == old(ps).(msgBuf := ps.msgBuf, st := st) && g == old(g).(msg := old(g.msg) + bs)
    {
      var r := Extend(bs);
      Adopt(ps.(msgBuf := r, st := st), g.(msg := g.msg + bs), {r.arr});
    }

    /** As much of the buffer as the saved payload lacks, or one byte when it lacks nothing. */
    method Available(buf: Slice, ghost b: Bytes, i: nat) returns (bs: Bytes)
      requires Reads(buf, b) && i < |b| && ps.msgBuf.Slice?
      ensures bs != [] && i + |bs| <= |b| && bs == b[i..i + |bs|]
      ensures ps.msgBuf.len + |bs| <= ps.pa.size || |bs| == 1
    {
      var toCopy := ps.pa.size - ps.msgBuf.len;
      var avail := buf.len - i;
      if avail < toCopy {
        toCopy := avail;
      }
      var k: nat := if toCopy > 0 then toCopy else 1;
      var from := Window(buf, i, i + k);
      ShownValue(from, buf, b[i..i + k]);
      bs := from.Val();
    }

    /** Copy as much as possible behind the saved payload; `next` is the last byte copied. */
    method InSavedPayload(buf: Slice, ghost b: Bytes, i: nat) returns (next: nat)
      requires Reads(buf, b) && Valid(buf, b, i) && i < |b| && ps.st.MsgPayload? && ps.msgBuf.Slice?
      modifies this`ps, this`g, this`owned, owned
      ensures fresh(owned - old(owned))
      ensures i <= next < |b| && Valid(buf, b, next + 1)
              && (next == i || |old(g.msg)| + (next + 1 - i) <= old(g.pa.size))
      ensures Now() == Run(env, old(Now()), b[i..next + 1])
    {
      hide *;
      PayloadFacts(buf, b, i);
      OuterIs();
      ghost var p, shown, o := ps, g, Out();
      var bs := Available(buf, b, i);
      next := i + |bs| - 1;
      var len := ps.msgBuf.len + |bs|;
      Lengthen(bs, if len >= ps.pa.size then MsgEnd else MsgPayload);
      SavedPayload(env, p, shown, o, buf, b, i, |bs|, ps.msgBuf);
      StateIs(buf, b, next + 1, o, Run(env, Machine(p, shown, o), b[i..next + 1]));
    }

    lemma PayloadFacts(buf: Slice, b: Bytes, i: nat)
      requires Reads(buf, b) && Valid(buf, b, i) && ps.st.MsgPayload? && ps.msgBuf.Slice?
      ensures Stored() && Control(ps, g) && Tracks(ps, g, buf, b, i) && Now() == Machine(ps, g, Out())
      ensures ps.msgBuf.arr in owned && room !in owned && ps.msgBuf.len == |g.msg| && ps.pa.size == g.pa.size
    {
      SizeTracked(ps, g, buf, b, i);
    }

    /** A byte in MSG_END. */
    method InEnd(buf: Slice, ghost b: Bytes, i: nat) returns (v: Verdict)
      requires Reads(buf, b) && Valid(buf, b, i) && i < |b| && ps.st.MsgEnd?
      modifies this, owned
      ensures fresh(owned - old(owned))
      ensures Stepped(v, Step(env, old(Now()), b[i]), buf, b, i + 1)
    {
      hide Control, Tracks, Step, Denotes;
      var c := buf.arr[buf.off + i];
      assert c == b[i];
      v := Fine;
      if c == '\n' {
        v := EndMessage(buf, b, i);
      } else if ps.msgBuf.Slice? {
        ghost var p, shown, o := ps, g, Out();
        Lengthen([c], MsgEnd);
        SavedEndByte(env, p, shown, o, buf, b, i, ps.msgBuf);
      } else {
        BodyByte(env, ps, g, Out(), buf, b, i);
        g := g.(msg := g.msg + [c]);
      }
    }

    /** The whole message, from the read buffer or from what was saved. */
    method WholeMessage(buf: Slice, ghost b: Bytes, i: nat) returns (whole: Slice)
      requires Reads(buf, b) && Valid(buf, b, i) && i < |b| && ps.st.MsgEnd? && b[i] == '\n'
      modifies if ps.msgBuf.Slice? then {ps.msgBuf.arr} else {}
      ensures whole.Slice? && whole.Valid() && whole.Val() == g.msg + ['\n']
      ensures ps.argBuf.Slice? ==> ps.argBuf.Val() == g.line
    {
      if ps.msgBuf.Slice? {
        whole := Extend(['\n']);
      } else {
        MessageInBuffer(ps, g, buf, b, i);
        whole := Window(buf, ps.start, i + 1);
        ShownValue(whole, buf, g.msg + ['\n']);
      }
    }

    /** The arguments handed over are those of the line. */
    ghost method Argued(buf: Slice, b: Bytes, i: nat) returns (pa: Pa)
      requires Reads(buf, b) && Tracks(ps, g, buf, b, i) && IsBody(ps.st) && ps.argBuf.Valid()
      requires ps.argBuf.Slice? ==> ps.argBuf.Val() == g.line
      ensures ps.pa.subject.Valid() && ps.pa.reply.Valid() && ps.pa.szb.Valid() && (g.sidLive ==> ps.pa.sid.Valid())
      ensures pa == Read(ps.pa, g.sidLive) == g.pa
    {
      DenotedIsRead(ps.pa, g.sidLive, Home(ps.argBuf, buf), g.pa);
      pa := Read(ps.pa, g.sidLive);
    }

    /** The bytes of a sid that is not the message's own, when processMsg is called. */
    ghost function SidShown(): Stale
      requires ps.pa.sid.Valid()
      reads this, Arrays(ps.pa.sid)
    {
      if g.sidLive || ps.pa.sid.NilSlice? then NoSid else Seen(ps.pa.sid.Val())
    }

    lemma MadeIsTold(msg: Bytes)
      requires ps.pa.sid.Valid() && g.sidLive == g.pa.sid.Some?
      ensures AllTold([Message(g.pa, SidShown(), msg)], [Message(g.pa, Inherited(Now()), msg)])
    {
      assert Tells(Message(g.pa, SidShown(), msg), Message(g.pa, Inherited(Now()), msg));
    }

    /** Hand the message `msg` over. */
    method HandOver(buf: Slice, ghost b: Bytes, i: nat, ghost msg: Bytes)
      requires Reads(buf, b) && Control(ps, g) && Tracks(ps, g, buf, b, i) && i < |b| && IsBody(ps.st)
      requires Layout(owned, scratch, ps.argBuf, ps.msgBuf, ps.pa.size) && Logged()
      requires ps.argBuf.Slice? ==> ps.argBuf.Val() == g.line
      modifies this`ps, this`g, this`count, this`calls, this`told
      ensures Valid(buf, b, i + 1) && Now() == Restart(old(Now()), [Message(old(Now()).pa, Inherited(old(Now())), msg)])
    {
      ghost var pa := Argued(buf, b, i);
      ghost var op, made := Message(pa, Inherited(Now()), msg), Message(pa, SidShown(), msg);
      MadeIsTold(msg);
      hide Denotes, StaleNow, Tracks, Control, Layout, AllTold;
      Release(buf, b, i, 1, [op], [made]);
    }

    /** The newline that ends a message: check its size and hand it over. */
    method EndMessage(buf: Slice, ghost b: Bytes, i: nat) returns (v: Verdict)
      requires Reads(buf, b) && Valid(buf, b, i) && i < |b| && ps.st.MsgEnd? && b[i] == '\n'
      modifies this`ps, this`g, this`count, this`calls, this`told, owned
      ensures owned == old(owned)
      ensures Stepped(v, Step(env, old(Now()), '\n'), buf, b, i + 1)
    {
      SizeTracked(ps, g, buf, b, i);
      MessageStep(env, Now());
      assert ps.msgBuf.Slice? ==> ps.msgBuf.arr in owned && ps.msgBuf.arr != room;
      assert Layout(owned, scratch, ps.argBuf, ps.msgBuf, ps.pa.size) && Logged() && Now().log == told;
      hide Denotes, StaleNow, Step, Tracks, Control, AllTold, Inherited, Layout, Stored, Valid, Reads, Logged;
      var whole := WholeMessage(buf, b, i);
      if whole.len != ps.pa.size + LEN_CR_LF {
        return Failed(Unknown);
      }
      v := Fine;
      HandOver(buf, b, i, whole.Val());
    }

    /** Release all buffers after an operation of `n` calls, `ops`, made as `made`. */
    method Release(buf: Slice, ghost b: Bytes, i: nat, n: nat, ghost ops: seq<Op>, ghost made: seq<Op>)
      requires n == |ops|
      requires Layout(owned, scratch, ps.argBuf, ps.msgBuf, ps.pa.size) && room !in owned
      requires Logged() && AllTold(made, ops)
      requires Control(ps, g) && Tracks(ps, g, buf, b, i) && i < |b|
      modifies this`ps, this`g, this`count, this`calls, this`told
      ensures Valid(buf, b, i + 1) && Now() == Restart(old(Now()), ops)
    {
      Leave(ps, g, Out(), buf, b, i, ops);
      calls, told, count := calls + made, told + ops, count + n;
      ps := ps.(argBuf := NilSlice, msgBuf := NilSlice, drop := 0, start := i + 1, st := In(OpStart));
      g := g.(tok := [], msg := [], pa := NO_PA);
    }

    /** A byte of a verb, a blank, or a byte after PING, PONG or +OK. */
    method InVerb(buf: Slice, ghost b: Bytes, i: nat) returns (v: Verdict)
      requires Reads(buf, b) && Valid(buf, b, i) && i < |b| && (ps.st.In? || ps.st.Blanks? || ps.st.Tail?)
      modifies this`ps, this`g, this`count, this`calls, this`told
      ensures Stepped(v, Step(env, old(Now()), b[i]), buf, b, i + 1)
    {
      var c := buf.arr[buf.off + i];
      assert c == b[i];
      v := Fine;
      match ps.st
      case In(verb) =>
        if verb.OpStart? && auth && c != 'C' && c != 'c' {
          return Failed(Authorization);
        }
        var next := Keyword(env.typ, verb, c);
        if next.None? {
          return Failed(Unknown);
        }
        KeywordIsPlain(env.typ, verb, c);
        Become(buf, b, i, next.value);
      case Blanks(of) =>
        Become(buf, b, i, if IsBlank(c) then ps.st else Arg(of));
      case Tail(what) =>
        if c == '\n' {
          Release(buf, b, i, |TailOps(what)|, TailOps(what), TailOps(what));
        } else {
          Become(buf, b, i, ps.st);
        }
    }

    method Become(buf: Slice, ghost b: Bytes, i: nat, st: State)
      requires Reads(buf, b) && Valid(buf, b, i) && i < |b| && !ps.st.Arg? && !IsBody(ps.st) && !IsBody(st)
      modifies this`ps, this`g
      ensures Valid(buf, b, i + 1)
      ensures Now() == old(Now()).(st := st, tok := if st.Arg? then [b[i]] else [])
    {
      Letters(ps, g, Out(), buf, b, i, st);
      g := if st.Arg? then g.(tok := [b[i]]) else g;
      ps := ps.(st := st, start := if st.Arg? then i else ps.start);
    }

    /** After PUB's jump from `i` the bytes jumped over count as passed. */
    ghost method Land(buf: Slice, b: Bytes, i: nat, done: nat)
      requires i <= done <= |b| && Valid(buf, b, i)
      requires ps.st.MsgPayload? && ps.msgBuf.NilSlice? && |g.msg| + (done - i) <= ps.pa.size
      modifies this`g
      ensures Valid(buf, b, done) && Now() == Run(env, old(Now()), b[i..done])
    {
      Jump(env, ps, g, Out(), buf, b, i, done - i);
      g := g.(msg := g.msg + b[i..done]);
    }

    method Landed(buf: Slice, ghost b: Bytes, i: nat) returns (ghost done: nat)
      requires Valid(buf, b, i + 1) && i < |b| && i + ps.pa.size < TWO63 && Jumped(ps, i + ps.pa.size - 1, i)
      modifies this`g
      ensures i < done <= |b| && Valid(buf, b, done) && Placed(ps, i + ps.pa.size, done, |b|)
      ensures Now() == Run(env, old(Now()), b[i + 1..done])
      ensures SomeOverrun(env, old(Now()), b, i + 1) <==> SomeOverrun(env, Now(), b, done)
    {
      SizeTracked(ps, g, buf, b, i + 1);
      ghost var s, p := Now(), ps;
      ghost var start, k := i + 1, JumpLength(i, p.pa.size, |b|);
      assert |g.msg| == 0 && s.msg == g.msg && s.pa.size == p.pa.size && s.st == p.st && s.err.None?;
      hide Control, Tracks, Machine, Stored, Run, SomeOverrun, StaleNow, JumpLength, Placed, Valid, Now, Jumped;
      done := start + k;
      JumpIsPlaced(p, i, |b|);
      PayloadOverruns(env, s, b, start, done);
      Land(buf, b, start, done);
    }

    /** What one pass through the loop does: it takes the state `s` from `pos` to `done`. */
    ghost predicate Passed(v: Verdict, s: PS, buf: Slice, b: Bytes, pos: nat, next: int, done: nat)
      reads this, owned, room
    {
      match v
      case Fine =>
        && pos <= done <= |b| && Valid(buf, b, done) && Placed(ps, next, done, |b|)
           && Now() == Run(env, s, b[pos..done])
        && (SomeOverrun(env, s, b, pos) <==> SomeOverrun(env, Now(), b, done))
      case Failed(e) => pos < |b| && Step(env, s, b[pos]).err == Some(e) && Step(env, s, b[pos]).log == told && Logged()
      case Panic => pos < |b| && Overruns(env, s, b[pos], pos)
    }

    method PassArg(buf: Slice, ghost b: Bytes, i: nat) returns (next: int, ghost done: nat, v: Verdict)
      requires Reads(buf, b) && Valid(buf, b, i) && i < |b| && ps.st.Arg?
      modifies this, owned
      ensures fresh(owned - old(owned))
      ensures Passed(v, old(Now()), buf, b, i, next, done) && (v.Fine? ==> i < done)
    {
      hide Control, Tracks, Step, Run, Stored;
      OneStep(env, Now(), b, i);
      ghost var s := Now();
      var pub := ps.st == Arg(PubLine) && buf.arr[buf.off + i] == '\n';
      assert buf.arr[buf.off + i] == b[i];
      next, v := InArg(buf, b, i);
      done := i + 1;
      next := Wrap64(next + 1);
      if v.Fine? && pub {
        NextIndex(ps.pa.size, i);
        SizeTracked(ps, g, buf, b, i + 1);
      }
      if v.Fine? && next < 0 {
        // the loop goes on with buf[next]
        return next, done, Panic;
      }
      if v.Fine? {
        StepOverruns(env, s, b, i);
        if pub {
          done := Landed(buf, b, i);
          StepOn(env, s, b, i, done);
        }
      }
    }

    method PassPayload(buf: Slice, ghost b: Bytes, i: nat) returns (next: int)
      requires Reads(buf, b) && Valid(buf, b, i) && i < |b| && ps.st.MsgPayload?
      modifies this, owned
      ensures fresh(owned - old(owned))
      ensures i < next && Passed(Fine, old(Now()), buf, b, i, next, next)
    {
      hide Denotes, Run, Step, Layout, Tracks;
      OneStep(env, Now(), b, i);
      ghost var s := Now();
      if ps.msgBuf.Slice? {
        next := InSavedPayload(buf, b, i);
      } else {
        InPayload(buf, b, i);
        next := i;
      }
      PayloadOverruns(env, s, b, i, next + 1);
      next := next + 1;
    }

    /** One pass through the loop of parse: from index `i` with `pos` bytes passed, to index
        `next` with `done` bytes passed. */
    method Pass(buf: Slice, ghost b: Bytes, i: nat, ghost pos: nat) returns (next: int, ghost done: nat, v: Verdict)
      requires Reads(buf, b) && Valid(buf, b, pos) && i < |b| && Placed(ps, i, pos, |b|)
      modifies this, owned
      ensures fresh(owned - old(owned))
      ensures Passed(v, old(Now()), buf, b, pos, next, done)
      ensures v.Fine? ==> pos < done || (pos == done && i < next)
    {
      if ps.st.MsgPayload? && ps.msgBuf.NilSlice? && i < ps.start {
        // the newline of a PUB line without payload again: i - as >= size is false
        return i + 1, pos, Fine;
      }
      hide Denotes, Run, Step, Stored;
      if ps.st.Arg? {
        next, done, v := PassArg(buf, b, i);
      } else if ps.st.MsgPayload? {
        next := PassPayload(buf, b, i);
        done, v := next, Fine;
      } else {
        OneStep(env, Now(), b, pos);
        StepOverruns(env, Now(), b, pos);
        if ps.st.MsgEnd? {
          v := InEnd(buf, b, i);
        } else {
          v := InVerb(buf, b, i);
        }
        done, next := i + 1, i + 1;
      }
    }

    // ----- the end of the buffer (parser.go:614-640) -----

    /** An argument line moves to the scratch array. */
    method SaveArg(buf: Slice, ghost b: Bytes)
      requires Reads(buf, b) && Valid(buf, b, |b|) && IsKeptArg(ps.st) && ps.argBuf.NilSlice?
      modifies this`ps, this`g, this`owned, scratch
      ensures fresh(owned - old(owned))
      ensures Idle() && Now() == Cut(old(Now()))
    {
      var from := Argument(buf, b, buf.len);
      ghost var arg := from.Val();
      var r := Append(Slice(scratch, 0, 0), from.Val());
      SavedArg(ps, g, Out(), arg, r);
      assert r.Val() == arg;
      Adopt(ps.(argBuf := r), g.(line := arg, tok := arg), {r.arr});
    }

    /** Append to a slice that starts as scratch[:0]. */
    method Collect(a: Slice, bs: Bytes) returns (r: Slice)
      requires Collecting(a)
      modifies a.arr
      ensures Collecting(r) && r.Val() == old(a.Val()) + bs && (r.arr == a.arr || fresh(r.arr))
    {
      r := Append(a, bs);
    }

    ghost predicate Collecting(a: Slice) {
      && scratch.Length == MAX_CONTROL_LINE_SIZE
      && a.Slice? && a.Valid() && a.off == 0 && (a.len <= MAX_CONTROL_LINE_SIZE ==> a.arr == scratch)
    }

    /** The bytes of clonePubArg: subject, reply, sid and size, one after the other.  A stale
        sid may itself lie in the scratch array; it is copied as it is found. */
    method CloneBytes(buf: Slice, ghost b: Bytes) returns (a: Slice, ghost sid: Bytes)
      requires Reads(buf, b) && scratch.Length == MAX_CONTROL_LINE_SIZE && buf.arr != scratch
      requires Denotes(ps.pa, g.sidLive, buf, b, g.pa) && ps.pa.sid.Valid()
      modifies scratch
      ensures Collecting(a) && (a.arr == scratch || fresh(a.arr))
      ensures |sid| == ps.pa.sid.Len() && (g.sidLive ==> sid == g.pa.sid.value)
      ensures a.Val() == g.pa.subject + (if g.pa.reply.Some? then g.pa.reply.value else []) + sid + g.pa.szb
    {
      a := CloneHead(buf, b);
      ghost var head := a.Val();
      DenotedIsRead(ps.pa, g.sidLive, buf, g.pa);
      sid := ps.pa.sid.Val();
      a := Collect(a, ps.pa.sid.Val());
      assert a.Val() == head + sid;
      DenotedIsRead(ps.pa, g.sidLive, buf, g.pa);
      a := Collect(a, ps.pa.szb.Val());
    }

    method CloneHead(buf: Slice, ghost b: Bytes) returns (a: Slice)
      requires Reads(buf, b) && scratch.Length == MAX_CONTROL_LINE_SIZE && buf.arr != scratch
      requires Denotes(ps.pa, g.sidLive, buf, b, g.pa)
      modifies scratch
      ensures Collecting(a) && (a.arr == scratch || fresh(a.arr))
      ensures a.Val() == g.pa.subject + (if g.pa.reply.Some? then g.pa.reply.value else [])
    {
      DenotedIsRead(ps.pa, g.sidLive, buf, g.pa);
      a := Collect(Slice(scratch, 0, 0), ps.pa.subject.Val());
      assert a.Val() == g.pa.subject;
      DenotedIsRead(ps.pa, g.sidLive, buf, g.pa);
      a := Collect(a, ps.pa.reply.Val());
    }

    /** clonePubArg: the arguments of a payload that is not all there move to the scratch array. */
    method ClonePubArg(buf: Slice, ghost b: Bytes) returns (a: Slice, pa: ArgSlices, ghost line: Bytes)
      requires Reads(buf, b) && Valid(buf, b, |b|) && IsBody(ps.st) && ps.argBuf.NilSlice?
      modifies scratch
      ensures Collecting(a) && (a.arr == scratch || fresh(a.arr)) && a.Val() == line && a.len == SavedLength()
      ensures pa.size == ps.pa.size && pa.sid.Valid() && Denotes(pa, g.sidLive, a, line, g.pa)
      ensures (pa.sid.Slice? <==> ps.pa.sid.Slice?) && (pa.sid.Slice? ==> pa.sid.arr == a.arr)
    {
      ghost var sid;
      a, sid := CloneBytes(buf, b);
      line := a.Val();
      ClonedDenotes(ps.pa, g.sidLive, buf, b, g.pa, a, line, sid);
      pa := Cloned(ps.pa, a);
    }

    /** The payload so far moves behind the saved argument line `a`, or into an array of its
        own when the scratch array has no room for all of it. */
    method SavePayload(buf: Slice, ghost b: Bytes, a: Slice) returns (m: Slice, ok: bool)
      requires Reads(buf, b) && Tracks(ps, g, buf, b, |b|) && IsBody(ps.st) && ps.msgBuf.NilSlice?
               && 0 <= ps.pa.size < TWO63
      requires Collecting(a) && a.arr != buf.arr
      modifies scratch
      ensures a.Val() == old(a.Val())
      ensures ok <==> !NoRoom(env, Now(), a.len)
      ensures ok ==> m.Slice? && m.Valid() && m.Val() == g.msg && (m.arr == scratch || fresh(m.arr))
      ensures ok ==> ps.pa.size <= m.arr.Length - m.off && (m.arr == a.arr ==> a.len <= m.off)
    {
      SizeTracked(ps, g, buf, b, |b|);
      NoRoomIs(env, ps, g, Out(), a.len);
      hide Denotes, NoRoom, Machine, Tracks;
      var rest := Window(buf, ps.start, buf.len);
      ShownValue(rest, buf, g.msg);
      ok := true;
      if ps.pa.size > MAX_CONTROL_LINE_SIZE - a.len {
        var room := Make(env, rest.len, ps.pa.size);
        if room.None? {
          return NilSlice, false;
        }
        m := Append(Slice(room.value, 0, 0), rest.Val());
      } else {
        m := Append(Slice(scratch, a.len, 0), rest.Val());
      }
    }

    /** Where the arguments and the payload of a message that is not all there are saved. */
    method SavedParts(buf: Slice, ghost b: Bytes)
      returns (pa: ArgSlices, a: Slice, m: Slice, ghost line: Bytes, ok: bool)
      requires Reads(buf, b) && Valid(buf, b, |b|) && IsBody(ps.st) && ps.msgBuf.NilSlice?
      modifies scratch
      ensures pa.size == ps.pa.size && pa.sid.Valid() && Denotes(pa, g.sidLive, a, line, g.pa)
      ensures if ps.argBuf.Slice? then pa.sid == ps.pa.sid
              else (pa.sid.Slice? <==> ps.pa.sid.Slice?) && (pa.sid.Slice? ==> pa.sid.arr == a.arr && a.arr != room)
      ensures a.len == SavedLength() && (ok <==> !NoRoom(env, Now(), SavedLength()))
      ensures ok ==> m.Slice? && fresh({a.arr, m.arr} - owned)
      ensures ok ==> Layout(owned + {a.arr, m.arr}, scratch, a, m, ps.pa.size) && a.Val() == line && m.Val() == g.msg
    {
      a, pa, line := ps.argBuf, ps.pa, g.line;
      if ps.argBuf.NilSlice? {
        a, pa, line := ClonePubArg(buf, b);
      }
      m, ok := SavePayload(buf, b, a);
    }

    /** A message that is not all there. */
    method SaveBody(buf: Slice, ghost b: Bytes) returns (v: Verdict)
      requires Reads(buf, b) && Valid(buf, b, |b|) && IsBody(ps.st) && ps.msgBuf.NilSlice?
      modifies this`ps, this`g, this`owned, scratch
      ensures fresh(owned - old(owned))
      ensures v.Fine? || v.Panic?
      ensures v.Panic? <==> old(NoRoom(env, Now(), SavedLength()))
      ensures v.Panic? ==> ps == old(ps)
      ensures v.Fine? ==> Idle() && Now() == Cut(old(Now())) && SavedLength() == old(SavedLength())
    {
      var pa, a, m, ok;
      ghost var line;
      pa, a, m, line, ok := SavedParts(buf, b);
      if !ok {
        return Panic;
      }
      SavedBody(ps, g, Out(), pa, a, line, m);
      Adopt(ps.(pa := pa, argBuf := a, msgBuf := m), g.(line := line), {a.arr, m.arr});
      v := Fine;
    }

    /** The loop of parse. */
    method Scan(buf: Slice, ghost b: Bytes) returns (v: Verdict)
      requires Reads(buf, b) && Valid(buf, b, 0)
      modifies this, owned
      ensures fresh(owned - old(owned))
      ensures v.Fine? ==> Valid(buf, b, |b|) && Now() == Run(env, old(Now()), b)
      ensures v.Panic? <==> SomeOverrun(env, old(Now()), b, 0)
      ensures v.Failed? ==>
                Run(env, old(Now()), b).err == Some(v.error) && Run(env, old(Now()), b).log == told && Logged()
    {
      var i := 0;
      ghost var pos := 0;
      ghost var s0 := Now();
      assert Run(env, s0, b[..0]) == s0;
      hide Denotes, Run, Step, Control, Layout, Overruns;
      while i < buf.len
        invariant Reads(buf, b) && Valid(buf, b, pos) && Placed(ps, i, pos, |b|)
        invariant fresh(owned - old(owned))
        invariant Now() == Run(env, s0, b[..pos])
        invariant SomeOverrun(env, s0, b, 0) <==> SomeOverrun(env, Now(), b, pos)
        decreases |b| - pos, |b| - i
      {
        ghost var from, s := pos, Now();
        i, pos, v := Pass(buf, b, i, pos);
        if v.Failed? {
          RunFails(env, s0, b, from);
          FailsOverruns(env, s, b, from);
          return;
        }
        if v.Panic? {
          assert SomeOverrun(env, s, b, from);
          return;
        }
        RunOn(env, s0, b, 0, from, pos);
      }
      assert b[..pos] == b;
      NoneLeft(env, Now(), b);
      v := Fine;
    }

    /** parse: whatever state earlier buffers left the parser in, it does to the bytes of `buf`
        what the machine does, and nothing it keeps lies in `buf` afterwards.  It panics exactly
        if the jump of a PUB line overruns the integers, or if the array a payload is to be saved
        in cannot be made.  The state it may not be called in is that of an INFO line cut in two,
        whose beginning it does not keep. */
    method Parse(buf: Slice, ghost b: Bytes) returns (v: Verdict)
      requires Idle() && Reads(buf, b) && ps.st != Arg(InfoLine)
      modifies this, owned
      ensures fresh(owned - old(owned))
      ensures v.Fine? ==> Idle() && Now() == Cut(Run(env, old(Now()), b))
      ensures v.Failed? ==>
                Run(env, old(Now()), b).err == Some(v.error) && Run(env, old(Now()), b).log == told && Logged()
      ensures v.Panic? <==> SomeOverrun(env, old(Now()), b, 0) || NoRoom(env, Run(env, old(Now()), b), SavedLength())
    {
      hide Denotes, Run, SomeOverrun, Control, Step;
      v := Scan(buf, b);
      if v.Fine? {
        if IsKeptArg(ps.st) && ps.argBuf.NilSlice? {
          SaveArg(buf, b);
        } else if IsBody(ps.st) && ps.msgBuf.NilSlice? {
          v := SaveBody(buf, b);
        }
      }
    }
  }
}
