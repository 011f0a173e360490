/** When the read buffers a stream arrives in cannot be noticed.

    `Norm` forgets where a state stores its pending bytes, but not which bytes these are.  Two
    states that store the same bytes in different places stay alike over a byte exactly when the
    byte is `Clean`: a `\r` inside an argument is followed by `\n`, the byte after a non-empty
    payload is not `\n`, no message is taken for the sid of an earlier MSG line, and the
    connection has not been closed.  What is alike makes the same calls.  What is not may: a `\r`
    more among the separators of a SUB line is stored by one parser and not by the other, and
    both make the same call.  The last section has cases where the difference does reach a call;
    `Hearing` has the exact condition. */
module CutInvariance {
  import opened Base
  import opened Args
  import opened Protocol
  import opened Heirs

  /** The stored forms the parser can be in. */
  predicate Sound(s: PS) {
    s.err.Some? || (
      && s.drop <= 1
      && (s.st.Arg? ==> s.saved || s.drop <= |s.tok|)
      && (!s.st.Arg? ==> s.tok == [] && s.drop == 0)
      && (s.saved ==> IsKeptArg(s.st) || IsBody(s.st))
      && (!IsBody(s.st) ==> !s.msaved && s.msg == [] && s.pa == NO_PA)
      && (IsBody(s.st) ==> 0 <= s.pa.size)
      && (s.msaved ==> s.saved)
      && (s.st.MsgPayload? ==> |s.msg| <= s.pa.size)
      && (s.st.MsgEnd? ==> |s.msg| >= (if s.msaved then s.pa.size else s.pa.size + 1) && |s.msg| > 0))
  }

  /** The state as if nothing had ever been saved: the argument without a pending `\r`, MSG_END
      from the byte after the payload on, and of a sid in the record only that it is there.  A
      failed connection has only its log. */
  function Norm(s: PS): PS {
    if s.err.Some? then Init(false).(log := s.log, err := s.err)
    else s.(saved := false, msaved := false,
            tok := if s.st == Arg(InfoLine) then s.tok else ArgOf(s),
            st := if IsBody(s.st) then if |s.msg| <= s.pa.size then MsgPayload else MsgEnd else s.st,
            stale := if s.stale.NoSid? then NoSid else Hidden)
  }

  /** The same, with the calls counted and not told. */
  function Blind(s: PS): PS { Norm(s).(log := seq(|s.log|, _ => Ping)) }

  /** Whether the next byte keeps all stored forms of the normal state `n` alike, but for the sid
      that a message inherits. */
  predicate Even(n: PS, b: char) {
    && (n.err.None? && IsKeptArg(n.st) && n.drop == 1 ==> b == '\n')
    && (n.err.None? && n.st.MsgPayload? && 0 < |n.msg| == n.pa.size ==> b != '\n')
  }

  /** And the calls, wherever the reads end. */
  predicate Clean(n: PS, b: char) { Even(n, b) && !HandsOver(n, b) && (n.err.None? ==> !n.closed) }

  lemma StepKeepsSound(env: Env, s: PS, b: char)
    requires Sound(s)
    ensures Sound(Step(env, s, b))
  {
    if s.err.None? {
      if s.st.Arg? {
        StepArgKeepsSound(env, s, b);
      } else if s.st.In? {
        KeywordIsPlain(env.typ, s.st.verb, b);
      }
    }
  }

  lemma StepArgKeepsSound(env: Env, s: PS, b: char)
    requires Sound(s) && s.err.None? && s.st.Arg?
    ensures Sound(StepArg(env, s.st.of, s, b))
  {
    if b == '\n' {
      EndArgKeepsSound(env, s, OutcomeOf(env, s.st.of, ArgOf(s)));
    }
  }

  lemma EndArgKeepsSound(env: Env, s: PS, o: Outcome)
    requires Sound(s) && s.err.None? && s.st.Arg?
    requires o.Body? ==> 0 <= o.pa.size < TWO63
    ensures Sound(EndArg(env, s, o))
  {
  }

  lemma CutKeepsSound(s: PS)
    requires Sound(s)
    ensures Sound(Cut(s))
  {
  }

  /** A cut leaves the normal state as it was. */
  lemma CutIsInvisible(s: PS)
    requires Sound(s)
    ensures Norm(Cut(s)) == Norm(s)
  {
  }

  /** Over an even byte states that are alike stay alike, but for what the calls are told. */
  lemma StepRespectsBlind(env: Env, s: PS, t: PS, b: char)
    requires Sound(s) && Sound(t) && Blind(s) == Blind(t) && Even(Norm(s), b)
    ensures Blind(Step(env, s, b)) == Blind(Step(env, t, b))
  {
    BlindFields(s, t);
    if s.err.None? {
      if s.st.Arg? {
        ArgRespectsBlind(env, s, t, b);
      } else if IsBody(s.st) {
        BodyRespectsBlind(env, s, t, b);
      } else {
        LetterRespectsBlind(env, s, t, b);
      }
    }
  }

  /** What states that are alike have in common. */
  lemma BlindFields(s: PS, t: PS)
    requires Blind(s) == Blind(t)
    ensures s.err == t.err && |s.log| == |t.log|
    ensures s.err.None? ==> Norm(s).(log := []) == Norm(t).(log := [])
    ensures Norm(s).(log := t.log) == Norm(t)
  {
    assert |Blind(s).log| == |s.log| && |Blind(t).log| == |t.log|;
    assert Norm(s).(log := []) == Blind(s).(log := []) && Norm(t).(log := []) == Blind(t).(log := []);
  }

  lemma AlikeWhen(s: PS, t: PS)
    requires |s.log| == |t.log| && Norm(s).(log := []) == Norm(t).(log := [])
    ensures Blind(s) == Blind(t)
  {
    assert Blind(s) == Norm(s).(log := []).(log := Blind(s).log);
    assert Blind(t) == Norm(t).(log := []).(log := Blind(t).log);
    assert Blind(s).log == Blind(t).log;
  }

  lemma LetterRespectsBlind(env: Env, s: PS, t: PS, b: char)
    requires Sound(s) && Sound(t) && Blind(s) == Blind(t) && s.err.None? && !s.st.Arg? && !IsBody(s.st)
    ensures Blind(Step(env, s, b)) == Blind(Step(env, t, b))
  {
    BlindFields(s, t);
    assert t == s.(log := t.log, stale := t.stale);
    hide Keyword, StepVerb;
    if s.st.In? {
      KeywordIsPlain(env.typ, s.st.verb, b);
      VerbRespectsBlind(s, t, Keyword(env.typ, s.st.verb, b));
    }
  }

  lemma VerbRespectsBlind(s: PS, t: PS, next: Option<State>)
    requires Sound(s) && s.err.None? && s.st.In? && t == s.(log := t.log, stale := t.stale) && Blind(s) == Blind(t)
    requires next.Some? ==> !next.value.Arg? && !IsBody(next.value)
    ensures Blind(StepVerb(s, next)) == Blind(StepVerb(t, next))
  {
  }

  lemma ArgRespectsBlind(env: Env, s: PS, t: PS, b: char)
    requires Sound(s) && Sound(t) && Blind(s) == Blind(t) && Even(Norm(s), b)
    requires s.err.None? && s.st.Arg?
    ensures Blind(Step(env, s, b)) == Blind(Step(env, t, b))
  {
    BlindFields(s, t);
    if b == '\n' {
      assert ArgOf(s) == ArgOf(t);
      EndArgRespectsBlind(env, s, t, OutcomeOf(env, s.st.of, ArgOf(s)));
    } else {
      NormAfterArgByte(env, s, b);
      NormAfterArgByte(env, t, b);
    }
  }

  /** What a byte of an argument does to the normal state. */
  lemma NormAfterArgByte(env: Env, s: PS, b: char)
    requires Sound(s) && Even(Norm(s), b) && s.err.None? && s.st.Arg? && b != '\n'
    ensures var n := Norm(s);
            Norm(Step(env, s, b)) ==
            if b != '\r' then n.(tok := n.tok + [b])
            else if n.st == Arg(InfoLine) then n.(drop := 1, tok := n.tok + [b])
            else n.(drop := 1)
  {
    assert (s.tok + [b])[..|s.tok|] == s.tok;
    if s.drop == 0 {
      assert s.tok[..|s.tok|] == s.tok && (s.tok + [b])[..|s.tok + [b]|] == s.tok + [b];
    }
  }

  lemma EndArgRespectsBlind(env: Env, s: PS, t: PS, o: Outcome)
    requires s.err.None? && t.err.None? && Blind(s) == Blind(t) && s.st.Arg?
    requires o.Body? ==> 0 <= o.pa.size < TWO63
    ensures Blind(EndArg(env, s, o)) == Blind(EndArg(env, t, o))
  {
    BlindFields(s, t);
    hide Blind;
    AlikeWhen(EndArg(env, s, o), EndArg(env, t, o));
  }

  lemma BodyRespectsBlind(env: Env, s: PS, t: PS, b: char)
    requires Sound(s) && Sound(t) && Blind(s) == Blind(t) && Even(Norm(s), b)
    requires s.err.None? && IsBody(s.st)
    ensures Blind(Step(env, s, b)) == Blind(Step(env, t, b))
  {
    BlindFields(s, t);
    assert s.msg == t.msg && s.pa == t.pa && (s.st.MsgEnd? || |s.msg| <= s.pa.size);
    if |s.msg| <= s.pa.size {
      NormAfterPayloadByte(env, s, b);
      NormAfterPayloadByte(env, t, b);
      assert |Step(env, s, b).log| == |s.log| && |Step(env, t, b).log| == |t.log|;
      hide *;
      AlikeWhen(Step(env, s, b), Step(env, t, b));
    } else {
      EndRespectsBlind(s, t, b);
    }
  }

  lemma MessagesAlike(s: PS, t: PS, o: Op, q: Op)
    requires s.err.None? && s.st.MsgEnd? && |s.log| == |t.log| && (s.stale.NoSid? <==> t.stale.NoSid?)
    requires t == s.(saved := t.saved, msaved := t.msaved, stale := t.stale, log := t.log)
    ensures Blind(Restart(s, [o])) == Blind(Restart(t, [q]))
  {
    AlikeWhen(Restart(s, [o]), Restart(t, [q]));
  }

  lemma EndFields(s: PS, t: PS)
    requires Sound(s) && Sound(t) && Blind(s) == Blind(t)
    requires s.err.None? && IsBody(s.st) && |s.msg| > s.pa.size
    ensures s.st == MsgEnd && t == s.(saved := t.saved, msaved := t.msaved, stale := t.stale, log := t.log)
    ensures s.tok == [] && s.drop == 0 && |s.log| == |t.log| && (s.stale.NoSid? <==> t.stale.NoSid?)
  {
    BlindFields(s, t);
  }

  lemma EndRespectsBlind(s: PS, t: PS, b: char)
    requires Sound(s) && Sound(t) && Blind(s) == Blind(t)
    requires s.err.None? && IsBody(s.st) && |s.msg| > s.pa.size
    ensures Blind(StepEnd(s, b)) == Blind(StepEnd(t, b))
  {
    EndFields(s, t);
    hide Blind, Sound;
    if b == '\n' && |s.msg| + 1 == s.pa.size + 2 {
      var o, q := Message(s.pa, Inherited(s), s.msg + [b]), Message(t.pa, Inherited(t), t.msg + [b]);
      assert StepEnd(s, b) == Restart(s, [o]) && StepEnd(t, b) == Restart(t, [q]);
      hide *;
      MessagesAlike(s, t, o, q);
    } else {
      hide *;
      StrayAlike(s, t, b);
    }
  }

  lemma StrayAlike(s: PS, t: PS, b: char)
    requires s.err.None? && s.st.MsgEnd? && s.tok == [] && s.drop == 0 && |s.log| == |t.log|
    requires t == s.(saved := t.saved, msaved := t.msaved, stale := t.stale, log := t.log)
    requires (s.stale.NoSid? <==> t.stale.NoSid?) && !(b == '\n' && |s.msg| + 1 == s.pa.size + 2)
    ensures Blind(StepEnd(s, b)) == Blind(StepEnd(t, b))
  {
    hide Blind;
    if b == '\n' {
      assert StepEnd(s, b) == Fail(s, Unknown) && StepEnd(t, b) == Fail(t, Unknown);
      hide StepEnd;
      AlikeWhen(Fail(s, Unknown), Fail(t, Unknown));
    } else {
      var u, v := s.(msg := s.msg + [b]), t.(msg := t.msg + [b]);
      assert StepEnd(s, b) == u && StepEnd(t, b) == v && ArgOf(u) == [] && ArgOf(v) == [];
      hide StepEnd, ArgOf;
      AlikeWhen(u, v);
    }
  }

  /** Wherever the payload is stored, one more byte of it or of its CRLF is just collected. */
  lemma NormAfterPayloadByte(env: Env, s: PS, b: char)
    requires Sound(s) && s.err.None? && IsBody(s.st) && |s.msg| <= s.pa.size && Even(Norm(s), b)
    ensures Norm(Step(env, s, b)) ==
            Norm(s).(msg := s.msg + [b], st := if |s.msg| < s.pa.size then MsgPayload else MsgEnd)
    ensures |Step(env, s, b).log| == |s.log|
  {
    if s.st.MsgPayload? {
      assert Step(env, s, b) == StepPayload(s, b);
    } else {
      assert Step(env, s, b) == StepEnd(s, b);
    }
  }

  /** Over a clean byte states that are alike make the same call, if any. */
  lemma SaysTheSame(env: Env, s: PS, t: PS, b: char)
    requires Sound(s) && Sound(t) && Norm(s) == Norm(t) && Clean(Norm(s), b)
    ensures Step(env, s, b).log == Step(env, t, b).log
  {
    hide Keyword;
    if s.err.None? {
      if s.st.Arg? {
        assert b == '\n' ==> ArgOf(s) == ArgOf(t);
        hide OutcomeOf;
      } else if IsBody(s.st) {
        assert s.msg == t.msg && s.pa == t.pa && (s.stale.NoSid? <==> t.stale.NoSid?);
      }
    }
  }

  lemma StepRespectsNorm(env: Env, s: PS, t: PS, b: char)
    requires Sound(s) && Sound(t) && Norm(s) == Norm(t) && Clean(Norm(s), b)
    ensures Norm(Step(env, s, b)) == Norm(Step(env, t, b))
  {
    assert s.log == t.log && Blind(s) == Blind(t);
    StepRespectsBlind(env, s, t, b);
    SaysTheSame(env, s, t, b);
    BlindFields(Step(env, s, b), Step(env, t, b));
  }

  // ----- streams -----

  /** A stream all of whose bytes are clean where they come. */
  predicate CleanStream(env: Env, s: PS, bytes: Bytes)
    decreases |bytes|
  {
    bytes == [] || (Clean(Norm(s), bytes[0]) && CleanStream(env, Step(env, s, bytes[0]), bytes[1..]))
  }

  predicate EvenStream(env: Env, s: PS, bytes: Bytes)
    decreases |bytes|
  {
    bytes == [] || (Even(Norm(s), bytes[0]) && EvenStream(env, Step(env, s, bytes[0]), bytes[1..]))
  }

  lemma {:induction false} RunRespectsNorm(env: Env, s: PS, t: PS, bytes: Bytes)
    requires Sound(s) && Sound(t) && Norm(s) == Norm(t) && CleanStream(env, s, bytes)
    ensures Sound(Run(env, s, bytes)) && Sound(Run(env, t, bytes))
    ensures Norm(Run(env, s, bytes)) == Norm(Run(env, t, bytes))
    decreases |bytes|
  {
    if bytes != [] {
      StepRespectsNorm(env, s, t, bytes[0]);
      StepKeepsSound(env, s, bytes[0]);
      StepKeepsSound(env, t, bytes[0]);
      RunRespectsNorm(env, Step(env, s, bytes[0]), Step(env, t, bytes[0]), bytes[1..]);
    }
  }

  lemma {:induction false} RunRespectsBlind(env: Env, s: PS, t: PS, bytes: Bytes)
    requires Sound(s) && Sound(t) && Blind(s) == Blind(t) && EvenStream(env, s, bytes)
    ensures Sound(Run(env, s, bytes)) && Sound(Run(env, t, bytes))
    ensures Blind(Run(env, s, bytes)) == Blind(Run(env, t, bytes))
    decreases |bytes|
  {
    if bytes != [] {
      StepRespectsBlind(env, s, t, bytes[0]);
      StepKeepsSound(env, s, bytes[0]);
      StepKeepsSound(env, t, bytes[0]);
      RunRespectsBlind(env, Step(env, s, bytes[0]), Step(env, t, bytes[0]), bytes[1..]);
    }
  }

  lemma {:induction false} CleanStreamRespectsNorm(env: Env, s: PS, t: PS, bytes: Bytes)
    requires Sound(s) && Sound(t) && Norm(s) == Norm(t) && CleanStream(env, s, bytes)
    ensures CleanStream(env, t, bytes)
    decreases |bytes|
  {
    if bytes != [] {
      StepRespectsNorm(env, s, t, bytes[0]);
      StepKeepsSound(env, s, bytes[0]);
      StepKeepsSound(env, t, bytes[0]);
      CleanStreamRespectsNorm(env, Step(env, s, bytes[0]), Step(env, t, bytes[0]), bytes[1..]);
    }
  }

  lemma {:induction false} EvenStreamRespectsBlind(env: Env, s: PS, t: PS, bytes: Bytes)
    requires Sound(s) && Sound(t) && Blind(s) == Blind(t) && EvenStream(env, s, bytes)
    ensures EvenStream(env, t, bytes)
    decreases |bytes|
  {
    if bytes != [] {
      BlindFields(s, t);
      StepRespectsBlind(env, s, t, bytes[0]);
      StepKeepsSound(env, s, bytes[0]);
      StepKeepsSound(env, t, bytes[0]);
      EvenStreamRespectsBlind(env, Step(env, s, bytes[0]), Step(env, t, bytes[0]), bytes[1..]);
    }
  }

  lemma {:induction false} CleanStreamSplit(env: Env, s: PS, a: Bytes, b: Bytes)
    requires CleanStream(env, s, a + b)
    ensures CleanStream(env, s, a) && CleanStream(env, Run(env, s, a), b)
    decreases |a|
  {
    if a == [] {
      assert a + b == b;
    } else {
      assert (a + b)[1..] == a[1..] + b;
      CleanStreamSplit(env, Step(env, s, a[0]), a[1..], b);
    }
  }

  lemma {:induction false} EvenStreamSplit(env: Env, s: PS, a: Bytes, b: Bytes)
    requires EvenStream(env, s, a + b)
    ensures EvenStream(env, s, a) && EvenStream(env, Run(env, s, a), b)
    decreases |a|
  {
    if a == [] {
      assert a + b == b;
    } else {
      assert (a + b)[1..] == a[1..] + b;
      EvenStreamSplit(env, Step(env, s, a[0]), a[1..], b);
    }
  }

  /** What a read leaves to see of a sid in the record changes nothing else. */
  lemma RereadIsAlike(s: PS, x: Bytes)
    ensures Norm(Reread(s, x)) == Norm(s) && (Sound(s) ==> Sound(Reread(s, x)))
  {
  }

  lemma OverIsOver(env: Env, s: PS, bytes: Bytes)
    requires Over(s) && CleanStream(env, s, bytes)
    ensures Run(env, s, bytes) == s
  {
    if s.err.Some? { RunFailed(env, s, bytes); }
  }

  /** A clean read is, stored forms aside, a run over its bytes. */
  lemma CleanRead(env: Env, s: PS, x: Bytes, chunk: Bytes)
    requires Sound(s) && CleanStream(env, s, chunk)
    ensures var t := ReadOnce(env, s, x, chunk); Sound(t) && Norm(t) == Norm(Run(env, s, chunk))
    ensures Sound(Run(env, s, chunk))
  {
    RereadIsAlike(s, x);
    RunRespectsNorm(env, s, Reread(s, x), chunk);
    CutKeepsSound(Run(env, Reread(s, x), chunk));
    CutIsInvisible(Run(env, Reread(s, x), chunk));
  }

  lemma EvenRead(env: Env, s: PS, x: Bytes, chunk: Bytes)
    requires Sound(s) && EvenStream(env, s, chunk)
    ensures var t := ReadOnce(env, s, x, chunk); Sound(t) && Blind(t) == Blind(Run(env, s, chunk))
    ensures Sound(Run(env, s, chunk))
  {
    RereadIsAlike(s, x);
    RunRespectsBlind(env, s, Reread(s, x), chunk);
    CutKeepsSound(Run(env, Reread(s, x), chunk));
    CutIsInvisible(Run(env, Reread(s, x), chunk));
  }

  /** Split invariance: however a clean stream is cut into read buffers, the same operations
      are dispatched with the same bytes, the same error (if any) ends the connection, and the
      parser is left waiting for the same rest. */
  lemma {:induction false} CutsAreInvisible(env: Env, s: PS, chunks: seq<Bytes>, mem: seq<Bytes>)
    requires Sound(s) && CleanStream(env, s, Concat(chunks)) && |mem| == |chunks|
    ensures Sound(RunCuts(env, s, chunks, mem))
    ensures Norm(RunCuts(env, s, chunks, mem)) == Norm(Run(env, s, Concat(chunks)))
    decreases |chunks|
  {
    if Over(s) {
      OverIsOver(env, s, Concat(chunks));
    } else if chunks != [] {
      var head, rest := chunks[0], Concat(chunks[1..]);
      var t, u := ReadOnce(env, s, mem[0], head), Run(env, s, head);
      CleanStreamSplit(env, s, head, rest);
      CleanRead(env, s, mem[0], head);
      CleanStreamRespectsNorm(env, u, t, rest);
      CutsAreInvisible(env, t, chunks[1..], mem[1..]);
      RunRespectsNorm(env, u, t, rest);
      RunAppend(env, s, head, rest);
    }
  }

  /** However an even stream is cut, as many calls are made, and the same is collected, as long as
      the connection is read. */
  lemma {:induction false} EvenCuts(env: Env, s: PS, chunks: seq<Bytes>, mem: seq<Bytes>)
    requires Sound(s) && EvenStream(env, s, Concat(chunks)) && |mem| == |chunks|
    ensures var t := RunCuts(env, s, chunks, mem);
            Sound(t) && (Over(t) || Blind(t) == Blind(Run(env, s, Concat(chunks))))
    decreases |chunks|
  {
    if !Over(s) && chunks != [] {
      var head, rest := chunks[0], Concat(chunks[1..]);
      var t, u := ReadOnce(env, s, mem[0], head), Run(env, s, head);
      EvenStreamSplit(env, s, head, rest);
      EvenRead(env, s, mem[0], head);
      EvenStreamRespectsBlind(env, u, t, rest);
      EvenCuts(env, t, chunks[1..], mem[1..]);
      RunRespectsBlind(env, u, t, rest);
      RunAppend(env, s, head, rest);
    }
  }

  // ----- cleanness is exactly what it takes to store the same -----

  /** A state reached without any cut, by clean bytes. */
  predicate Uncut(u: PS) {
    && Sound(u) && !u.msaved && !u.saved && (u.err.None? && u.closed ==> AtStart(u))
    && (u.err.None? && IsKeptArg(u.st) && u.drop == 1 ==> u.tok[|u.tok| - 1] == '\r')
  }

  lemma StepKeepsUncut(env: Env, u: PS, b: char)
    requires Uncut(u) && Clean(Norm(u), b)
    ensures Uncut(Step(env, u, b))
  {
    StepKeepsSound(env, u, b);
    if u.err.None? {
      if u.st.Arg? {
        var o := OutcomeOf(env, u.st.of, ArgOf(u));
        assert b == '\n' ==> Step(env, u, b) == EndArg(env, u, o);
      } else if u.st.In? {
        KeywordIsPlain(env.typ, u.st.verb, b);
      }
    }
  }

  /** The stored forms do part at an unclean byte of an argument: cut right before it. */
  lemma UncleanArgShows(env: Env, u: PS, b: char)
    requires Uncut(u) && u.err.None? && IsKeptArg(u.st) && u.drop == 1 && b != '\n'
    ensures Norm(Step(env, Cut(u), b)) != Norm(Step(env, u, b))
  {
    var c := Step(env, Cut(u), b);
    var d := Step(env, u, b);
    assert c == StepArg(env, u.st.of, Cut(u), b) && d == StepArg(env, u.st.of, u, b);
    assert ArgOf(d) == u.tok;
    if b == '\r' {
      assert |ArgOf(c)| == |u.tok| - 1;
    } else {
      assert ArgOf(c)[|u.tok| - 1] == b;
    }
    assert ArgOf(c) != ArgOf(d);
  }

  /** They part at a `\n` right after a payload: cut before the payload's last byte. */
  lemma UncleanPayloadShows(env: Env, v: PS, c: char)
    requires Uncut(v) && v.err.None? && v.st.MsgPayload? && |v.msg| + 1 == v.pa.size
    ensures Norm(Run(env, Cut(v), [c, '\n'])) != Norm(Run(env, v, [c, '\n']))
  {
    RunTwo(env, Cut(v), c, '\n');
    RunTwo(env, v, c, '\n');
  }

  lemma RunTwo(env: Env, s: PS, a: char, b: char)
    ensures Run(env, s, [a, b]) == Step(env, Step(env, s, a), b)
  {
    assert [a, b] == [a] + [b];
    RunSnoc(env, s, [a], b);
    assert Run(env, s, [a]) == Run(env, Step(env, s, a), []);
  }

  /** A non-empty payload in the read buffer got its last byte by a payload step. */
  lemma PayloadCameFromPayload(env: Env, v: PS, c: char)
    requires Uncut(v)
    requires var u := Step(env, v, c); u.err.None? && u.st.MsgPayload? && u.msg != []
    ensures v.err.None? && v.st.MsgPayload?
    ensures var u := Step(env, v, c); u.msg == v.msg + [c] && u.pa == v.pa
  {
    if v.st.Arg? {
      ArgHasNoPayload(env, v, c);
    }
  }

  lemma ArgHasNoPayload(env: Env, v: PS, c: char)
    requires Uncut(v) && v.err.None? && v.st.Arg?
    ensures Step(env, v, c).msg == []
  {
    var o := OutcomeOf(env, v.st.of, ArgOf(v));
    assert c == '\n' ==> Step(env, v, c) == EndArg(env, v, o);
  }

  /** Some way to cut some prefix of the stream, with some bytes that the reads leave to see of a
      sid, leaves the parser with other calls made, another error, or other bytes stored. */
  ghost predicate SomeCutShows(env: Env, s: PS, bytes: Bytes) {
    exists chunks, mem :: CutShows(env, s, bytes, chunks, mem)
  }

  ghost predicate CutShows(env: Env, s: PS, bytes: Bytes, chunks: seq<Bytes>, mem: seq<Bytes>) {
    && |mem| == |chunks| && Concat(chunks) <= bytes
    && Norm(RunCuts(env, s, chunks, mem)) != Norm(Run(env, s, Concat(chunks)))
  }

  /** Two reads. */
  function TwoReads(env: Env, s: PS, a: Bytes, b: Bytes, x: Bytes): PS {
    var t := Cut(Run(env, s, a)); if Over(t) then t else ReadOnce(env, t, x, b)
  }

  lemma TwoBuffers(env: Env, s: PS, a: Bytes, b: Bytes, x: Bytes)
    requires !Over(s) && InOneBuffer(s)
    ensures Concat([a, b]) == a + b
    ensures RunCuts(env, s, [a, b], [[], x]) == TwoReads(env, s, a, b, x)
    ensures Run(env, s, a + b) == Run(env, Run(env, s, a), b)
  {
    var chunks, mem := [a, b], [[], x];
    assert Reread(s, []) == s;
    var t := ReadOnce(env, s, [], a);
    assert chunks[1..] == [b] && mem[1..] == [x];
    OneBuffer(env, t, b, x);
    assert RunCuts(env, s, chunks, mem) == RunCuts(env, t, [b], [x]);
    assert Concat(chunks) == a + Concat([b]);
    RunAppend(env, s, a, b);
  }

  lemma OneBuffer(env: Env, s: PS, b: Bytes, x: Bytes)
    ensures Concat([b]) == b
    ensures RunCuts(env, s, [b], [x]) == if Over(s) then s else ReadOnce(env, s, x, b)
  {
    var chunks, mem := [b], [x];
    assert chunks[1..] == [] && mem[1..] == [];
    if !Over(s) {
      assert RunCuts(env, s, chunks, mem) == RunCuts(env, ReadOnce(env, s, x, b), [], []);
    }
  }

  /** The cut at `m` shows at the `n`-th byte. */
  lemma ShowsAt(env: Env, s: PS, bytes: Bytes, m: nat, n: nat, x: Bytes)
    requires !Over(s) && InOneBuffer(s) && m <= n <= |bytes|
    requires Norm(TwoReads(env, s, bytes[..m], bytes[m..n], x)) != Norm(Run(env, s, bytes[..n]))
    ensures SomeCutShows(env, s, bytes)
  {
    var a, b := bytes[..m], bytes[m..n];
    assert bytes[..n] == a + b;
    TwoBuffers(env, s, a, b, x);
    assert CutShows(env, s, bytes, [a, b], [[], x]);
  }

  lemma StartMoves(env: Env, u: PS, b: char)
    requires AtStart(u)
    ensures !AtStart(Step(env, u, b))
  {
  }

  /** The two reads of a cut right before the byte `b`. */
  lemma CutBefore(env: Env, s: PS, bytes: Bytes, k: nat)
    requires !Over(s) && InOneBuffer(s) && k < |bytes|
    ensures var u, b := Run(env, s, bytes[..k]), bytes[k];
            && Run(env, s, bytes[..k + 1]) == Step(env, u, b)
            && TwoReads(env, s, bytes[..k], bytes[k..k + 1], [])
               == if Over(u) then Cut(u) else Cut(Step(env, Cut(u), b))
  {
    var u, b := Run(env, s, bytes[..k]), bytes[k];
    assert bytes[..k + 1] == bytes[..k] + [b] && bytes[k..k + 1] == [b];
    RunSnoc(env, s, bytes[..k], b);
    RunInOneBuffer(env, s, bytes[..k]);
    assert Reread(Cut(u), []) == Cut(u);
    assert Run(env, Cut(u), [b]) == Run(env, Step(env, Cut(u), b), []);
  }

  /** An unclean byte, and the cut that shows. */
  lemma UncleanByteShows(env: Env, s: PS, bytes: Bytes, k: nat)
    requires k < |bytes| && Uncut(s) && InOneBuffer(s) && AtStart(s) && !s.closed && s.msg == []
    requires CleanStream(env, s, bytes[..k]) && !Clean(Norm(Run(env, s, bytes[..k])), bytes[k])
    ensures SomeCutShows(env, s, bytes)
  {
    var u, b := Run(env, s, bytes[..k]), bytes[k];
    RunKeepsUncut(env, s, bytes[..k]);
    CutBefore(env, s, bytes, k);
    CutKeepsSound(u);
    CutIsInvisible(u);
    if u.closed {
      StartMoves(env, u, b);
      ShowsAt(env, s, bytes, k, k + 1, []);
    } else if IsKeptArg(u.st) {
      UncleanArgShows(env, u, b);
      StepKeepsSound(env, Cut(u), b);
      CutIsInvisible(Step(env, Cut(u), b));
      ShowsAt(env, s, bytes, k, k + 1, []);
    } else if HandsOver(Norm(u), b) {
      UncleanHeirShows(env, s, bytes, k);
    } else {
      UncleanNewlineShows(env, s, bytes, k);
    }
  }

  lemma UncleanHeirShows(env: Env, s: PS, bytes: Bytes, k: nat)
    requires k < |bytes| && InOneBuffer(s) && AtStart(s) && !s.closed
    requires var u := Run(env, s, bytes[..k]); Uncut(u) && !u.closed && HandsOver(Norm(u), bytes[k])
    ensures SomeCutShows(env, s, bytes)
  {
    var m, x := OtherCall(env, s, bytes, k);
    ShowsAt(env, s, bytes, m, k + 1, x);
  }

  lemma LastTwo(bytes: Bytes, k: nat)
    requires 0 < k < |bytes|
    ensures bytes[..k] == bytes[..k - 1] + [bytes[k - 1]] && bytes[k - 1..k + 1] == [bytes[k - 1], bytes[k]]
    ensures bytes[..k + 1] == bytes[..k - 1] + [bytes[k - 1], bytes[k]]
  {
  }

  lemma UncleanNewlineShows(env: Env, s: PS, bytes: Bytes, k: nat)
    requires k < |bytes| && Uncut(s) && InOneBuffer(s) && AtStart(s) && !s.closed && s.msg == []
    requires CleanStream(env, s, bytes[..k]) && bytes[k] == '\n'
    requires var u := Run(env, s, bytes[..k]); u.err.None? && !u.closed && u.st.MsgPayload? && 0 < |u.msg| == u.pa.size
    ensures SomeCutShows(env, s, bytes)
  {
    assert bytes[..0] == [];
    assert k > 0;
    var most, c := bytes[..k - 1], bytes[k - 1];
    var v := Run(env, s, most);
    LastTwo(bytes, k);
    CleanStreamSplit(env, s, most, [c]);
    RunKeepsUncut(env, s, most);
    RunInOneBuffer(env, s, most);
    RunSnoc(env, s, most, c);
    PayloadCameFromPayload(env, v, c);
    UncleanPayloadShows(env, v, c);
    RunAppend(env, s, most, [c, '\n']);
    CutKeepsSound(v);
    var w := Cut(v);
    assert Reread(w, []) == w && !Over(w);
    RunTwo(env, w, c, '\n');
    StepKeepsSound(env, w, c);
    StepKeepsSound(env, Step(env, w, c), '\n');
    CutIsInvisible(Run(env, w, [c, '\n']));
    hide Run, Step, Norm, Sound, Uncut, CleanStream, Cut;
    ShowsAt(env, s, bytes, k - 1, k + 1, []);
  }

  lemma {:induction false} UncleanStreamShows(env: Env, s: PS, bytes: Bytes, k: nat)
    requires k <= |bytes| && Uncut(s) && InOneBuffer(s) && AtStart(s) && !s.closed && s.msg == []
    requires CleanStream(env, s, bytes[..k]) && !CleanStream(env, Run(env, s, bytes[..k]), bytes[k..])
    ensures SomeCutShows(env, s, bytes)
    decreases |bytes| - k
  {
    var u, b := Run(env, s, bytes[..k]), bytes[k];
    if Clean(Norm(u), b) {
      assert bytes[..k + 1] == bytes[..k] + [b] && bytes[k..][1..] == bytes[k + 1..];
      RunSnoc(env, s, bytes[..k], b);
      CleanSnoc(env, s, bytes[..k], b);
      UncleanStreamShows(env, s, bytes, k + 1);
    } else {
      UncleanByteShows(env, s, bytes, k);
    }
  }

  lemma {:induction false} RunKeepsUncut(env: Env, s: PS, bytes: Bytes)
    requires Uncut(s) && CleanStream(env, s, bytes)
    ensures Uncut(Run(env, s, bytes))
    decreases |bytes|
  {
    if bytes != [] {
      StepKeepsUncut(env, s, bytes[0]);
      RunKeepsUncut(env, Step(env, s, bytes[0]), bytes[1..]);
    }
  }

  lemma {:induction false} CleanSnoc(env: Env, s: PS, bytes: Bytes, b: char)
    requires CleanStream(env, s, bytes) && Clean(Norm(Run(env, s, bytes)), b)
    ensures CleanStream(env, s, bytes + [b])
    decreases |bytes|
  {
    if bytes == [] {
      assert bytes + [b] == [b] && [b][1..] == [];
    } else {
      CleanSnoc(env, Step(env, s, bytes[0]), bytes[1..], b);
      assert (bytes + [b])[1..] == bytes[1..] + [b];
    }
  }

  /** On a new connection, the parser has made the same calls, met the same error and stored the
      same bytes, however the stream or a prefix of it is cut and whatever the reads leave to see
      of a sid, if and only if the stream is clean. */
  lemma StoredAlikeExactly(env: Env, auth: bool, bytes: Bytes)
    ensures CleanStream(env, Init(auth), bytes) <==> !SomeCutShows(env, Init(auth), bytes)
  {
    var s := Init(auth);
    if CleanStream(env, s, bytes) {
      forall chunks, mem ensures !CutShows(env, s, bytes, chunks, mem) {
        var all := Concat(chunks);
        if |mem| == |chunks| && all <= bytes {
          assert bytes == all + bytes[|all|..];
          CleanStreamSplit(env, s, all, bytes[|all|..]);
          CutsAreInvisible(env, s, chunks, mem);
        }
      }
    } else {
      assert bytes[..0] == [] && bytes[0..] == bytes;
      UncleanStreamShows(env, s, bytes, 0);
    }
  }

  // ----- where the difference reaches a call -----

  /** A `\n` right behind a non-empty payload: the connection ends with an error if a cut comes
      before the payload's last byte, and goes on if none does. */
  lemma UncleanPayloadFails(env: Env, v: PS, c: char)
    requires Uncut(v) && v.err.None? && v.st.MsgPayload? && |v.msg| + 1 == v.pa.size
    ensures Run(env, Cut(v), [c, '\n']).err == Some(Unknown)
    ensures Run(env, v, [c, '\n']).err == None
  {
    RunTwo(env, Cut(v), c, '\n');
    RunTwo(env, v, c, '\n');
  }

  /** A byte behind a `\r` in a -ERR line: the text handed over is another if a cut comes right
      before the byte. */
  lemma UncleanTextParts(env: Env, u: PS, b: char)
    requires Uncut(u) && u.err.None? && u.st == Arg(ErrLine) && u.drop == 1 && b != '\n'
    ensures Run(env, Cut(u), [b, '\n']).log != Run(env, u, [b, '\n']).log
  {
    var c, d := Step(env, Cut(u), b), Step(env, u, b);
    RunTwo(env, Cut(u), b, '\n');
    RunTwo(env, u, b, '\n');
    assert c == StepArg(env, ErrLine, Cut(u), b) && d == StepArg(env, ErrLine, u, b);
    assert Step(env, c, '\n').log == c.log + [Complaint(ArgOf(c))]
        && Step(env, d, '\n').log == d.log + [Complaint(ArgOf(d))];
    assert ArgOf(d) == u.tok;
    assert ArgOf(c) != ArgOf(d) by {
      if b == '\r' { assert |ArgOf(c)| == |u.tok| - 1; } else { assert ArgOf(c)[|u.tok| - 1] == b; }
    }
    assert Step(env, c, '\n').log[|u.log|] == Complaint(ArgOf(c))
        && Step(env, d, '\n').log[|u.log|] == Complaint(ArgOf(d));
  }
}
