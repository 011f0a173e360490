/** When a cut reaches a call.  `CutInvariance` compares what the parser stores; here only what
    has left it counts: the calls made, the error, and the arguments of the message that is
    coming.  A `\r` inside an argument may be stored differently and mean the same. */
module Hearing {
  import opened Base
  import opened Args
  import opened Protocol
  import opened Heirs
  import opened CutInvariance

  /** What has left the parser.  No message is coming on a connection that is over. */
  function Outward(s: PS): (seq<Op>, Option<Error>, Pa) { (s.log, s.err, if Over(s) then NO_PA else s.pa) }

  // ----- the texts of an argument line -----

  /** A `\r` behind the first byte takes the last byte off the argument in the read buffer. */
  function Dropped(t: Bytes): (d: nat)
    ensures d <= |t|
  {
    if |t| > 0 && '\r' in t[1..] then 1 else 0
  }

  /** The argument handed over if no cut comes inside it; `t` is the line from its first byte. */
  function Whole(t: Bytes): Bytes { t[..|t| - Dropped(t)] }

  function NoCr(t: Bytes): Bytes {
    if t == [] then [] else NoCr(t[..|t| - 1]) + if t[|t| - 1] == '\r' then [] else [t[|t| - 1]]
  }

  /** The argument handed over if the first cut comes behind its first `p` bytes. */
  function CutAt(t: Bytes, p: nat): Bytes
    requires p <= |t|
  {
    Whole(t[..p]) + NoCr(t[p..])
  }

  lemma CutAtSnoc(t: Bytes, p: nat, b: char)
    requires p <= |t|
    ensures CutAt(t + [b], p) == CutAt(t, p) + if b == '\r' then [] else [b]
  {
    var u := t + [b];
    assert u[..p] == t[..p] && u[p..] == t[p..] + [b] && u[p..][..|u[p..]| - 1] == t[p..];
  }

  lemma DroppedSnoc(t: Bytes, b: char)
    requires t != []
    ensures Dropped(t + [b]) == if b == '\r' then 1 else Dropped(t)
  {
    assert (t + [b])[1..] == t[1..] + [b];
  }

  /** Some cut inside the line makes it ask for something else. */
  ghost predicate LineHeard(env: Env, of: Line, t: Bytes) { exists p: nat :: HeardAt(env, of, t, p) }

  predicate HeardAt(env: Env, of: Line, t: Bytes, p: nat) {
    1 <= p <= |t| && OutcomeOf(env, of, CutAt(t, p)) != OutcomeOf(env, of, Whole(t))
  }

  // ----- quiet streams -----

  /** The byte `b`, on the uncut run, ends no line that a cut would have changed, no message that is
      taken for the sid of an earlier one, and is no newline right behind a non-empty payload.  On a
      closed connection nothing is called for any more and no error met. */
  ghost predicate Quiet(env: Env, u: PS, b: char) {
    u.err.None? ==>
      if u.closed then Outward(Step(env, u, b)) == Outward(u)
      else !HandsOver(u, b) && (b == '\n' ==>
        && (IsKeptArg(u.st) ==> !LineHeard(env, u.st.of, u.tok))
        && !(u.st.MsgPayload? && 0 < |u.msg| == u.pa.size))
  }

  ghost predicate QuietStream(env: Env, u: PS, bytes: Bytes)
    decreases |bytes|
  {
    bytes == [] || (Quiet(env, u, bytes[0]) && QuietStream(env, Step(env, u, bytes[0]), bytes[1..]))
  }

  lemma {:induction false} QuietStreamSplit(env: Env, u: PS, a: Bytes, b: Bytes)
    requires QuietStream(env, u, a + b)
    ensures QuietStream(env, u, a) && QuietStream(env, Run(env, u, a), b)
    decreases |a|
  {
    if a == [] {
      assert a + b == b;
    } else {
      assert (a + b)[1..] == a[1..] + b;
      QuietStreamSplit(env, Step(env, u, a[0]), a[1..], b);
    }
  }

  lemma {:induction false} QuietSnoc(env: Env, u: PS, bytes: Bytes, b: char)
    requires QuietStream(env, u, bytes) && Quiet(env, Run(env, u, bytes), b)
    ensures QuietStream(env, u, bytes + [b])
    decreases |bytes|
  {
    if bytes == [] {
      assert bytes + [b] == [b] && [b][1..] == [];
    } else {
      QuietSnoc(env, Step(env, u, bytes[0]), bytes[1..], b);
      assert (bytes + [b])[1..] == bytes[1..] + [b];
    }
  }

  // ----- the uncut run -----

  /** A state reached without any cut. */
  predicate Fresh(u: PS) {
    && Sound(u) && InOneBuffer(u)
    && (u.err.None? && IsKeptArg(u.st) ==> u.tok != [] && u.drop == Dropped(u.tok))
  }

  lemma StepKeepsFresh(env: Env, u: PS, b: char)
    requires Fresh(u)
    ensures Fresh(Step(env, u, b))
  {
    StepKeepsSound(env, u, b);
    StepInOneBuffer(env, u, b);
    if u.err.None? {
      if u.st.Arg? {
        var o := OutcomeOf(env, u.st.of, ArgOf(u));
        assert b == '\n' ==> Step(env, u, b) == EndArg(env, u, o);
        if u.tok != [] { DroppedSnoc(u.tok, b); }
      } else if u.st.In? {
        KeywordIsPlain(env.typ, u.st.verb, b);
      }
    }
  }

  lemma {:induction false} RunKeepsFresh(env: Env, u: PS, bytes: Bytes)
    requires Fresh(u)
    ensures Fresh(Run(env, u, bytes))
    decreases |bytes|
  {
    if bytes != [] {
      StepKeepsFresh(env, u, bytes[0]);
      RunKeepsFresh(env, Step(env, u, bytes[0]), bytes[1..]);
    }
  }

  lemma WholeIsArg(u: PS)
    requires Fresh(u) && u.err.None? && IsKeptArg(u.st)
    ensures ArgOf(u) == Whole(u.tok)
  {
  }

  // ----- a cut run beside the uncut one -----

  /** The same state, but for what a sid in the record shows. */
  predicate SameButSid(s: PS, u: PS) { s == u.(stale := s.stale) && (s.stale.NoSid? <==> u.stale.NoSid?) }

  /** Inside an argument line that was first cut behind its first `p` bytes. */
  predicate Late(s: PS, u: PS, p: nat) {
    && 1 <= p <= |u.tok| && IsKeptArg(u.st) && u.err.None? && s.err.None? && s.saved && !s.msaved && s.drop <= 1
    && s == u.(saved := true, drop := s.drop, tok := CutAt(u.tok, p), stale := s.stale)
    && (s.stale.NoSid? <==> u.stale.NoSid?)
  }

  /** The run `s`, cut somewhere and still read, has been heard no differently from the uncut run `u`. */
  ghost predicate Follows(s: PS, u: PS) {
    && Sound(s) && Fresh(u)
    && (if u.err.Some? || (!u.closed && !IsKeptArg(u.st)) then Norm(s) == Norm(u)
        else SameButSid(s, u) || (!u.closed && exists p: nat :: Late(s, u, p)))
  }

  lemma FollowsIsUnheard(s: PS, u: PS)
    requires Follows(s, u)
    ensures Outward(s) == Outward(u)
  {
  }

  lemma LateStep(env: Env, s: PS, u: PS, p: nat, b: char)
    requires Late(s, u, p) && b != '\n'
    ensures Late(Step(env, s, b), Step(env, u, b), p)
  {
    CutAtSnoc(u.tok, p, b);
  }

  lemma CutIsLate(u: PS)
    requires Fresh(u) && u.err.None? && IsKeptArg(u.st)
    ensures Late(Cut(u), u, |u.tok|)
  {
    WholeIsArg(u);
    assert u.tok[..|u.tok|] == u.tok && u.tok[|u.tok|..] == [];
  }

  /** A line that asks for the same ends the same. */
  lemma SameEnd(env: Env, s: PS, u: PS, p: nat, o: Outcome)
    requires Late(s, u, p) && Fresh(u) && (o.Body? ==> 0 <= o.pa.size < TWO63)
    ensures Norm(EndArg(env, s, o)) == Norm(EndArg(env, u, o))
  {
  }

  lemma SameLineEnd(env: Env, s: PS, u: PS, o: Outcome)
    requires SameButSid(s, u) && u.err.None?
    ensures SameButSid(EndArg(env, s, o), EndArg(env, u, o))
  {
  }

  lemma SameInBody(s: PS, u: PS, b: char)
    requires SameButSid(s, u) && u.err.None? && IsBody(u.st) && !HandsOver(u, b)
    ensures u.st.MsgPayload? ==> SameButSid(StepPayload(s, b), StepPayload(u, b))
    ensures u.st.MsgEnd? ==> SameButSid(StepEnd(s, b), StepEnd(u, b))
  {
  }

  lemma SameVerb(s: PS, u: PS, next: Option<State>)
    requires SameButSid(s, u)
    ensures SameButSid(StepVerb(s, next), StepVerb(u, next))
    ensures SameButSid(Fail(s, Authorization), Fail(u, Authorization))
  {
  }

  lemma SameArgByte(env: Env, s: PS, u: PS, b: char)
    requires SameButSid(s, u) && u.st.Arg? && b != '\n'
    ensures SameButSid(StepArg(env, u.st.of, s, b), StepArg(env, u.st.of, u, b))
  {
  }

  lemma SameInLine(env: Env, s: PS, u: PS, b: char)
    requires SameButSid(s, u) && u.err.None? && !IsBody(u.st) && !(u.st.Arg? && b == '\n')
    ensures SameButSid(Step(env, s, b), Step(env, u, b))
  {
    hide Keyword, StepVerb, StepArg, Fail;
    if u.st.In? {
      SameVerb(s, u, Keyword(env.typ, u.st.verb, b));
    } else if u.st.Arg? {
      SameArgByte(env, s, u, b);
    }
  }

  /** The same state goes on the same, up to a message that is taken for the sid. */
  lemma SameStep(env: Env, s: PS, u: PS, b: char)
    requires SameButSid(s, u) && u.err.None? && !HandsOver(u, b)
    ensures SameButSid(Step(env, s, b), Step(env, u, b))
  {
    hide OutcomeOf, EndArg, StepPayload, StepEnd;
    if u.st.Arg? && b == '\n' {
      assert ArgOf(s) == ArgOf(u);
      SameLineEnd(env, s, u, OutcomeOf(env, u.st.of, ArgOf(u)));
    } else if IsBody(u.st) {
      SameInBody(s, u, b);
    } else {
      SameInLine(env, s, u, b);
    }
  }

  /** What is alike at the start of an operation is the same. */
  lemma AlikeIsSame(s: PS, u: PS)
    requires Sound(s) && Fresh(u) && Norm(s) == Norm(u) && u.err.None? && !IsKeptArg(u.st) && !IsBody(u.st)
    ensures SameButSid(s, u)
  {
  }

  /** A connection is closed at the end of an operation. */
  lemma ClosesAtStart(env: Env, u: PS, b: char)
    requires u.err.None? && !u.closed && Step(env, u, b).closed
    ensures AtStart(Step(env, u, b))
  {
    if u.st.Arg? {
      var o := OutcomeOf(env, u.st.of, ArgOf(u));
      assert b == '\n' ==> Step(env, u, b) == EndArg(env, u, o);
    }
  }

  lemma AfterSame(s: PS, u: PS)
    requires Sound(s) && Fresh(u) && SameButSid(s, u)
    ensures Follows(s, u)
  {
  }

  lemma AfterAlike(env: Env, s: PS, u: PS, b: char)
    requires u.err.None? && !u.closed && Fresh(Step(env, u, b)) && Sound(s) && Norm(s) == Norm(Step(env, u, b))
    requires var t := Step(env, u, b); t.err.Some? || !IsKeptArg(t.st)
    ensures Follows(s, Step(env, u, b))
  {
    var t := Step(env, u, b);
    if t.closed && t.err.None? {
      ClosesAtStart(env, u, b);
      AlikeIsSame(s, t);
    }
  }

  lemma LineFollows(env: Env, s: PS, u: PS, b: char)
    requires Follows(s, u) && Quiet(env, u, b) && u.err.None? && !u.closed && IsKeptArg(u.st)
    ensures Follows(Step(env, s, b), Step(env, u, b))
  {
    StepKeepsSound(env, s, b);
    StepKeepsFresh(env, u, b);
    if SameButSid(s, u) {
      SameStep(env, s, u, b);
      AfterSame(Step(env, s, b), Step(env, u, b));
    } else {
      var p: nat :| Late(s, u, p);
      if b == '\n' {
        WholeIsArg(u);
        assert !HeardAt(env, u.st.of, u.tok, p);
        var o := OutcomeOf(env, u.st.of, ArgOf(u));
        assert Step(env, s, b) == EndArg(env, s, o) && Step(env, u, b) == EndArg(env, u, o);
        SameEnd(env, s, u, p, o);
        AfterAlike(env, Step(env, s, b), u, b);
      } else {
        LateStep(env, s, u, p, b);
      }
    }
  }

  lemma OnlyClosedFollows(env: Env, s: PS, u: PS, b: char)
    requires Follows(s, u) && Quiet(env, u, b) && u.err.None? && u.closed
    ensures Follows(Step(env, s, b), Step(env, u, b))
  {
    StepKeepsSound(env, s, b);
    StepKeepsFresh(env, u, b);
    assert HandsOver(u, b) ==> |Step(env, u, b).log| > |u.log|;
    SameStep(env, s, u, b);
    AfterSame(Step(env, s, b), Step(env, u, b));
  }

  lemma BodyFollows(env: Env, s: PS, u: PS, b: char)
    requires Follows(s, u) && Quiet(env, u, b) && u.err.None? && !u.closed && IsBody(u.st)
    ensures Follows(Step(env, s, b), Step(env, u, b))
  {
    StepKeepsSound(env, s, b);
    StepKeepsFresh(env, u, b);
    assert Clean(Norm(u), b);
    StepRespectsNorm(env, s, u, b);
    assert var t := Step(env, u, b); t.err.Some? || !IsKeptArg(t.st);
    AfterAlike(env, Step(env, s, b), u, b);
  }

  lemma StepFollows(env: Env, s: PS, u: PS, b: char)
    requires Follows(s, u) && Quiet(env, u, b)
    ensures Follows(Step(env, s, b), Step(env, u, b))
  {
    if u.err.Some? {
    } else if u.closed {
      OnlyClosedFollows(env, s, u, b);
    } else if IsKeptArg(u.st) {
      LineFollows(env, s, u, b);
    } else if IsBody(u.st) {
      BodyFollows(env, s, u, b);
    } else {
      StepKeepsSound(env, s, b);
      StepKeepsFresh(env, u, b);
      AlikeIsSame(s, u);
      SameStep(env, s, u, b);
      AfterSame(Step(env, s, b), Step(env, u, b));
    }
  }

  lemma CutFollows(s: PS, u: PS)
    requires Follows(s, u) && !Over(s)
    ensures Follows(Cut(s), u)
  {
    CutKeepsSound(s);
    if IsKeptArg(u.st) {
      if SameButSid(s, u) {
        CutIsLate(u);
        assert Late(Cut(s), u, |u.tok|);
      }
    } else {
      CutIsInvisible(s);
    }
  }

  lemma RereadFollows(s: PS, u: PS, x: Bytes)
    requires Follows(s, u)
    ensures Follows(Reread(s, x), u)
  {
    RereadIsAlike(s, x);
    if u.err.None? && !u.closed && IsKeptArg(u.st) && !SameButSid(s, u) {
      var p: nat :| Late(s, u, p);
      assert Late(Reread(s, x), u, p);
    }
  }

  lemma {:induction false} RunFollows(env: Env, s: PS, u: PS, bytes: Bytes)
    requires Follows(s, u) && QuietStream(env, u, bytes)
    ensures Follows(Run(env, s, bytes), Run(env, u, bytes))
    decreases |bytes|
  {
    if bytes != [] {
      StepFollows(env, s, u, bytes[0]);
      RunFollows(env, Step(env, s, bytes[0]), Step(env, u, bytes[0]), bytes[1..]);
    }
  }

  /** Behind the end of a connection a quiet stream calls for nothing. */
  lemma {:induction false} QuietIsOver(env: Env, u: PS, bytes: Bytes)
    requires Over(u) && QuietStream(env, u, bytes)
    ensures Outward(Run(env, u, bytes)) == Outward(u)
    decreases |bytes|
  {
    if bytes != [] {
      ClosedStaysClosed(env, u, bytes[0]);
      QuietIsOver(env, Step(env, u, bytes[0]), bytes[1..]);
    }
  }

  lemma ClosedStaysClosed(env: Env, u: PS, b: char)
    requires Over(u)
    ensures Over(Step(env, u, b))
  {
    if u.err.None? && u.st.Arg? {
      var o := OutcomeOf(env, u.st.of, ArgOf(u));
      assert b == '\n' ==> Step(env, u, b) == EndArg(env, u, o);
    }
  }

  lemma ReadFollows(env: Env, s: PS, u: PS, x: Bytes, chunk: Bytes)
    requires Follows(s, u) && QuietStream(env, u, chunk)
    ensures var t, v := ReadOnce(env, s, x, chunk), Run(env, u, chunk);
            Outward(t) == Outward(v) && (Over(t) <==> Over(v)) && (!Over(t) ==> Follows(t, v))
  {
    RereadFollows(s, u, x);
    RunFollows(env, Reread(s, x), u, chunk);
    var w := Run(env, Reread(s, x), chunk);
    FollowsIsUnheard(w, Run(env, u, chunk));
    CutIsUnheard(w);
    FollowsOver(w, Run(env, u, chunk));
    if !Over(w) { CutFollows(w, Run(env, u, chunk)); }
  }

  lemma FollowsOver(s: PS, u: PS)
    requires Follows(s, u)
    ensures Over(s) <==> Over(u)
    ensures Over(s) <==> Over(Cut(s))
  {
  }

  /** However a quiet stream is cut, the same calls are made, with the same error, and the same
      message is coming. */
  lemma {:induction false} QuietCutsFollow(env: Env, s: PS, u: PS, chunks: seq<Bytes>, mem: seq<Bytes>)
    requires Follows(s, u) && QuietStream(env, u, Concat(chunks)) && |mem| == |chunks|
    ensures Outward(RunCuts(env, s, chunks, mem)) == Outward(Run(env, u, Concat(chunks)))
    decreases |chunks|
  {
    FollowsIsUnheard(s, u);
    FollowsOver(s, u);
    if Over(s) {
      QuietIsOver(env, u, Concat(chunks));
    } else if chunks != [] {
      var head, rest := chunks[0], Concat(chunks[1..]);
      var t, v := ReadOnce(env, s, mem[0], head), Run(env, u, head);
      QuietStreamSplit(env, u, head, rest);
      ReadFollows(env, s, u, mem[0], head);
      RunAppend(env, u, head, rest);
      if Over(t) {
        QuietIsOver(env, v, rest);
        assert RunCuts(env, t, chunks[1..], mem[1..]) == t;
      } else {
        QuietCutsFollow(env, t, v, chunks[1..], mem[1..]);
      }
    }
  }

  // ----- what is not quiet is heard -----

  ghost predicate SomeCutHeard(env: Env, s: PS, bytes: Bytes) {
    exists chunks, mem :: CutHeard(env, s, bytes, chunks, mem)
  }

  ghost predicate CutHeard(env: Env, s: PS, bytes: Bytes, chunks: seq<Bytes>, mem: seq<Bytes>) {
    && |mem| == |chunks| && Concat(chunks) <= bytes
    && Outward(RunCuts(env, s, chunks, mem)) != Outward(Run(env, s, Concat(chunks)))
  }

  lemma CutIsUnheard(s: PS)
    ensures Outward(Cut(s)) == Outward(s)
  {
  }

  /** Where the run stood after `p` bytes of the line it is in, the line's first byte counted. */
  lemma {:induction false} LineBegan(env: Env, s: PS, bytes: Bytes, p: nat) returns (m: nat)
    requires Fresh(s) && !s.st.Arg?
    requires var u := Run(env, s, bytes); u.err.None? && IsKeptArg(u.st) && 1 <= p <= |u.tok|
    ensures m <= |bytes| && (forall j :: m <= j < |bytes| ==> bytes[j] != '\n')
    ensures var v, u := Run(env, s, bytes[..m]), Run(env, s, bytes);
            v.err.None? && v.closed == u.closed && v.st == u.st && |v.tok| == p && Run(env, v, bytes[m..]) == u
    decreases |bytes|
  {
    var u := Run(env, s, bytes);
    m := |bytes|;
    assert bytes[..m] == bytes && bytes[m..] == [];
    if p < |u.tok| {
      var most, b := bytes[..m - 1], bytes[m - 1];
      assert bytes == most + [b];
      var w := Run(env, s, most);
      RunSnoc(env, s, most, b);
      LineGrew(env, w, b);
      var k := LineBegan(env, s, most, p);
      assert bytes[..k] == most[..k] && bytes[k..] == most[k..] + [b];
      RunSnoc(env, Run(env, s, most[..k]), most[k..], b);
      m := k;
    }
  }

  lemma LineGrew(env: Env, w: PS, b: char)
    requires var u := Step(env, w, b); u.err.None? && IsKeptArg(u.st) && |u.tok| > 1
    ensures w.err.None? && w.st == Step(env, w, b).st && |Step(env, w, b).tok| <= |w.tok| + 1 && b != '\n'
    ensures w.closed == Step(env, w, b).closed
  {
    if w.err.None? && w.st.Arg? {
      var o := OutcomeOf(env, w.st.of, ArgOf(w));
      assert b == '\n' ==> Step(env, w, b) == EndArg(env, w, o);
    } else if w.err.None? && w.st.In? {
      KeywordIsPlain(env.typ, w.st.verb, b);
    }
  }

  lemma {:induction false} LateRun(env: Env, s: PS, u: PS, p: nat, bytes: Bytes)
    requires Late(s, u, p) && forall j :: 0 <= j < |bytes| ==> bytes[j] != '\n'
    ensures Late(Run(env, s, bytes), Run(env, u, bytes), p)
    decreases |bytes|
  {
    if bytes != [] {
      LateStep(env, s, u, p, bytes[0]);
      LateRun(env, Step(env, s, bytes[0]), Step(env, u, bytes[0]), p, bytes[1..]);
    }
  }

  /** Lines that ask for different things are heard apart at once. */
  lemma EndsApart(env: Env, s: PS, u: PS, p: nat, o: Outcome, q: Outcome)
    requires Late(s, u, p) && Fresh(u) && !u.closed && o != q
    ensures Outward(EndArg(env, s, o)) != Outward(EndArg(env, u, q))
  {
    var a, b := EndArg(env, s, o), EndArg(env, u, q);
    if o.Dispatch? && q.Dispatch? { assert a.log[|u.log|] == o.op && b.log[|u.log|] == q.op; }
    if o.Dispatch? && !q.Dispatch? { assert |a.log| == |b.log| + 1; }
    if !o.Dispatch? && q.Dispatch? { assert |a.log| + 1 == |b.log|; }
  }

  /** One cut, and what is heard at the `n`-th byte. */
  lemma Heard(env: Env, s: PS, bytes: Bytes, m: nat, n: nat, x: Bytes)
    requires !Over(s) && InOneBuffer(s) && m <= n <= |bytes|
    requires Outward(TwoReads(env, s, bytes[..m], bytes[m..n], x)) != Outward(Run(env, s, bytes[..n]))
    ensures SomeCutHeard(env, s, bytes)
  {
    var a, b := bytes[..m], bytes[m..n];
    assert bytes[..n] == a + b;
    TwoBuffers(env, s, a, b, x);
    assert CutHeard(env, s, bytes, [a, b], [[], x]);
  }

  /** The same where a sid in the record does not matter. */
  lemma HeardInside(env: Env, s: PS, bytes: Bytes, m: nat, n: nat)
    requires !Over(s) && InOneBuffer(s) && m <= n <= |bytes| && !Over(Run(env, s, bytes[..m]))
    requires Outward(Run(env, Cut(Run(env, s, bytes[..m])), bytes[m..n])) != Outward(Run(env, s, bytes[..n]))
    ensures SomeCutHeard(env, s, bytes)
  {
    var v := Run(env, s, bytes[..m]);
    RunInOneBuffer(env, s, bytes[..m]);
    assert Reread(Cut(v), []) == Cut(v) && !Over(Cut(v));
    CutIsUnheard(Run(env, Cut(v), bytes[m..n]));
    Heard(env, s, bytes, m, n, []);
  }

  lemma LineEndsApart(env: Env, s: PS, u: PS, p: nat)
    requires Late(s, u, p) && Fresh(u) && !u.closed && HeardAt(env, u.st.of, u.tok, p)
    ensures Outward(Step(env, s, '\n')) != Outward(Step(env, u, '\n'))
  {
    WholeIsArg(u);
    EndsApart(env, s, u, p, OutcomeOf(env, u.st.of, CutAt(u.tok, p)), OutcomeOf(env, u.st.of, Whole(u.tok)));
  }

  /** From a place in a line, and a cut there, to the line's end. */
  lemma CutPartsLine(env: Env, v: PS, rest: Bytes)
    requires Fresh(v) && v.err.None? && IsKeptArg(v.st) && forall j :: 0 <= j < |rest| ==> rest[j] != '\n'
    requires var u := Run(env, v, rest); IsKeptArg(u.st) && !u.closed && HeardAt(env, u.st.of, u.tok, |v.tok|)
    ensures Outward(Run(env, Cut(v), rest + ['\n'])) != Outward(Run(env, v, rest + ['\n']))
  {
    CutIsLate(v);
    RunKeepsFresh(env, v, rest);
    hide *;
    LateRun(env, Cut(v), v, |v.tok|, rest);
    LineEndsApart(env, Run(env, Cut(v), rest), Run(env, v, rest), |v.tok|);
    RunSnoc(env, Cut(v), rest, '\n');
    RunSnoc(env, v, rest, '\n');
  }

  lemma LinePieces(bytes: Bytes, k: nat, a: Bytes, rest: Bytes)
    requires k < |bytes| && bytes[..k] == a + rest
    ensures |a| <= k && bytes[..|a|] == a && bytes[|a|..k + 1] == rest + [bytes[k]]
    ensures bytes[..k + 1] == a + (rest + [bytes[k]])
  {
    assert bytes[..k][..|a|] == a && bytes[..k][|a|..] == rest;
  }

  /** The line that ends at `k`, and the cut in it behind `a`. */
  lemma HeardLineFrom(env: Env, s: PS, bytes: Bytes, k: nat, a: Bytes, rest: Bytes, v: PS)
    requires InOneBuffer(s) && !Over(s) && k < |bytes| && bytes[k] == '\n' && bytes[..k] == a + rest
             && v == Run(env, s, a)
    requires Fresh(v) && !Over(v) && v.err.None? && IsKeptArg(v.st) && '\n' !in rest
    requires var u := Run(env, v, rest); IsKeptArg(u.st) && !u.closed && HeardAt(env, u.st.of, u.tok, |v.tok|)
    ensures SomeCutHeard(env, s, bytes)
  {
    LinePieces(bytes, k, a, rest);
    hide *;
    CutPartsLine(env, v, rest);
    RunAppend(env, s, a, rest + ['\n']);
    HeardInside(env, s, bytes, |a|, k + 1);
  }

  lemma HeardLineShows(env: Env, s: PS, bytes: Bytes, k: nat, p: nat)
    requires Fresh(s) && !Over(s) && !s.st.Arg? && k < |bytes| && bytes[k] == '\n'
    requires var u := Run(env, s, bytes[..k]); !Over(u) && IsKeptArg(u.st) && HeardAt(env, u.st.of, u.tok, p)
    ensures SomeCutHeard(env, s, bytes)
  {
    hide Run, Step, Sound, OutcomeOf, CutAt, Whole, SomeCutHeard;
    var most := bytes[..k];
    var m := LineBegan(env, s, most, p);
    var v := Run(env, s, most[..m]);
    RunKeepsFresh(env, s, most[..m]);
    assert most == most[..m] + most[m..];
    HeardLineFrom(env, s, bytes, k, most[..m], most[m..], v);
  }

  lemma NoPayloadYet(env: Env, v: PS, c: char)
    requires Fresh(v) && v.err.None? && v.st.Arg?
    ensures Step(env, v, c).msg == []
  {
    var o := OutcomeOf(env, v.st.of, ArgOf(v));
    assert c == '\n' ==> Step(env, v, c) == EndArg(env, v, o);
  }

  /** The byte before the last of a payload in the read buffer is one of the payload, too. */
  lemma PayloadBegan(env: Env, v: PS, c: char)
    requires Fresh(v)
    requires var u := Step(env, v, c); u.err.None? && u.st.MsgPayload? && u.msg != []
    ensures v.err.None? && v.st.MsgPayload?
    ensures var u := Step(env, v, c); u.msg == v.msg + [c] && u.pa == v.pa && u.closed == v.closed
  {
    if v.err.None? && v.st.Arg? {
      NoPayloadYet(env, v, c);
    }
  }

  lemma HeardPayloadShows(env: Env, s: PS, bytes: Bytes, k: nat)
    requires Fresh(s) && !Over(s) && s.msg == [] && k < |bytes| && bytes[k] == '\n'
    requires var u := Run(env, s, bytes[..k]); !Over(u) && u.st.MsgPayload? && 0 < |u.msg| == u.pa.size
    ensures SomeCutHeard(env, s, bytes)
  {
    assert bytes[..0] == [];
    assert k > 0;
    var most, c := bytes[..k - 1], bytes[k - 1];
    LastTwo(bytes, k);
    var v := Run(env, s, most);
    RunKeepsFresh(env, s, most);
    RunSnoc(env, s, most, c);
    PayloadBegan(env, v, c);
    UncleanPayloadFails(env, v, c);
    RunAppend(env, s, most, [c, '\n']);
    HeardInside(env, s, bytes, k - 1, k + 1);
  }

  lemma HeardHeirShows(env: Env, s: PS, bytes: Bytes, k: nat)
    requires InOneBuffer(s) && AtStart(s) && !Over(s) && k < |bytes|
    requires !Over(Run(env, s, bytes[..k])) && HandsOver(Run(env, s, bytes[..k]), bytes[k])
    ensures SomeCutHeard(env, s, bytes)
  {
    var m, x := OtherCall(env, s, bytes, k);
    Heard(env, s, bytes, m, k + 1, x);
  }

  lemma HeardBehindShows(env: Env, s: PS, bytes: Bytes, k: nat)
    requires Fresh(s) && !Over(s) && k < |bytes|
    requires var u := Run(env, s, bytes[..k]); u.closed && Outward(Step(env, u, bytes[k])) != Outward(u)
    ensures SomeCutHeard(env, s, bytes)
  {
    CutBefore(env, s, bytes, k);
    CutIsUnheard(Run(env, s, bytes[..k]));
    Heard(env, s, bytes, k, k + 1, []);
  }

  lemma {:induction false} UnquietIsHeard(env: Env, s: PS, bytes: Bytes, k: nat)
    requires k <= |bytes| && Fresh(s) && AtStart(s) && !Over(s) && s.msg == []
    requires QuietStream(env, s, bytes[..k]) && !QuietStream(env, s, bytes)
    ensures SomeCutHeard(env, s, bytes)
    decreases |bytes| - k
  {
    assert bytes[..|bytes|] == bytes;
    if k < |bytes| {
      var u := Run(env, s, bytes[..k]);
      if Quiet(env, u, bytes[k]) {
        QuietSnoc(env, s, bytes[..k], bytes[k]);
        assert bytes[..k + 1] == bytes[..k] + [bytes[k]];
        UnquietIsHeard(env, s, bytes, k + 1);
      } else {
        UnquietByteIsHeard(env, s, bytes, k);
      }
    }
  }

  lemma UnquietByteIsHeard(env: Env, s: PS, bytes: Bytes, k: nat)
    requires k < |bytes| && Fresh(s) && AtStart(s) && !Over(s) && s.msg == []
    requires !Quiet(env, Run(env, s, bytes[..k]), bytes[k])
    ensures SomeCutHeard(env, s, bytes)
  {
    var u, b := Run(env, s, bytes[..k]), bytes[k];
    if u.closed {
      HeardBehindShows(env, s, bytes, k);
    } else if HandsOver(u, b) {
      HeardHeirShows(env, s, bytes, k);
    } else if IsKeptArg(u.st) {
      var p: nat :| HeardAt(env, u.st.of, u.tok, p);
      HeardLineShows(env, s, bytes, k, p);
    } else {
      HeardPayloadShows(env, s, bytes, k);
    }
  }

  /** On a new connection: some way to cut the stream or a prefix of it, and some bytes that the
      reads leave to see of a sid, lead to other calls, to another error, or to another message that
      is coming, if and only if the stream is not quiet. */
  lemma HeardExactly(env: Env, auth: bool, bytes: Bytes)
    ensures QuietStream(env, Init(auth), bytes) <==> !SomeCutHeard(env, Init(auth), bytes)
  {
    var s := Init(auth);
    if QuietStream(env, s, bytes) {
      forall chunks, mem ensures !CutHeard(env, s, bytes, chunks, mem) {
        var all := Concat(chunks);
        if |mem| == |chunks| && all <= bytes {
          assert bytes == all + bytes[|all|..];
          QuietStreamSplit(env, s, all, bytes[|all|..]);
          QuietCutsFollow(env, s, s, chunks, mem);
        }
      }
    } else {
      assert bytes[..0] == [];
      UnquietIsHeard(env, s, bytes, 0);
    }
  }

  /** What is stored alike is heard alike. */
  lemma CleanIsQuiet(env: Env, s: PS, bytes: Bytes)
    requires Fresh(s) && AtStart(s) && !Over(s) && s.msg == [] && CleanStream(env, s, bytes)
    ensures QuietStream(env, s, bytes)
  {
    if !QuietStream(env, s, bytes) {
      assert bytes[..0] == [];
      UnquietIsHeard(env, s, bytes, 0);
      var chunks, mem :| CutHeard(env, s, bytes, chunks, mem);
      var all := Concat(chunks);
      assert bytes == all + bytes[|all|..];
      CleanStreamSplit(env, s, all, bytes[|all|..]);
      CutsAreInvisible(env, s, chunks, mem);
    }
  }

  // ----- quiet is more than clean -----

  predicate Spaces(t: Bytes) { forall k :: 0 <= k < |t| ==> IsSpace(t[k]) }

  lemma {:induction false} FieldsBeforeSpaces(t: Bytes, sp: Bytes)
    requires Spaces(sp)
    ensures Fields(t + sp) == Fields(t)
    decreases |t| + |sp|
  {
    if t == [] {
      assert t + sp == sp;
      if sp != [] {
        assert [] + sp[1..] == sp[1..];
        FieldsBeforeSpaces([], sp[1..]);
      }
    } else if IsSpace(t[0]) {
      assert (t + sp)[1..] == t[1..] + sp;
      FieldsBeforeSpaces(t[1..], sp);
    } else {
      var w := Word(t);
      var rest := t[|w|..];
      assert t == w + rest && t + sp == w + (rest + sp);
      FieldsOfWord(w, rest);
      FieldsOfWord(w, rest + sp);
      FieldsBeforeSpaces(rest, sp);
    }
  }

  lemma {:induction false} NoCrAppend(a: Bytes, b: Bytes)
    ensures NoCr(a + b) == NoCr(a) + NoCr(b)
    decreases |b|
  {
    if b == [] {
      assert a + b == a;
    } else {
      assert (a + b)[..|a + b| - 1] == a + b[..|b| - 1];
      NoCrAppend(a, b[..|b| - 1]);
    }
  }

  lemma {:induction false} NoCrOfText(t: Bytes)
    ensures '\r' !in t ==> NoCr(t) == t
    ensures Spaces(t) ==> Spaces(NoCr(t))
    decreases |t|
  {
    if t != [] {
      assert t == t[..|t| - 1] + [t[|t| - 1]];
      NoCrOfText(t[..|t| - 1]);
    }
  }

  lemma ThreePieces(a: Bytes, b: Bytes, c: Bytes)
    ensures (a + b) + c == a + (b + c)
    ensures (a + (b + c))[..|a|] == a && (a + (b + c))[|a|..] == b + c
  {
  }

  /** A cut before the spaces at the end of a line. */
  lemma CutInText(a: Bytes, b: Bytes, sp: Bytes)
    requires '\r' !in a && '\r' !in b && Spaces(sp) && a != []
    ensures CutAt((a + b) + sp, |a|) == (a + b) + NoCr(sp) && Spaces(NoCr(sp))
  {
    var t := (a + b) + sp;
    NoCrAppend(b, sp);
    NoCrOfText(b);
    NoCrOfText(sp);
    assert Whole(a) == a;
    ThreePieces(a, b, sp);
    ThreePieces(a, b, NoCr(sp));
    hide *;
    assert t == a + (b + sp) && (a + b) + NoCr(sp) == a + (b + NoCr(sp));
  }

  /** A cut among them. */
  lemma CutInSpaces(w: Bytes, a: Bytes, b: Bytes) returns (kept: Bytes)
    requires '\r' !in w && Spaces(a) && Spaces(b) && a != []
    ensures CutAt(w + (a + b), |w + a|) == w + kept && Spaces(kept)
  {
    var t := w + (a + b);
    kept := a[..|a| - Dropped(w + a)] + NoCr(b);
    NoCrOfText(b);
    hide NoCr, Dropped;
    assert t[..|w + a|] == w + a && t[|w + a|..] == b;
    assert (w + a)[..|w + a| - Dropped(w + a)] == w + a[..|a| - Dropped(w + a)];
  }

  /** Whatever is cut off or left out of spaces at the end of a line, the fields stay. */
  lemma CutKeepsFields(w: Bytes, sp: Bytes, p: nat)
    requires '\r' !in w && Spaces(sp) && 1 <= p <= |w + sp|
    ensures Fields(CutAt(w + sp, p)) == Fields(w)
  {
    if p <= |w| {
      assert w == w[..p] + w[p..];
      CutInText(w[..p], w[p..], sp);
      FieldsBeforeSpaces(w, NoCr(sp));
    } else {
      var a, b := sp[..p - |w|], sp[p - |w|..];
      assert sp == a + b;
      var kept := CutInSpaces(w, a, b);
      FieldsBeforeSpaces(w, kept);
    }
  }

  predicate ReadsFields(of: Line) { of.PubLine? || of.MsgLine? || of.SubLine? || of.UnsubLine? }

  lemma OnlyFieldsMatter(env: Env, of: Line, a: Bytes, b: Bytes)
    requires ReadsFields(of) && Fields(a) == Fields(b)
    ensures OutcomeOf(env, of, a) == OutcomeOf(env, of, b)
  {
  }

  /** Blanks and `\r`s at the end of a SUB, UNSUB, PUB or MSG line make no cut be heard. */
  lemma SpacesUnheard(env: Env, of: Line, w: Bytes, sp: Bytes)
    requires ReadsFields(of) && '\r' !in w && Spaces(sp)
    ensures !LineHeard(env, of, w + sp)
  {
    var t := w + sp;
    forall p: nat | 1 <= p <= |t| ensures !HeardAt(env, of, t, p) {
      CutKeepsFields(w, sp, p);
      CutKeepsFields(w, sp, |t|);
      assert t[..|t|] == t && t[|t|..] == [] && Whole(t) + [] == Whole(t);
      OnlyFieldsMatter(env, of, CutAt(t, p), Whole(t));
    }
  }

  /** One `\r` more behind a line, as in "SUB a 1\r \r\n": not clean, and yet no cut is heard. */
  lemma QuietNotClean(env: Env, u: PS)
    requires Fresh(u) && !Over(u) && IsKeptArg(u.st) && ReadsFields(u.st.of) && '\r' !in u.tok
    ensures !CleanStream(env, u, "\r \r\n") && QuietStream(env, u, "\r \r\n")
  {
    var u1 := Step(env, u, '\r');
    var u2 := Step(env, u1, ' ');
    var u3 := Step(env, u2, '\r');
    assert u3.tok == u.tok + "\r \r" && u3.st == u.st && u3.err.None?;
    SpacesUnheard(env, u.st.of, u.tok, "\r \r");
    assert "\r \r\n"[1..] == " \r\n" && " \r\n"[1..] == "\r\n" && "\r\n"[1..] == "\n" && "\n"[1..] == [];
    assert QuietStream(env, u3, "\n");
    assert QuietStream(env, u2, "\r\n");
    assert QuietStream(env, u1, " \r\n");
    assert !CleanStream(env, u1, " \r\n");
  }
}
