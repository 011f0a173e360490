/** Lines that make the parser panic: when, exactly, for a PUB line that the payload limit lets
    pass. */
module Limits {
  import opened Base
  import opened Args
  import opened Slices
  import opened Protocol
  import opened CutInvariance
  import opened Parser
  import opened Wire
  import opened Framing

  /** The words behind the verb. */
  function PubWords(subject: Bytes, reply: Option<Bytes>, n: nat): Bytes {
    subject + (" " + (match reply case None => Decimal(n) case Some(r) => r + (" " + Decimal(n))))
  }

  function PubText(subject: Bytes, reply: Option<Bytes>, n: nat): Bytes { "PUB " + PubWords(subject, reply, n) }

  /** The arguments of the line. */
  function PubOf(subject: Bytes, reply: Option<Bytes>, n: nat): Pa { Pa(subject, reply, None, Decimal(n), n) }

  predicate Names(subject: Bytes, reply: Option<Bytes>) { Name(subject) && (reply.Some? ==> Name(reply.value)) }

  /** No payload limit forbids `n` bytes. */
  predicate Allowed(env: Env, n: nat) { n < TWO63 && (env.mpay > 0 ==> n <= env.mpay) }

  lemma PubIsSpelled(typ: ConnType)
    ensures Spells(typ, OpStart, "PUB ", Blanks(PubLine))
  {
    SpellLast(typ, OpPub, ' ', Blanks(PubLine));
    SpellMore(typ, OpPu, 'B', OpPub, [' '], Blanks(PubLine));
    SpellMore(typ, OpP, 'U', OpPu, ['B'] + [' '], Blanks(PubLine));
    SpellMore(typ, OpStart, 'P', OpP, ['U'] + (['B'] + [' ']), Blanks(PubLine));
    assert "PUB " == ['P'] + (['U'] + (['B'] + [' ']));
  }

  /** What the argument says: the subject comes first, then the reply, then the size. */
  lemma PubArgument(env: Env, subject: Bytes, reply: Option<Bytes>, n: nat)
    requires Allowed(env, n) && Names(subject, reply)
    ensures var a := PubWords(subject, reply, n);
            a != [] && Plain(a) && !IsBlank(a[0]) && OutcomeOf(env, PubLine, a) == Body(PubOf(subject, reply, n))
  {
    var ws := [subject] + (if reply.Some? then [reply.value] else []) + [Decimal(n)];
    DigitsAreNoSpace(Decimal(n));
    PubJoin(subject, reply, n);
    FieldsOfJoin(ws);
    AllNonEmpty(ws);
    JoinIsPlain(ws);
    ParseSizeOfDecimal(n);
  }

  lemma PubJoin(subject: Bytes, reply: Option<Bytes>, n: nat)
    ensures Join([subject] + (if reply.Some? then [reply.value] else []) + [Decimal(n)]) == PubWords(subject, reply, n)
  {
    var d := Decimal(n);
    if reply.Some? {
      var r := reply.value;
      assert [subject] + [r] + [d] == [subject, r, d] && [subject, r, d][1..] == [r, d] && [r, d][1..] == [d];
      assert Join([d]) == d && Join([r, d]) == r + (" " + d);
    } else {
      assert [subject] + [] + [d] == [subject, d] && [subject, d][1..] == [d];
    }
  }

  /** Right before the newline. */
  function AtNewline(subject: Bytes, reply: Option<Bytes>, n: nat): PS {
    Init(false).(st := Arg(PubLine), drop := 1, tok := PubWords(subject, reply, n) + ['\r'])
  }

  lemma ToNewline(env: Env, subject: Bytes, reply: Option<Bytes>, n: nat)
    requires Allowed(env, n) && Names(subject, reply)
    ensures Run(env, Init(false), PubText(subject, reply, n) + ['\r']) == AtNewline(subject, reply, n)
    ensures Step(env, AtNewline(subject, reply, n), '\n') ==
            Init(false).(st := MsgPayload, pa := PubOf(subject, reply, n))
  {
    var s, a := Init(false), PubWords(subject, reply, n);
    var t, u := s.(st := Blanks(PubLine)), AtNewline(subject, reply, n);
    PubArgument(env, subject, reply, n);
    PubIsSpelled(env.typ);
    hide Run, Spells, OutcomeOf, PubWords, CleanStream;
    SpelledRun(env, s, "PUB ", Blanks(PubLine));
    RunWords(true, env, t, PubLine, a);
    RunAppend(env, s, "PUB ", a);
    RunSnoc(env, s, PubText(subject, reply, n), '\r');
    assert ArgOf(u) == a;
    assert Step(env, u, '\n') == EndArg(env, u, Body(PubOf(subject, reply, n)));
  }

  lemma {:induction false} NoNewline(env: Env, s: PS, b: Bytes, i: nat, k: nat)
    requires i <= k <= |b| && forall j :: i <= j < k ==> b[j] != '\n'
    ensures SomeOverrun(env, s, b, i) <==> SomeOverrun(env, Run(env, s, b[i..k]), b, k)
    decreases k - i
  {
    if i == k {
      assert b[i..k] == [];
    } else {
      StepOn(env, s, b, i, k);
      NoNewline(env, Step(env, s, b[i]), b, i + 1, k);
    }
  }

  lemma PubIsOneLine(env: Env, subject: Bytes, reply: Option<Bytes>, n: nat)
    requires Allowed(env, n) && Names(subject, reply)
    ensures forall j :: 0 <= j < |PubText(subject, reply, n)| ==> PubText(subject, reply, n)[j] != '\n'
  {
    PubArgument(env, subject, reply, n);
    var a := PubWords(subject, reply, n);
    assert PubText(subject, reply, n) == "PUB " + a;
  }

  lemma {:induction false} OverBody(env: Env, s: PS, p: Bytes)
    requires Unsaved(s) && forall j :: 0 <= j < |p| ==> p[j] != '\n'
    ensures var t := Run(env, s, p); Unsaved(t) && t.pa == s.pa && t.msg == s.msg + p
    decreases |p|
  {
    if p == [] {
      assert s.msg + p == s.msg;
    } else {
      var u := Step(env, s, p[0]);
      assert u.msg == s.msg + [p[0]] && Unsaved(u) && u.pa == s.pa;
      OverBody(env, u, p[1..]);
      assert s.msg + [p[0]] + p[1..] == s.msg + p;
    }
  }

  /** Behind a PUB line and the bytes `p` of a body without a newline. */
  lemma InBody(env: Env, subject: Bytes, reply: Option<Bytes>, n: nat, p: Bytes)
    requires Allowed(env, n) && Names(subject, reply) && forall j :: 0 <= j < |p| ==> p[j] != '\n'
    ensures var t := Run(env, Init(false), PubText(subject, reply, n) + CR_LF + p);
            Unsaved(t) && t.pa == PubOf(subject, reply, n) && t.msg == p
  {
    var s, text := Init(false), PubText(subject, reply, n) + ['\r'];
    assert PubText(subject, reply, n) + CR_LF == text + ['\n'];
    ToNewline(env, subject, reply, n);
    RunSnoc(env, s, text, '\n');
    RunAppend(env, s, PubText(subject, reply, n) + CR_LF, p);
    OverBody(env, s.(st := MsgPayload, pa := PubOf(subject, reply, n)), p);
  }

  /** There the array for the payload cannot be made if and only if it would be larger than any array
      can be, or `p` is longer than the message. */
  lemma PubUnmakeable(env: Env, subject: Bytes, reply: Option<Bytes>, n: nat, p: Bytes)
    requires Allowed(env, n) && Names(subject, reply) && forall j :: 0 <= j < |p| ==> p[j] != '\n'
    ensures Unmakeable(env, Run(env, Init(false), PubText(subject, reply, n) + CR_LF + p)) <==>
              n + 2 > env.maxAlloc || |p| > n + 2
  {
    InBody(env, subject, reply, n, p);
  }

  lemma NoneBehind(env: Env, s: PS, b: Bytes, k: nat)
    requires k <= |b| && forall j :: k <= j < |b| ==> b[j] != '\n'
    ensures !SomeOverrun(env, s, b, k)
  {
    NoNewline(env, s, b, k, |b|);
    NoneLeft(env, Run(env, s, b[k..|b|]), b);
  }

  /** In `b`, whose only newline comes behind `text`, nothing overruns before it. */
  lemma UpToNewline(env: Env, s: PS, text: Bytes, b: Bytes, p: Bytes)
    requires b == text + (['\n'] + p)
    requires (forall j :: 0 <= j < |text| ==> text[j] != '\n') && forall j :: 0 <= j < |p| ==> p[j] != '\n'
    ensures SomeOverrun(env, s, b, 0) <==> SomeOverrun(env, Run(env, s, text), b, |text|)
    ensures b[|text|] == '\n' && forall j :: |text| < j < |b| ==> b[j] != '\n'
  {
    hide *;
    var k := |text|;
    assert b[0..k] == text;
    NoNewline(env, s, b, 0, k);
    forall j | k < j < |b| ensures b[j] != '\n' { assert b[j] == p[j - k - 1]; }
  }

  /** At the newline of the line, the `k`-th byte of `b`, the last line of `b`. */
  lemma OverrunAtNewline(env: Env, subject: Bytes, reply: Option<Bytes>, n: nat, b: Bytes, k: nat)
    requires Allowed(env, n) && Names(subject, reply)
    requires k < |b| && b[k] == '\n' && forall j :: k < j < |b| ==> b[j] != '\n'
    ensures SomeOverrun(env, AtNewline(subject, reply, n), b, k) <==> k + n >= TWO63
  {
    ToNewline(env, subject, reply, n);
    NoneBehind(env, Step(env, AtNewline(subject, reply, n), '\n'), b, k + 1);
    hide Step, Join, Fields, Decimal;
  }

  /** A PUB line, alone or with some of its body behind it in the read buffer, makes the index
      overflow if and only if its size, counted from its newline, passes the largest integer.
      "PUB s 9223372036854775807" does. */
  lemma PubOverruns(env: Env, subject: Bytes, reply: Option<Bytes>, n: nat, p: Bytes)
    requires Allowed(env, n) && Names(subject, reply) && forall j :: 0 <= j < |p| ==> p[j] != '\n'
    ensures SomeOverrun(env, Init(false), PubText(subject, reply, n) + CR_LF + p, 0) <==>
              |PubText(subject, reply, n)| + 1 + n >= TWO63
    ensures Run(env, Init(false), PubText(subject, reply, n) + CR_LF + p).pa.size == n
  {
    var s, text := Init(false), PubText(subject, reply, n) + ['\r'];
    var b := PubText(subject, reply, n) + CR_LF + p;
    assert b == text + (['\n'] + p);
    ToNewline(env, subject, reply, n);
    PubIsOneLine(env, subject, reply, n);
    hide *;
    UpToNewline(env, s, text, b, p);
    OverrunAtNewline(env, subject, reply, n, b, |text|);
    InBody(env, subject, reply, n, p);
  }

  /** The parser itself, on a new connection, with such a line and what has come of its body in
      one read buffer.  A size above 1024 never fits the scratch array. */
  method FeedPub(env: Env, subject: Bytes, reply: Option<Bytes>, n: nat, p: Bytes) returns (c: Client, v: Verdict)
    requires Allowed(env, n) && Names(subject, reply) && 1024 < n && forall j :: 0 <= j < |p| ==> p[j] != '\n'
    requires |PubText(subject, reply, n)| + 2 + |p| < TWO63
    ensures v.Panic? <==> |PubText(subject, reply, n)| + 1 + n >= TWO63 || n + 2 > env.maxAlloc || |p| > n + 2
  {
    var input := PubText(subject, reply, n) + CR_LF + p;
    var room := new char[|input|](j requires 0 <= j < |input| => input[j]);
    c := new Client(env, false, room);
    var buf := Slice(room, 0, |input|);
    assert buf.Val() == input;
    PubOverruns(env, subject, reply, n, p);
    PubUnmakeable(env, subject, reply, n, p);
    v := c.Parse(buf, input);
  }
}
