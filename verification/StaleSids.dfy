/** A message on a route that has no sid of its own, behind one that has: server/client.go:712 takes it for
    the queue subscriber whose id the old sid shows, and what it shows depends on the reads. */
module StaleSids {
  import opened Base
  import opened Args
  import opened Slices
  import opened Protocol
  import opened Heirs
  import opened CutInvariance
  import opened Wire
  import opened Parser
  import opened ReadLoop
  import opened Framing
  import opened Limits
  import RouteSid
  import opened Delivery

  function PubBytes(subject: Bytes, reply: Option<Bytes>, payload: Bytes): Bytes {
    PubText(subject, reply, |payload|) + CR_LF + (payload + CR_LF)
  }

  function PubCall(subject: Bytes, reply: Option<Bytes>, payload: Bytes, sid: Stale): Op {
    Message(PubOf(subject, reply, |payload|), sid, payload + CR_LF)
  }

  lemma PubLineRun(env: Env, s: PS, subject: Bytes, reply: Option<Bytes>, n: nat)
    requires Ready(s) && Allowed(env, n) && Names(subject, reply)
    ensures Run(env, s, PubText(subject, reply, n) + CR_LF) == s.(st := MsgPayload, pa := PubOf(subject, reply, n))
    ensures Plain(PubText(subject, reply, n)) && PubText(subject, reply, n)[0] == 'P'
  {
    var a := PubWords(subject, reply, n);
    var t := s.(st := Blanks(PubLine));
    PubArgument(env, subject, reply, n);
    PubIsSpelled(env.typ);
    hide PubWords, OutcomeOf;
    SpelledRun(env, s, "PUB ", Blanks(PubLine));
    RunArg(true, env, t, PubLine, a);
    RunAppend(env, s, "PUB ", a + CR_LF);
    assert PubText(subject, reply, n) + CR_LF == "PUB " + (a + CR_LF);
  }

  /** The bytes of a PUB with its payload make one call, with the subject, the reply and the payload of the
      line, and for whatever sid there is in the record. */
  lemma PubRun(env: Env, s: PS, subject: Bytes, reply: Option<Bytes>, payload: Bytes)
    requires Ready(s) && Allowed(env, |payload|) && Names(subject, reply)
    ensures Run(env, s, PubBytes(subject, reply, payload)) ==
            s.(log := s.log + [PubCall(subject, reply, payload, s.stale)])
  {
    var line := PubText(subject, reply, |payload|) + CR_LF;
    PubLineRun(env, s, subject, reply, |payload|);
    RunPayload(false, env, Run(env, s, line), payload);
    RunAppend(env, s, line, payload + CR_LF);
  }

  /** In one read buffer a PUB behind a MSG is taken for the MSG's sid.  In a buffer of its own it is taken
      for the bytes that lie there then. */
  lemma PubInherits(env: Env, s: PS, w: Proto, subject: Bytes, reply: Option<Bytes>, payload: Bytes, x: Bytes)
    requires Ready(s) && env.typ.Router? && w.MsgProto? && Printable(w)
    requires Allowed(env, |payload|) && Names(subject, reply) && |x| == |w.sid|
    ensures Run(env, s, Print(w) + PubBytes(subject, reply, payload)).log
            == s.log + [Meaning(w)] + [PubCall(subject, reply, payload, Seen(w.sid))]
    ensures TwoReads(env, s, Print(w), PubBytes(subject, reply, payload), x).log
            == s.log + [Meaning(w)] + [PubCall(subject, reply, payload, Seen(x))]
  {
    RoundTrip(env, s, w);
    var t := Run(env, s, Print(w));
    RunAppend(env, s, Print(w), PubBytes(subject, reply, payload));
    PubRun(env, t, subject, reply, payload);
    PubRun(env, Reread(t, x), subject, reply, payload);
  }

  // ----- in the parser itself -----

  function FrameOf(w: Proto): Frame
    requires w.MsgProto?
  {
    Frame(Wire.Verb(w) + Join(Words(w)), Some(w.payload))
  }

  function PubFrame(subject: Bytes, reply: Option<Bytes>, payload: Bytes): Frame {
    Frame(PubText(subject, reply, |payload|), Some(payload))
  }

  lemma MsgIsFrame(env: Env, w: Proto)
    requires env.typ.Router? && w.MsgProto? && Printable(w)
    ensures Text(FrameOf(w)) == Print(w) && Plain(FrameOf(w).line) && !StartsInfo(FrameOf(w).line)
    ensures var t := Run(env, Init(false), FrameOf(w).line + CR_LF); t.err.None? && Announces(t, FrameOf(w).payload)
  {
    RunLine(env, Init(false), w);
    assert FrameOf(w).line + CR_LF == Wire.Verb(w) + (Join(Words(w)) + CR_LF);
    PrintedWords(w);
    JoinIsPlain(Words(w));
  }

  lemma PubIsFrame(env: Env, t: PS, subject: Bytes, reply: Option<Bytes>, payload: Bytes)
    requires Ready(t) && Allowed(env, |payload|) && Names(subject, reply)
    ensures Framed(env, t, [PubFrame(subject, reply, payload)]) && !StartsInfo(PubFrame(subject, reply, payload).line)
    ensures Stream([PubFrame(subject, reply, payload)]) == PubBytes(subject, reply, payload)
  {
    var g := PubFrame(subject, reply, payload);
    assert [g][1..] == [] && Stream([g]) == Text(g) + [];
    PubLineRun(env, t, subject, reply, |payload|);
  }

  lemma BothAreFrames(env: Env, w: Proto, subject: Bytes, reply: Option<Bytes>, payload: Bytes)
    requires env.typ.Router? && w.MsgProto? && Printable(w) && Allowed(env, |payload|) && Names(subject, reply)
    ensures var frames := [FrameOf(w), PubFrame(subject, reply, payload)];
            Framed(env, Init(false), frames) && NoInfo(frames)
                && Stream(frames) == Print(w) + PubBytes(subject, reply, payload)
  {
    var s, f, g := Init(false), FrameOf(w), PubFrame(subject, reply, payload);
    var frames := [f, g];
    assert frames[1..] == [g];
    MsgIsFrame(env, w);
    RoundTrip(env, s, w);
    var t := Run(env, s, Text(f));
    hide Text, Print, Printable, PubBytes, Plain, Run, Announces, StartsInfo, FrameOf, PubFrame;
    PubIsFrame(env, t, subject, reply, payload);
  }

  function Sid(): Bytes { "QRSID:1:x" }

  function LeftThere(): Bytes { "1\r\nb\r\n1:x" }

  function Msg(): Proto { MsgProto("a", Sid(), None, "1", "b") }

  function MsgText(): Bytes { "MSG a QRSID:1:x 1\r\nb\r\n" }

  function PubMsg(): Bytes { "PUB a 1\r\nb\r\n" }

  lemma TheMsg()
    ensures Print(Msg()) == MsgText() && Printable(Msg()) && |MsgText()| == 22 && |Sid()| == 9 && Msg().sid == Sid()
    ensures Meaning(Msg()) == FirstCall() && Msg().MsgProto? && SidBehind(Init(false), Msg()) == Seen(Sid())
  {
    var w := Msg();
    assert Words(w) == ["a", Sid(), "1"];
    JoinThree("a", Sid(), "1");
    assert Value("1") == 1;
  }

  lemma ThePub()
    ensures PubBytes("a", None, "b") == PubMsg() && Names("a", None) && |PubMsg()| == 12 && |LeftThere()| == 9
    ensures forall x :: PubCall("a", None, "b", Seen(x)) == SecondCall(x)
  {
    assert Decimal(1) == "1";
  }

  /** The first message is for the queue subscription, and is handed over as such. */
  function FirstCall(): Op { Message(Pa("a", None, Some(Sid()), "1", 1), NoSid, "b\r\n") }

  /** The second has no sid of its own. */
  function SecondCall(shown: Bytes): Op { Message(Pa("a", None, None, "1", 1), Seen(shown), "b\r\n") }

  /** A route without a payload limit. */
  predicate RouteEnv(env: Env) { env.typ.Router? && env.mpay <= 0 && 34 <= env.maxAlloc }

  /** Neither way to read the two messages panics. */
  lemma NoPanicOnThem(env: Env, inputs: seq<Bytes>)
    requires RouteEnv(env) && Concat(inputs) == MsgText() + PubMsg()
    ensures !SomePanic(env, Init(false), inputs)
    ensures inputs != [] ==> !MayPanic(env, Init(false), inputs[0])
  {
    TheMsg();
    ThePub();
    hide Msg, MsgText, PubMsg, PubBytes, Print, Printable, SomePanic;
    var frames := [FrameOf(Msg()), PubFrame("a", None, "b")];
    BothAreFrames(env, Msg(), "a", None, "b");
    FramedIsEven(env, Init(false), frames);
    FramedStaysGood(env, Init(false), frames);
    FramedReads(env, Init(false), frames, inputs);
    if inputs != [] { FirstIsFine(env, inputs); }
  }

  lemma NoPanicOnTwo(env: Env)
    requires RouteEnv(env)
    ensures !SomePanic(env, Init(false), [MsgText(), PubMsg()]) && !MayPanic(env, Init(false), MsgText())
  {
    hide *;
    var a, b := MsgText(), PubMsg();
    TwoBuffersConcat(a, b);
    NoPanicOnThem(env, [a, b]);
  }

  lemma TwoBuffersConcat(a: Bytes, b: Bytes)
    ensures Concat([a, b]) == a + b
  {
    assert [a, b][1..] == [b] && [b][1..] == [];
    assert Concat([b]) == b + [];
  }

  lemma FirstIsFine(env: Env, inputs: seq<Bytes>)
    requires inputs != [] && !SomePanic(env, Init(false), inputs)
    ensures !MayPanic(env, Init(false), inputs[0])
  {
    assert inputs[..0] == [] && Reread(Init(false), []) == Init(false);
    assert !PanicsAt(env, Init(false), inputs, 0, [], []);
  }

  lemma SecondIsFine(env: Env, a: Bytes, b: Bytes, t: PS, x: Bytes)
    requires !SomePanic(env, Init(false), [a, b]) && t == Run(env, Init(false), a) && AtStart(t) && !t.closed
    ensures !MayPanic(env, Reread(t, x), b)
  {
    var inputs, mem := [a, b], [[]];
    assert inputs[..1] == [a] && Reread(Init(false), []) == Init(false);
    OneBuffer(env, Init(false), a, []);
    assert !PanicsAt(env, Init(false), inputs, 1, mem, x);
  }

  /** The connection between the two messages. */
  function BetweenThem(shown: Bytes): PS { Init(false).(log := [FirstCall()], stale := Seen(shown)) }

  lemma AfterFirst(env: Env, x: Bytes)
    requires RouteEnv(env)
    ensures Run(env, Init(false), MsgText()) == BetweenThem(Sid())
    ensures Reread(Init(false), x) == Init(false) && ReadOnce(env, Init(false), x, MsgText()) == BetweenThem(Sid())
  {
    TheMsg();
    assert Init(false).log + [FirstCall()] == [FirstCall()];
    assert Ready(Init(false)) && Reread(Init(false), x) == Init(false) && Cut(BetweenThem(Sid())) == BetweenThem(Sid());
    hide Msg, MsgText, Print, Printable, Sid, Meaning, FirstCall, Run, Cut, SidBehind;
    RoundTrip(env, Init(false), Msg());
  }

  lemma AfterSecond(env: Env, x: Bytes)
    requires RouteEnv(env)
    ensures Run(env, BetweenThem(x), PubMsg()) == BetweenThem(x).(log := [FirstCall(), SecondCall(x)])
  {
    ThePub();
    hide PubMsg, PubBytes, FirstCall, SecondCall, PubCall, Run;
    PubRun(env, BetweenThem(x), "a", None, "b");
    assert [FirstCall()] + [SecondCall(x)] == [FirstCall(), SecondCall(x)];
  }

  lemma BothCalls(env: Env)
    requires RouteEnv(env)
    ensures Run(env, Init(false), MsgText() + PubMsg()) == BetweenThem(Sid()).(log := [FirstCall(), SecondCall(Sid())])
  {
    TheMsg();
    hide Msg, MsgText, PubMsg, Sid, FirstCall, SecondCall, Run;
    AfterFirst(env, []);
    AfterSecond(env, Sid());
    RunAppend(env, Init(false), MsgText(), PubMsg());
  }

  /** Both messages in one read. */
  method InOneRead(env: Env, room: array<char>) returns (c: Client)
    requires RouteEnv(env) && 34 <= room.Length < TWO63
    modifies room
    ensures c.calls == [FirstCall(), SecondCall(Sid())]
  {
    c := new Client(env, false, room);
    var input := MsgText() + PubMsg();
    assert |input| == 34;
    hide MsgText, PubMsg, Sid, MayPanic, Run, Cut;
    NoPanicOnThem(env, [input]);
    BothCalls(env);
    var v;
    ghost var x;
    ghost var s := c.Now();
    v, x := ReadOne(c, input);
    assert Reread(s, x) == s;
    assert c.told == [FirstCall(), SecondCall(Sid())];
    assert Tells(c.calls[0], c.told[0]) && Tells(c.calls[1], c.told[1]);
  }

  /** A read buffer after the first read. */
  predicate HoldsFirst(room: Bytes) {
    22 <= |room| && room[..22] == MsgText() && forall k :: 22 <= k < |room| ==> room[k] == '\0'
  }

  /** Only one byte of it begins such a sid. */
  lemma OnlyThere(room: Bytes, off: nat)
    requires HoldsFirst(room) && off + 9 <= |room| && room[off..off + 9] == Sid()
    ensures off == 6 && Overwritten(room, PubMsg())[6..15] == LeftThere()
  {
    assert Sid()[0] == 'Q' && room[off] == room[off..off + 9][0];
    assert off < 22 ==> room[..22][off] == 'Q';
    forall k | 0 <= k < 9 ensures Overwritten(room, PubMsg())[6..15][k] == LeftThere()[k] {
      if k >= 6 { assert room[..22][6 + k] == LeftThere()[k]; }
    }
  }

  /** After the first of two reads. */
  ghost predicate FirstRead(c: Client)
    reads c, c.owned, c.room
  {
    c.Idle() && c.room.Length < TWO63 && HoldsFirst(c.room[..]) && RouteEnv(c.env) && c.Now() == BetweenThem(Sid())
  }

  lemma FirstHeld(room: Bytes)
    requires 34 <= |room| && forall k :: 0 <= k < |room| ==> room[k] == '\0'
    ensures HoldsFirst(Overwritten(room, MsgText())) && |MsgText()| == 22
  {
  }

  /** Before the first read. */
  ghost predicate NewConnection(c: Client)
    reads c, c.owned, c.room
  {
    && c.Idle() && RouteEnv(c.env) && c.Now() == Init(false) && 34 <= c.room.Length < TWO63
    && forall k :: 0 <= k < c.room.Length ==> c.room[k] == '\0'
  }

  method FirstOfTwo(c: Client)
    requires NewConnection(c)
    modifies c, c.owned, c.room
    ensures fresh(c.owned - old(c.owned)) && FirstRead(c)
  {
    FirstHeld(c.room[..]);
    assert c.ps.st != Arg(InfoLine);
    NoPanicOnTwo(c.env);
    hide MsgText, Sid, FirstCall, RouteEnv, BetweenThem, HoldsFirst, Overwritten;
    hide MayPanic, Run, SomePanic, Reread, ReadOnce, Client.Idle, Client.Now, Client.StaleNow, Client.Logged;
    var v;
    ghost var x;
    v, x := ReadOne(c, MsgText());
    AfterFirst(c.env, x);
    Unfailing(Sid());
  }

  lemma Unfailing(shown: Bytes)
    ensures BetweenThem(shown).err.None?
  {
  }

  lemma ToldThem(calls: seq<Op>, shown: Bytes)
    requires AllTold(calls, [FirstCall(), SecondCall(shown)])
    ensures calls == [FirstCall(), SecondCall(shown)]
  {
    assert Tells(calls[0], FirstCall()) && Tells(calls[1], SecondCall(shown));
  }

  method SecondOfTwo(c: Client)
    requires FirstRead(c)
    modifies c, c.owned, c.room
    ensures c.calls == [FirstCall(), SecondCall(LeftThere())]
  {
    ghost var sid := c.ps.pa.sid;
    assert c.StaleNow() == Seen(Sid()) && |Sid()| == 9 && |LeftThere()| == 9;
    OnlyThere(c.room[..], sid.off);
    SecondCalls(c.env, c.Now(), LeftThere());
    hide PubMsg, Sid, FirstCall, SecondCall, LeftThere, RouteEnv, BetweenThem, HoldsFirst;
    hide MayPanic, Run, SomePanic, Reread, AllTold;
    var v;
    ghost var x;
    v, x := ReadOne(c, PubMsg());
    assert x == LeftThere();
    assert c.told == [FirstCall(), SecondCall(LeftThere())];
    ToldThem(c.calls, LeftThere());
  }

  lemma SecondCalls(env: Env, t: PS, x: Bytes)
    requires RouteEnv(env) && t == BetweenThem(Sid()) && |x| == 9
    ensures !MayPanic(env, Reread(t, x), PubMsg()) && |PubMsg()| == 12
    ensures var u := Run(env, Reread(t, x), PubMsg());
            u.err.None? && u.log == [FirstCall(), SecondCall(x)] && ReadOnce(env, t, x, PubMsg()) == u
  {
    assert |PubMsg()| == 12 && AtStart(t) && !t.closed && Reread(t, x) == BetweenThem(x);
    NoPanicOnTwo(env);
    AfterFirst(env, []);
    hide PubMsg, MsgText, Sid, FirstCall, SecondCall, RouteEnv, MayPanic, Run, SomePanic;
    SecondIsFine(env, MsgText(), PubMsg(), t, x);
    AfterSecond(env, x);
  }

  /** A read between the two, into the same buffer. */
  method InTwoReads(env: Env, room: array<char>) returns (c: Client)
    requires RouteEnv(env) && 34 <= room.Length < TWO63 && forall k :: 0 <= k < room.Length ==> room[k] == '\0'
    modifies room
    ensures c.calls == [FirstCall(), SecondCall(LeftThere())]
  {
    c := new Client(env, false, room);
    FirstOfTwo(c);
    SecondOfTwo(c);
  }

  // ----- who gets the second message -----

  lemma BothSids()
    ensures RouteSid.Decode(Sid()) == RouteSid.Queued(1, "x") && RouteSid.Decode(LeftThere()) == RouteSid.NotQueued
  {
    assert Decimal(1) == "1";
    assert RouteSid.Encode(true, 1, "x") == Sid();
    RouteSid.RoundTrip(true, 1, "x");
    assert LeftThere()[0] != RouteSid.QRSID[0];
  }

  /** In one read the queue subscription of the first message gets the second, too, or nobody does; in two
      reads the plain subscriptions of clients that match do, as planned. */
  lemma OtherReaders(clients: Clients, r: seq<Sub>, one: seq<Sub>, two: seq<Sub>)
    requires r != [] && Delivers(true, Named(clients, Sid()), r, one)
             && Delivers(true, Named(clients, LeftThere()), r, two)
    ensures one == if 1 in clients && "x" in clients[1] then [clients[1]["x"]] else []
    ensures IsPlan(true, r, two)
  {
    BothSids();
  }
}
