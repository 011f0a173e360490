/** The read loop of server/client.go: one read buffer, overwritten by every read. */
module ReadLoop {
  import opened Base
  import opened Args
  import opened Slices
  import opened Protocol
  import opened Heirs
  import opened CutInvariance
  import opened Hearing
  import opened Parser

  lemma {:induction false} RunCutsSnoc(env: Env, s: PS, chunks: seq<Bytes>, mem: seq<Bytes>, c: Bytes, x: Bytes)
    requires |mem| == |chunks|
    ensures var t := RunCuts(env, s, chunks, mem);
            RunCuts(env, s, chunks + [c], mem + [x]) == if Over(t) then t else ReadOnce(env, t, x, c)
    decreases |chunks|
  {
    var all, more := chunks + [c], mem + [x];
    if chunks == [] {
      assert all == [c] && more == [x];
      OneBuffer(env, s, c, x);
    } else if !Over(s) {
      assert all[1..] == chunks[1..] + [c] && more[1..] == mem[1..] + [x];
      RunCutsSnoc(env, ReadOnce(env, s, mem[0], chunks[0]), chunks[1..], mem[1..], c, x);
    }
  }

  /** What an ended connection leaves unread does not matter. */
  lemma {:induction false} RunCutsOver(env: Env, s: PS, a: seq<Bytes>, b: seq<Bytes>, mem: seq<Bytes>)
    requires |mem| == |a + b| && Over(RunCuts(env, s, a, mem[..|a|]))
    ensures RunCuts(env, s, a + b, mem) == RunCuts(env, s, a, mem[..|a|])
    decreases |a|
  {
    if a != [] && !Over(s) {
      assert (a + b)[1..] == a[1..] + b && mem[1..][..|a| - 1] == mem[..|a|][1..];
      RunCutsOver(env, ReadOnce(env, s, mem[0], a[0]), a[1..], b, mem[1..]);
    }
  }

  /** No read ends inside the argument of an INFO line. */
  ghost predicate NoCutInInfo(env: Env, s: PS, inputs: seq<Bytes>) {
    forall k: nat, mem: seq<Bytes> :: k == |mem| < |inputs| ==> OutsideInfo(RunCuts(env, s, inputs[..k], mem))
  }

  predicate OutsideInfo(t: PS) { Over(t) || t.st != Arg(InfoLine) }

  /** A panic that some read of `inputs` may meet. */
  ghost predicate SomePanic(env: Env, s: PS, inputs: seq<Bytes>) {
    exists k: nat, mem: seq<Bytes>, x: Bytes :: PanicsAt(env, s, inputs, k, mem, x)
  }

  ghost predicate PanicsAt(env: Env, s: PS, inputs: seq<Bytes>, k: nat, mem: seq<Bytes>, x: Bytes) {
    k == |mem| < |inputs| && var t := RunCuts(env, s, inputs[..k], mem);
        !Over(t) && MayPanic(env, Reread(t, x), inputs[k])
  }

  /** What the read buffer `room` shows after a read of `input`. */
  function Overwritten(room: Bytes, input: Bytes): Bytes
    requires |input| <= |room|
  {
    input + room[|input|..]
  }

  /** One read into the buffer, and the call of parse on what was read.  `x` is what the read leaves
      to see of a sid there. */
  method ReadOne(c: Client, input: Bytes) returns (v: Verdict, ghost x: Bytes)
    requires c.Idle() && |input| <= c.room.Length < TWO63 && c.ps.st != Arg(InfoLine)
    modifies c, c.owned, c.room
    ensures fresh(c.owned - old(c.owned)) && c.room[..] == Overwritten(old(c.room[..]), input)
    ensures v.Fine? ==> c.Idle() && c.Now() == ReadOnce(c.env, old(c.Now()), x, input)
    ensures v.Failed? ==> var s := Run(c.env, Reread(old(c.Now()), x), input);
                          s.err == Some(v.error) && s.log == c.told && c.Logged()
    ensures v.Panic? ==> MayPanic(c.env, Reread(old(c.Now()), x), input)
    ensures old(c.StaleNow()).Seen? ==> var sid := old(c.ps.pa.sid); x == c.room[sid.off..sid.off + sid.len]
  {
    x := Fill(c, input);
    var buf := Slice(c.room, 0, |input|);
    assert buf.Val() == input;
    v := c.Parse(buf, input);
  }

  method Fill(c: Client, input: Bytes) returns (ghost x: Bytes)
    requires c.Idle() && |input| <= c.room.Length
    modifies c.room
    ensures c.Idle() && c.room[..] == Overwritten(old(c.room[..]), input)
    ensures c.Now() == Reread(old(c.Now()), x)
    ensures c.StaleNow().Seen? ==> var sid := c.ps.pa.sid; x == c.room[sid.off..sid.off + sid.len]
    ensures c.StaleNow().Seen? <==> old(c.StaleNow()).Seen?
  {
    var room := c.room;
    assert room !in c.owned;
    hide Client.Idle;
    forall j | 0 <= j < |input| {
      room[j] := input[j];
    }
    x := if c.StaleNow().Seen? then c.ps.pa.sid.Val() else [];
  }

  lemma StillRead(env: Env, s: PS, inputs: seq<Bytes>, k: nat, mem: seq<Bytes>, t: PS)
    requires NoCutInInfo(env, s, inputs) && k == |mem| < |inputs| && t == RunCuts(env, s, inputs[..k], mem)
    requires !t.closed && t.err.None?
    ensures !Over(t) && t.st != Arg(InfoLine)
  {
    assert OutsideInfo(RunCuts(env, s, inputs[..k], mem));
  }

  lemma PanicsHere(env: Env, s: PS, inputs: seq<Bytes>, k: nat, mem: seq<Bytes>, x: Bytes, t: PS)
    requires k == |mem| < |inputs| && t == RunCuts(env, s, inputs[..k], mem) && !Over(t)
    requires MayPanic(env, Reread(t, x), inputs[k])
    ensures SomePanic(env, s, inputs)
  {
    assert PanicsAt(env, s, inputs, k, mem, x);
  }

  lemma NextRead(env: Env, s: PS, inputs: seq<Bytes>, k: nat, mem: seq<Bytes>, x: Bytes)
    requires k == |mem| < |inputs| && !Over(RunCuts(env, s, inputs[..k], mem))
    ensures var t := RunCuts(env, s, inputs[..k], mem);
            var u := Run(env, Reread(t, x), inputs[k]);
            RunCuts(env, s, inputs[..k + 1], mem + [x]) == Cut(u) && (u.err.Some? ==> Cut(u) == u)
  {
    assert inputs[..k + 1] == inputs[..k] + [inputs[k]];
    RunCutsSnoc(env, s, inputs[..k], mem, inputs[k], x);
  }

  /** Behind the end of the loop nothing is read. */
  lemma Unread(env: Env, s: PS, inputs: seq<Bytes>, k: nat, mem: seq<Bytes>) returns (all: seq<Bytes>)
    requires k == |mem| <= |inputs| && (k == |inputs| || Over(RunCuts(env, s, inputs[..k], mem)))
    ensures |all| == |inputs| && RunCuts(env, s, inputs, all) == RunCuts(env, s, inputs[..k], mem)
  {
    all := mem + seq(|inputs| - k, _ => []);
    assert inputs == inputs[..k] + inputs[k..] && all[..k] == mem;
    if k == |inputs| {
      assert inputs[..k] == inputs && all == mem;
    } else {
      RunCutsOver(env, s, inputs[..k], inputs[k..], all);
    }
  }

  /** The next read of a run that was in the state `s` at its beginning. */
  method ReadNext(c: Client, inputs: seq<Bytes>, k: nat, ghost s: PS, ghost mem: seq<Bytes>)
    returns (v: Verdict, ghost more: seq<Bytes>)
    requires c.Idle() && !c.closed && k == |mem| < |inputs| && |inputs[k]| <= c.room.Length < TWO63
    requires NoCutInInfo(c.env, s, inputs) && c.Now() == RunCuts(c.env, s, inputs[..k], mem)
    modifies c, c.owned, c.room
    ensures fresh(c.owned - old(c.owned)) && |more| == k + 1
    ensures v.Fine? ==> c.Idle() && c.Now() == RunCuts(c.env, s, inputs[..k + 1], more)
    ensures v.Failed? ==> RunCuts(c.env, s, inputs[..k + 1], more).err == Some(v.error)
    ensures !v.Panic? ==> c.Logged() && c.told == RunCuts(c.env, s, inputs[..k + 1], more).log
    ensures v.Panic? ==> SomePanic(c.env, s, inputs)
  {
    ghost var t, x := c.Now(), [];
    StillRead(c.env, s, inputs, k, mem, t);
    hide Run, RunCuts, MayPanic, Cut, AllTold, Reread, NoCutInInfo, SomePanic, Over;
    v, x := ReadOne(c, inputs[k]);
    more := mem + [x];
    if v.Panic? {
      PanicsHere(c.env, s, inputs, k, mem, x, t);
    } else {
      NextRead(c.env, s, inputs, k, mem, x);
    }
  }

  /** readLoop: all reads go through one buffer, until the connection is closed.  The connection does
      with them what the machine does with their bytes, cut as they are. */
  method ReadAll(c: Client, inputs: seq<Bytes>) returns (v: Verdict, ghost mem: seq<Bytes>)
    requires c.Idle() && !c.closed && (forall k :: 0 <= k < |inputs| ==> |inputs[k]| <= c.room.Length)
             && c.room.Length < TWO63
    requires NoCutInInfo(c.env, c.Now(), inputs)
    modifies c, c.owned, c.room
    ensures !v.Panic? ==> |mem| == |inputs| && c.Logged() && c.told == RunCuts(c.env, old(c.Now()), inputs, mem).log
    ensures v.Fine? ==> c.Idle() && c.Now() == RunCuts(c.env, old(c.Now()), inputs, mem)
    ensures v.Failed? ==> RunCuts(c.env, old(c.Now()), inputs, mem).err == Some(v.error)
    ensures v.Panic? ==> SomePanic(c.env, old(c.Now()), inputs)
  {
    ghost var s0 := c.Now();
    v, mem := Fine, [];
    assert inputs[..0] == [] && RunCuts(c.env, s0, [], []) == s0;
    hide RunCuts, AllTold, NoCutInInfo, SomePanic;
    var k := 0;
    while k < |inputs| && !c.closed
      invariant 0 <= k <= |inputs| && |mem| == k && c.Idle() && fresh(c.owned - old(c.owned)) && v.Fine?
      invariant c.Now() == RunCuts(c.env, s0, inputs[..k], mem)
    {
      v, mem := ReadNext(c, inputs, k, s0, mem);
      if v.Panic? {
        return;
      }
      k := k + 1;
      if v.Failed? {
        break;
      }
    }
    mem := Unread(c.env, s0, inputs, k, mem);
  }

  // ----- quiet streams -----

  /** A message that is taken for the sid of an earlier one is not quiet. */
  lemma StepInheritsNothing(env: Env, u: PS, b: char)
    requires NoneInherits(u.log) && Quiet(env, u, b)
    ensures NoneInherits(Step(env, u, b).log)
  {
    var t := Step(env, u, b);
    if u.err.None? && u.st.MsgEnd? {
      assert HandsOver(u, b) ==> |t.log| > |u.log|;
    } else if u.err.None? && u.st.Arg? {
      var o := OutcomeOf(env, u.st.of, ArgOf(u));
      assert b == '\n' ==> t == EndArg(env, u, o);
    }
  }

  lemma {:induction false} QuietInheritsNothing(env: Env, u: PS, bytes: Bytes)
    requires NoneInherits(u.log) && QuietStream(env, u, bytes)
    ensures NoneInherits(Run(env, u, bytes).log)
    decreases |bytes|
  {
    if bytes != [] {
      StepInheritsNothing(env, u, bytes[0]);
      QuietInheritsNothing(env, Step(env, u, bytes[0]), bytes[1..]);
    }
  }

  /** Split invariance of the parser itself: on a new connection, the calls made for a quiet stream
      are those of the uncut stream, whatever the reads, and so is the error. */
  method Serve(env: Env, auth: bool, inputs: seq<Bytes>, room: array<char>) returns (c: Client, v: Verdict)
    requires (forall k :: 0 <= k < |inputs| ==> |inputs[k]| <= room.Length) && room.Length < TWO63
    requires NoCutInInfo(env, Init(auth), inputs) && QuietStream(env, Init(auth), Concat(inputs))
    modifies room
    ensures v.Fine? ==> Run(env, Init(auth), Concat(inputs)).err == None
    ensures v.Failed? ==> Run(env, Init(auth), Concat(inputs)).err == Some(v.error)
    ensures !v.Panic? ==> c.calls == Run(env, Init(auth), Concat(inputs)).log
  {
    c := new Client(env, auth, room);
    ghost var mem;
    v, mem := ReadAll(c, inputs);
    if !v.Panic? {
      QuietCutsFollow(env, Init(auth), Init(auth), inputs, mem);
      QuietInheritsNothing(env, Init(auth), Concat(inputs));
      ToldExactly(c.calls, c.told);
    }
  }
}
