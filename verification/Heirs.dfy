/** Messages that are taken for the sid of an earlier MSG line (server/client.go:379-431, 712).
    A read in between changes what that sid shows, and with it the call. */
module Heirs {
  import opened Base
  import opened Args
  import opened Protocol

  /** A state reached without any cut: the sid in the record lies in the read buffer. */
  predicate InOneBuffer(u: PS) {
    !u.saved && !u.msaved && !u.stale.Hidden? && (u.stale.Seen? ==> u.stale.bytes != [])
  }

  lemma SidIsNotEmpty(arg: Bytes)
    requires MsgPa(arg).Ok?
    ensures MsgPa(arg).value.sid.Some? && MsgPa(arg).value.sid.value != []
  {
    FieldsAreWordy(arg);
  }

  lemma StepInOneBuffer(env: Env, u: PS, b: char)
    requires InOneBuffer(u)
    ensures InOneBuffer(Step(env, u, b))
  {
    if u.err.None? && u.st.Arg? && b == '\n' {
      var o := OutcomeOf(env, u.st.of, ArgOf(u));
      assert Step(env, u, b) == EndArg(env, u, o);
      if u.st.of.MsgLine? && o.Body? { SidIsNotEmpty(ArgOf(u)); }
    }
  }

  lemma {:induction false} RunInOneBuffer(env: Env, u: PS, bytes: Bytes)
    requires InOneBuffer(u)
    ensures InOneBuffer(Run(env, u, bytes))
    decreases |bytes|
  {
    if bytes != [] {
      StepInOneBuffer(env, u, bytes[0]);
      RunInOneBuffer(env, Step(env, u, bytes[0]), bytes[1..]);
    }
  }

  /** The newline that hands over a message without a sid of its own, with one in the record. */
  predicate HandsOver(u: PS, b: char) {
    u.err.None? && u.st.MsgEnd? && b == '\n' && |u.msg| == u.pa.size + 1 && !Inherited(u).NoSid?
  }

  // ----- the operation it ends -----

  predicate AtStart(u: PS) { u.err.None? && u.st == In(OpStart) }

  /** Where the last operation began. */
  ghost function Began(env: Env, s: PS, bytes: Bytes): (m: nat)
    ensures m <= |bytes|
    decreases |bytes|
  {
    if bytes == [] || AtStart(Run(env, s, bytes)) then |bytes| else Began(env, s, bytes[..|bytes| - 1])
  }

  /** The operation has not ended before the end of `t`. */
  ghost predicate Unended(env: Env, v: PS, t: Bytes) {
    forall j :: 0 < j <= |t| ==> !AtStart(Run(env, v, t[..j]))
  }

  lemma {:induction false} SinceBegan(env: Env, s: PS, bytes: Bytes)
    requires AtStart(s)
    ensures var m := Began(env, s, bytes);
            AtStart(Run(env, s, bytes[..m])) && Unended(env, Run(env, s, bytes[..m]), bytes[m..])
    decreases |bytes|
  {
    var m := Began(env, s, bytes);
    if m == |bytes| {
      assert bytes[..m] == bytes && bytes[m..] == [];
    } else {
      var most := bytes[..|bytes| - 1];
      SinceBegan(env, s, most);
      var v, t := Run(env, s, bytes[..m]), bytes[m..];
      assert most[..m] == bytes[..m];
      forall j | 0 < j <= |t| ensures !AtStart(Run(env, v, t[..j])) {
        if j == |t| {
          assert t[..j] == t && bytes == bytes[..m] + t;
          RunAppend(env, s, bytes[..m], t);
        } else {
          assert most[m..][..j] == t[..j];
        }
      }
    }
  }

  /** `w` is `u` with a sid in the record that shows `y`. */
  predicate Twins(u: PS, w: PS, z: Stale, y: Bytes) { w == u.(stale := Seen(y)) && u.stale == z }

  /** The operation has ended, or goes on with the sid as it was or with one of its own. */
  predicate StillTwins(u: PS, w: PS, z: Stale, y: Bytes, closed: bool) {
    u.err.Some? || AtStart(u) || (IsBody(u.st) && u.pa.sid.Some?) || (Twins(u, w, z, y) && u.closed == closed)
  }

  lemma TwinLineEnd(env: Env, u: PS, w: PS, z: Stale, y: Bytes, o: Outcome)
    requires u.err.None? && Twins(u, w, z, y)
    ensures StillTwins(EndArg(env, u, o), EndArg(env, w, o), z, y, u.closed)
  {
  }

  lemma TwinInBody(u: PS, w: PS, z: Stale, y: Bytes, b: char)
    requires u.err.None? && Twins(u, w, z, y) && IsBody(u.st)
    ensures u.st.MsgPayload? ==> StillTwins(StepPayload(u, b), StepPayload(w, b), z, y, u.closed)
    ensures u.st.MsgEnd? ==> StillTwins(StepEnd(u, b), StepEnd(w, b), z, y, u.closed)
  {
  }

  lemma TwinInLine(env: Env, u: PS, w: PS, z: Stale, y: Bytes, b: char)
    requires u.err.None? && Twins(u, w, z, y) && !IsBody(u.st) && !(u.st.Arg? && b == '\n')
    ensures StillTwins(Step(env, u, b), Step(env, w, b), z, y, u.closed)
  {
    hide Keyword;
  }

  /** Up to the end of an operation two states that differ in what the sid shows stay so, unless a
      MSG line brings its own. */
  lemma TwinStep(env: Env, u: PS, w: PS, z: Stale, y: Bytes, b: char)
    requires u.err.None? && Twins(u, w, z, y)
    ensures StillTwins(Step(env, u, b), Step(env, w, b), z, y, u.closed)
  {
    hide OutcomeOf, EndArg, StillTwins, StepPayload, StepEnd;
    if u.st.Arg? && b == '\n' {
      assert ArgOf(u) == ArgOf(w);
      TwinLineEnd(env, u, w, z, y, OutcomeOf(env, u.st.of, ArgOf(u)));
    } else if IsBody(u.st) {
      TwinInBody(u, w, z, y, b);
    } else {
      TwinInLine(env, u, w, z, y, b);
    }
  }

  lemma BodyStaysOwn(env: Env, u: PS, b: char)
    requires u.err.None? && IsBody(u.st) && u.pa.sid.Some?
    ensures var t := Step(env, u, b); t.err.Some? || AtStart(t) || (IsBody(t.st) && t.pa.sid.Some?)
  {
  }

  lemma {:induction false} TwinRun(env: Env, v: PS, y: Bytes, t: Bytes)
    requires AtStart(v) && Unended(env, v, t)
    ensures var u := Run(env, v, t);
            u.err.Some? || (IsBody(u.st) && u.pa.sid.Some?) ||
            (Twins(u, Run(env, v.(stale := Seen(y)), t), v.stale, y) && u.closed == v.closed)
    decreases |t|
  {
    if t != [] {
      var n := |t| - 1;
      var most := t[..n];
      assert t == most + [t[n]] && t[..|t|] == t;
      forall j | 0 < j <= n ensures !AtStart(Run(env, v, most[..j])) { assert most[..j] == t[..j]; }
      TwinRun(env, v, y, most);
      RunSnoc(env, v, most, t[n]);
      RunSnoc(env, v.(stale := Seen(y)), most, t[n]);
      var u := Run(env, v, most);
      assert !AtStart(Run(env, v, t[..|t|]));
      if u.err.None? && IsBody(u.st) && u.pa.sid.Some? {
        BodyStaysOwn(env, u, t[n]);
      } else if u.err.None? {
        TwinStep(env, u, Run(env, v.(stale := Seen(y)), most), v.stale, y, t[n]);
      }
    }
  }

  /** Other bytes, and as many. */
  function Other(x: Bytes): (y: Bytes)
    requires x != []
    ensures |y| == |x| && y != x
  {
    var y := [if x[0] == 'x' then 'y' else 'x'] + x[1..];
    assert y[0] != x[0];
    y
  }

  /** A read that begins where the operation of such a message does, and leaves other bytes to see of
      the sid, makes another call of it. */
  lemma OtherCall(env: Env, s: PS, bytes: Bytes, k: nat) returns (m: nat, x: Bytes)
    requires AtStart(s) && InOneBuffer(s) && k < |bytes|
    requires !Run(env, s, bytes[..k]).closed && HandsOver(Run(env, s, bytes[..k]), bytes[k])
    ensures m <= k && AtStart(Run(env, s, bytes[..m])) && !Run(env, s, bytes[..m]).closed
    ensures var v := Run(env, s, bytes[..m]);
            Run(env, Reread(v, x), bytes[m..k + 1]).log != Run(env, s, bytes[..k + 1]).log
  {
    var most, c := bytes[..k], bytes[k];
    m := Began(env, s, most);
    SinceBegan(env, s, most);
    var v, t := Run(env, s, most[..m]), most[m..];
    RunInOneBuffer(env, s, most[..m]);
    assert most == most[..m] + t && bytes[..m] == most[..m] && bytes[m..k + 1] == t + [c]
        && bytes[..k + 1] == most + [c];
    RunAppend(env, s, most[..m], t);
    x := if v.stale.Seen? then Other(v.stale.bytes) else [];
    TwinRun(env, v, x, t);
    var u, w := Run(env, v, t), Run(env, v.(stale := Seen(x)), t);
    RunSnoc(env, s, most, c);
    RunSnoc(env, Reread(v, x), t, c);
    assert Twins(u, w, v.stale, x) && v.stale.Seen?;
    assert Step(env, u, c).log[|u.log|] != Step(env, w, c).log[|u.log|];
  }
}
