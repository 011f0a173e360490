/** The pubArg struct of server/parser.go and the two methods of server/client.go that fill it:
    its fields are windows of the argument line. */
module PubArgs {
  import opened Base
  import opened Args
  import opened Slices
  import opened Protocol

  datatype ArgSlices = ArgSlices(subject: Slice, reply: Slice, sid: Slice, szb: Slice, size: int)

  const NO_ARGS := ArgSlices(NilSlice, NilSlice, NilSlice, NilSlice, 0)

  /** What `p` stands for while its windows lie in `home`, which shows `h`; `p.sid` is stale
      unless `sidLive`. */
  ghost predicate Denotes(p: ArgSlices, sidLive: bool, home: Slice, h: Bytes, pa: Pa) {
    && Shows(p.subject, home, h, pa.subject)
    && Shows(p.szb, home, h, pa.szb)
    && (match pa.reply case None => p.reply == NilSlice case Some(x) => Shows(p.reply, home, h, x))
    && sidLive == pa.sid.Some?
    && (sidLive ==> Shows(p.sid, home, h, pa.sid.value))
    && p.size == pa.size
  }

  /** A larger window denotes the same. */
  lemma DenotesIn(p: ArgSlices, sidLive: bool, arg: Slice, a: Bytes, home: Slice, h: Bytes, pa: Pa)
    requires Denotes(p, sidLive, arg, a, pa) && Shows(arg, home, h, a)
    ensures Denotes(p, sidLive, home, h, pa)
  {
    ShownFurther(p.subject, arg, a, home, h, pa.subject);
    ShownFurther(p.szb, arg, a, home, h, pa.szb);
    if pa.reply.Some? { ShownFurther(p.reply, arg, a, home, h, pa.reply.value); }
    if sidLive { ShownFurther(p.sid, arg, a, home, h, pa.sid.value); }
  }

  /** The bytes the windows of `p` hold. */
  ghost function Read(p: ArgSlices, sidLive: bool): Pa
    requires p.subject.Valid() && p.reply.Valid() && p.szb.Valid() && (sidLive ==> p.sid.Valid())
    reads Arrays(p.subject), Arrays(p.reply), Arrays(p.szb), Arrays(p.sid)
  {
    Pa(p.subject.Val(), if p.reply.Slice? then Some(p.reply.Val()) else None,
       if sidLive then Some(p.sid.Val()) else None, p.szb.Val(), p.size)
  }

  ghost function Arrays(s: Slice): set<array<char>> { if s.Slice? then {s.arr} else {} }

  lemma DenotedIsRead(p: ArgSlices, sidLive: bool, home: Slice, pa: Pa)
    requires home.Slice? && home.Valid() && Denotes(p, sidLive, home, home.Val(), pa)
    ensures p.subject.Valid() && p.reply.Valid() && p.szb.Valid() && (sidLive ==> p.sid.Valid())
    ensures Read(p, sidLive) == pa
  {
    ShownValue(p.subject, home, pa.subject);
    ShownValue(p.szb, home, pa.szb);
    if pa.reply.Some? { ShownValue(p.reply, home, pa.reply.value); }
    if sidLive { ShownValue(p.sid, home, pa.sid.value); }
  }

  /** clonePubArg: the same arguments as windows of `a`, where their bytes were put one after
      the other. */
  function Cloned(p: ArgSlices, a: Slice): ArgSlices
    requires a.Slice? && a.len == p.subject.Len() + p.reply.Len() + p.sid.Len() + p.szb.Len()
  {
    var i := p.subject.Len();
    var j := i + p.reply.Len();
    var k := j + p.sid.Len();
    ArgSlices(Window(a, 0, i),
              if p.reply.Slice? then Window(a, i, j) else NilSlice,
              if p.sid.Slice? then Window(a, j, k) else NilSlice,
              Window(a, k, a.len), p.size)
  }

  lemma ClonedDenotes(p: ArgSlices, sidLive: bool, home: Slice, h: Bytes, pa: Pa, a: Slice, line: Bytes, sid: Bytes)
    requires Denotes(p, sidLive, home, h, pa)
    requires |sid| == p.sid.Len() && (sidLive ==> sid == pa.sid.value)
    requires line == pa.subject + (if pa.reply.Some? then pa.reply.value else []) + sid + pa.szb
    requires a.Slice? && a.len == |line|
    ensures a.len == p.subject.Len() + p.reply.Len() + p.sid.Len() + p.szb.Len()
    ensures Denotes(Cloned(p, a), sidLive, a, line, pa)
  {
    var reply := if pa.reply.Some? then pa.reply.value else [];
    FourParts(pa.subject, reply, sid, pa.szb);
    assert |pa.subject| == p.subject.Len() && |reply| == p.reply.Len() && |pa.szb| == p.szb.Len();
    ClonedShows(p, a, line, pa.subject, reply, sid, pa.szb);
  }

  /** The windows of the copy show its parts. */
  lemma ClonedShows(p: ArgSlices, a: Slice, line: Bytes, x: Bytes, y: Bytes, z: Bytes, w: Bytes)
    requires line == x + y + z + w && a.Slice? && a.len == |line|
    requires |x| == p.subject.Len() && |y| == p.reply.Len() && |z| == p.sid.Len() && |w| == p.szb.Len()
    ensures var q := Cloned(p, a);
            && Shows(q.subject, a, line, x) && Shows(q.szb, a, line, w)
            && (p.reply.Slice? ==> Shows(q.reply, a, line, y)) && (p.sid.Slice? ==> Shows(q.sid, a, line, z))
  {
    FourParts(x, y, z, w);
  }

  lemma FourParts(x: Bytes, y: Bytes, z: Bytes, w: Bytes)
    ensures var all := x + y + z + w;
            var i, j, k := |x|, |x| + |y|, |x| + |y| + |z|;
            all[0..i] == x && all[i..j] == y && all[j..k] == z && all[k..|all|] == w
  {
  }

  /** processPub: a PUB line leaves the sid of an earlier line in place. */
  method ProcessPub(env: Env, arg: Slice, was: ArgSlices) returns (p: ArgSlices, err: Option<Error>)
    requires arg.Slice? && arg.Valid()
    ensures p.sid == was.sid
    ensures match PubPa(env, arg.Val())
            case Ok(pa) => err == None && Denotes(p, false, arg, arg.Val(), pa)
            case Err(e) => err == Some(e)
  {
    var args := SplitArg(arg);
    p, err := FromPubFields(env, args, was, arg, arg.Val(), Fields(arg.Val()));
  }

  method FromPubFields(env: Env, args: seq<Slice>, was: ArgSlices, ghost arg: Slice, ghost a: Bytes,
                       ghost f: seq<Bytes>)
    returns (p: ArgSlices, err: Option<Error>)
    requires arg.Slice? && arg.Valid() && a == arg.Val() && AllShow(args, arg, a, f)
    ensures p.sid == was.sid
    ensures match PubFields(env, f)
            case Ok(pa) => err == None && Denotes(p, false, arg, a, pa)
            case Err(e) => err == Some(e)
  {
    forall k | 0 <= k < |args| ensures args[k].Valid() && args[k].Val() == f[k] {
      assert Shows(args[k], arg, a, f[k]);
      ShownValue(args[k], arg, f[k]);
    }
    assert forall k :: 0 <= k < |args| ==> Shows(args[k], arg, a, f[k]);
    if |args| == 2 {
      var size := ParseSizeLoop(args[1].Val());
      p := ArgSlices(args[0], NilSlice, was.sid, args[1], size);
    } else if |args| == 3 {
      var size := ParseSizeLoop(args[2].Val());
      p := ArgSlices(args[0], args[1], was.sid, args[2], size);
    } else {
      return was, Some(BadPub);
    }
    if p.size < 0 {
      return p, Some(BadPub);
    }
    if env.mpay > 0 && p.size > env.mpay {
      return p, Some(MaxPayload);
    }
    err := None;
  }

  /** processMsgArgs */
  method ProcessMsgArgs(arg: Slice, was: ArgSlices) returns (p: ArgSlices, err: Option<Error>)
    requires arg.Slice? && arg.Valid()
    ensures match MsgPa(arg.Val())
            case Ok(pa) => err == None && Denotes(p, true, arg, arg.Val(), pa)
            case Err(e) => err == Some(e) && p.sid == was.sid
  {
    var args := SplitArg(arg);
    p, err := FromMsgFields(args, was, arg, arg.Val(), Fields(arg.Val()));
  }

  method FromMsgFields(args: seq<Slice>, was: ArgSlices, ghost arg: Slice, ghost a: Bytes, ghost f: seq<Bytes>)
    returns (p: ArgSlices, err: Option<Error>)
    requires arg.Slice? && arg.Valid() && a == arg.Val() && AllShow(args, arg, a, f)
    ensures match MsgFields(f)
            case Ok(pa) => err == None && Denotes(p, true, arg, a, pa)
            case Err(e) => err == Some(e) && p.sid == was.sid
  {
    forall k | 0 <= k < |args| ensures args[k].Valid() && args[k].Val() == f[k] {
      assert Shows(args[k], arg, a, f[k]);
      ShownValue(args[k], arg, f[k]);
    }
    assert forall k :: 0 <= k < |args| ==> Shows(args[k], arg, a, f[k]);
    if |args| == 3 {
      var size := ParseSizeLoop(args[2].Val());
      p := was.(reply := NilSlice, szb := args[2], size := size);
    } else if |args| == 4 {
      var size := ParseSizeLoop(args[3].Val());
      p := was.(reply := args[2], szb := args[3], size := size);
    } else {
      return was, Some(BadMsg);
    }
    if p.size < 0 {
      return p, Some(BadMsg);
    }
    p := p.(subject := args[0], sid := args[1]);
    err := None;
  }
}
