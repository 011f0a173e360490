/** Subscription ids on a route (server/route.go:194-245). */
module RouteSid {
  import opened Base
  import opened Args

  const RSID := "RSID"
  const QRSID := "QRSID"

  /** routeSid: the id under which a subscription of client `cid` is known on the routes. */
  function Encode(queued: bool, cid: nat, sid: Bytes): Bytes {
    (if queued then QRSID else RSID) + (":" + (Decimal(cid) + (":" + sid)))
  }

  datatype Target = NotQueued | Queued(cid: nat, sid: Bytes)

  /** The whitespace of the regular expression, which counts the form feed. */
  predicate IsRegexpSpace(c: char) { c == '\t' || c == '\n' || c == '\U{000C}' || c == '\r' || c == ' ' }

  predicate NoRegexpSpace(s: Bytes) { forall k :: 0 <= k < |s| ==> !IsRegexpSpace(s[k]) }

  /** The longest prefix of digits, as \d+ takes it. */
  function Digits(s: Bytes): (d: Bytes)
    ensures d <= s && AllDigits(d)
  {
    if s == [] || !IsDigit(s[0]) then [] else [s[0]] + Digits(s[1..])
  }

  /** The longest prefix without whitespace, as [^\s]+ takes it. */
  function Solid(s: Bytes): (d: Bytes)
    ensures d <= s && NoRegexpSpace(d)
  {
    if s == [] || IsRegexpSpace(s[0]) then [] else [s[0]] + Solid(s[1..])
  }

  /** A match of QRSID:(\d+):([^\s]+) at the start of `s`. */
  function MatchAt(s: Bytes): Option<(Bytes, Bytes)> {
    if !(QRSID + ":" <= s) then None
    else
      var t := s[6..];
      var d := Digits(t);
      if d == [] || |t| == |d| || t[|d|] != ':' then None
      else
        var w := Solid(t[|d| + 1..]);
        if w == [] then None else Some((d, w))
  }

  /** The leftmost match. */
  function FindSubmatch(s: Bytes): Option<(Bytes, Bytes)> {
    if MatchAt(s).Some? then MatchAt(s) else if s == [] then None else FindSubmatch(s[1..])
  }

  /** The reading part of routeSidQueueSubscriber; parseInt64 cast to a 64-bit unsigned id. */
  function Decode(rsid: Bytes): Target {
    if !(QRSID <= rsid) then NotQueued
    else
      match FindSubmatch(rsid)
      case None => NotQueued
      case Some((d, sid)) => Queued(ParseSize(d) % TWO64, sid)
  }

  lemma {:induction false} DigitsOf(d: Bytes, rest: Bytes)
    requires AllDigits(d) && (rest == [] || !IsDigit(rest[0]))
    ensures Digits(d + rest) == d
  {
    if d == [] {
      assert d + rest == rest;
    } else {
      assert IsDigit(d[0]);
      DigitsOf(d[1..], rest);
      assert (d + rest)[1..] == d[1..] + rest;
    }
  }

  lemma {:induction false} SolidIsAll(s: Bytes)
    ensures Solid(s) == s <==> NoRegexpSpace(s)
  {
    if s != [] && !IsRegexpSpace(s[0]) {
      SolidIsAll(s[1..]);
      assert s == [s[0]] + s[1..];
      assert NoRegexpSpace(s) ==> NoRegexpSpace(s[1..]);
      assert NoRegexpSpace(s[1..]) ==> forall k :: 0 <= k < |s| ==> k == 0 || s[k] == s[1..][k - 1];
    }
  }

  lemma PrintedMatch(cid: nat, sid: Bytes)
    ensures var m := MatchAt(Encode(true, cid, sid));
            if Solid(sid) == [] then m == None else m == Some((Decimal(cid), Solid(sid)))
  {
    var s, d := Encode(true, cid, sid), Decimal(cid);
    var t := d + (":" + sid);
    assert s == (QRSID + ":") + t;
    assert s[6..] == t;
    DigitsOf(d, ":" + sid);
    assert t[|d|] == ':' && t[|d| + 1..] == sid;
  }

  /** A printed id of a queue subscription gives back the client and the sid, colons in the
      sid included, exactly when the sid has no whitespace; a printed id of a plain
      subscription is never taken for one of a queue subscription. */
  lemma RoundTrip(queued: bool, cid: nat, sid: Bytes)
    requires cid < TWO64 && sid != []
    ensures queued ==> (Decode(Encode(queued, cid, sid)) == Queued(cid, sid) <==> NoRegexpSpace(sid))
    ensures !queued ==> Decode(Encode(queued, cid, sid)) == NotQueued
  {
    var s := Encode(queued, cid, sid);
    if queued {
      PrintedMatch(cid, sid);
      SolidIsAll(sid);
      assert QRSID <= s;
      if Solid(sid) == [] {
        NoLaterMatch(s, cid, sid);
      } else {
        CidSurvives(cid);
        assert FindSubmatch(s) == Some((Decimal(cid), Solid(sid)));
      }
    } else {
      assert s[0] == 'R';
    }
  }

  /** The id of a plain subscription is never taken for one of a queue subscription. */
  lemma PlainIsNotQueued(cid: nat, sid: Bytes)
    ensures Decode(Encode(false, cid, sid)) == NotQueued
  {
    assert Encode(false, cid, sid)[0] == 'R';
  }

  /** The id of a queue subscription whose sid has whitespace behind its first bytes names the sid that
      ends there. */
  lemma DecodesShort(cid: nat, sid: Bytes)
    requires cid < TWO64 && Solid(sid) != []
    ensures Decode(Encode(true, cid, sid)) == Queued(cid, Solid(sid))
  {
    var s := Encode(true, cid, sid);
    PrintedMatch(cid, sid);
    CidSurvives(cid);
    assert QRSID <= s && FindSubmatch(s) == Some((Decimal(cid), Solid(sid)));
  }

  /** A form feed ends no word of a SUB line, but the sid in a route id. */
  lemma FormFeedInSid(cid: nat)
    requires cid < TWO64
    ensures NoSpace("a\U{000C}b") && Decode(Encode(true, cid, "a\U{000C}b")) == Queued(cid, "a")
  {
    var sid := "a\U{000C}b";
    assert sid[1..][0] == '\U{000C}' && Solid(sid[1..]) == [];
    assert Solid(sid) == ['a'] + Solid(sid[1..]);
    DecodesShort(cid, sid);
  }

  /** Where no match can start, none is found. */
  lemma {:induction false} NoneBefore(pre: Bytes, t: Bytes)
    requires 'Q' !in pre
    ensures FindSubmatch(pre + t) == FindSubmatch(t)
    decreases |pre|
  {
    if pre == [] {
      assert pre + t == t;
    } else {
      assert pre[0] in pre && (pre + t)[0] != QRSID[0] && (pre + t)[1..] == pre[1..] + t;
      NoneBefore(pre[1..], t);
    }
  }

  /** The leftmost match counts: behind a form feed, which ends no word of a SUB line, the sid can have the
      id of another subscription, and that one is named. */
  lemma NamesAnother(cid: nat, other: nat, sid: Bytes)
    requires other < TWO64 && Solid(sid) != []
    ensures Decode(Encode(true, cid, "\U{000C}" + Encode(true, other, sid))) == Queued(other, Solid(sid))
  {
    var inner := Encode(true, other, sid);
    var s := "\U{000C}" + inner;
    var all, pre := Encode(true, cid, s), "RSID:" + (Decimal(cid) + ":\U{000C}");
    PrintedMatch(cid, s);
    assert s[0] == '\U{000C}' && Solid(s) == [];
    Inside(cid, inner);
    hide Encode, Solid;
    NoneBefore(pre, inner);
    DecodesShort(other, sid);
  }

  /** An id inside of another. */
  lemma Inside(cid: nat, inner: Bytes)
    requires QRSID <= inner
    ensures var all, pre := Encode(true, cid, "\U{000C}" + inner), "RSID:" + (Decimal(cid) + ":\U{000C}");
            all != [] && all[1..] == pre + inner && QRSID <= all && 'Q' !in pre
  {
    var d := Decimal(cid);
    forall k | 0 <= k < |d| ensures d[k] != 'Q' { assert IsDigit(d[k]); }
  }

  lemma CidSurvives(cid: nat)
    requires cid < TWO64
    ensures ParseSize(Decimal(cid)) % TWO64 == cid
  {
    ParseSizeOfDecimal(cid);
    UnsignedOfSigned(cid);
  }

  lemma UnsignedOfSigned(x: nat)
    requires x < TWO64
    ensures Wrap64(x) % TWO64 == x
  {
    if x < TWO63 {
      DivUnique(x, 0, x);
    } else {
      DivUnique(x + TWO63, 1, x - TWO63);
      assert Wrap64(x) == x - TWO64;
      DivUnique(x - TWO64, -1, x);
    }
  }

  /** With a sid that starts with whitespace a later match may be found, but not for this sid. */
  lemma NoLaterMatch(s: Bytes, cid: nat, sid: Bytes)
    requires s == Encode(true, cid, sid) && sid != [] && Solid(sid) == []
    ensures Decode(s) != Queued(cid, sid)
  {
    FoundIsSolid(s);
  }

  lemma {:induction false} FoundIsSolid(s: Bytes)
    ensures FindSubmatch(s).Some? ==> NoRegexpSpace(FindSubmatch(s).value.1) && FindSubmatch(s).value.1 != []
  {
    if MatchAt(s).None? && s != [] {
      FoundIsSolid(s[1..]);
    }
  }

  /** Different subscriptions of a server never share a route id. */
  lemma EncodeIsInjective(q1: bool, cid1: nat, sid1: Bytes, q2: bool, cid2: nat, sid2: Bytes)
    requires Encode(q1, cid1, sid1) == Encode(q2, cid2, sid2)
    ensures q1 == q2 && cid1 == cid2 && sid1 == sid2
  {
    assert Encode(q1, cid1, sid1)[0] == if q1 then 'Q' else 'R';
    assert Encode(q2, cid2, sid2)[0] == if q2 then 'Q' else 'R';
    SameTail(if q1 then QRSID else RSID, ":" + (Decimal(cid1) + (":" + sid1)), ":" + (Decimal(cid2) + (":" + sid2)));
    SameTail(":", Decimal(cid1) + (":" + sid1), Decimal(cid2) + (":" + sid2));
    TailParts(cid1, sid1);
    TailParts(cid2, sid2);
  }

  lemma SameTail(p: Bytes, t1: Bytes, t2: Bytes)
    requires p + t1 == p + t2
    ensures t1 == t2
  {
    assert (p + t1)[|p|..] == t1 && (p + t2)[|p|..] == t2;
  }

  lemma TailParts(cid: nat, sid: Bytes)
    ensures var t := Decimal(cid) + (":" + sid);
            var d := Digits(t);
            AllDigits(d) && Value(d) == cid && |d| < |t| && t[|d| + 1..] == sid
  {
    DigitsOf(Decimal(cid), ":" + sid);
    ValueOfDecimal(cid);
  }
}
