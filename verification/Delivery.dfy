/** Who gets a message: processMsg of server/client.go, and the queue subscriber a route id
    names (server/route.go). */
module Delivery {
  import opened Base
  import opened Args
  import Wire
  import RouteSid

  /** A connection as processMsg looks at it: a client's, or a route's with the identity of the
      server at the other end, if it has told it. */
  datatype Conn = Conn(cid: nat, router: bool, open: bool, remote: Option<Bytes>)

  datatype Sub = Sub(conn: Conn, subject: Bytes, queue: Option<Bytes>, sid: Bytes)

  predicate Identified(c: Conn) { c.open && c.remote.Some? && c.remote.value != [] }

  /** What a subscription stands for: itself, a server at the end of a route, a queue group. */
  datatype Target = Local(sub: Sub) | Remote(id: Bytes) | Group(queue: Bytes)

  /** What a matching subscription asks for; nothing, if the message came on a route and the
      subscription is of a route or a queue group, or if its route has no identity. */
  function TargetOf(isRoute: bool, s: Sub): Option<Target> {
    if s.queue.Some? then (if isRoute then None else Some(Group(s.queue.value)))
    else if s.conn.router then (if isRoute || !Identified(s.conn) then None else Some(Remote(s.conn.remote.value)))
    else Some(Local(s))
  }

  /** How often `w` is asked for. */
  function Times(isRoute: bool, subs: seq<Sub>, w: Target): nat {
    if subs == [] then 0
    else Times(isRoute, subs[..|subs| - 1], w) + if TargetOf(isRoute, subs[|subs| - 1]) == Some(w) then 1 else 0
  }

  lemma TimesSnoc(isRoute: bool, subs: seq<Sub>, s: Sub, w: Target)
    ensures Times(isRoute, subs + [s], w) == Times(isRoute, subs, w) + if TargetOf(isRoute, s) == Some(w) then 1 else 0
  {
    assert (subs + [s])[..|subs|] == subs;
  }

  /** The deliveries `w` is due when `r` matches: each plain subscription of a client one for
      each time it matches, a remote server and a queue group one in all. */
  function Due(isRoute: bool, r: seq<Sub>, w: Target): nat {
    if w.Local? then Times(isRoute, r, w) else if Times(isRoute, r, w) > 0 then 1 else 0
  }

  ghost predicate Paid(isRoute: bool, r: seq<Sub>, out: seq<Sub>, w: Target) {
    Times(isRoute, out, w) == Due(isRoute, r, w)
  }

  /** The plan: everybody gets what is due, and only matching subscriptions get anything. */
  ghost predicate IsPlan(isRoute: bool, r: seq<Sub>, out: seq<Sub>) {
    && (forall w :: Paid(isRoute, r, out, w))
    && (forall s :: s in out ==> s in r && TargetOf(isRoute, s).Some?)
  }

  // ----- the loop of processMsg -----

  /** After the matches `done`: the groups only gathered, the others served. */
  ghost predicate Halfway(isRoute: bool, done: seq<Sub>, out: seq<Sub>, qmap: map<Bytes, seq<Sub>>, rmap: set<Bytes>,
                          w: Target) {
    match w
    case Local(_) => Times(isRoute, out, w) == Times(isRoute, done, w)
    case Remote(id) => Times(isRoute, out, w) == Due(isRoute, done, w) && (id in rmap <==> Times(isRoute, done, w) > 0)
    case Group(q) => Times(isRoute, out, w) == 0 && (q in qmap <==> Times(isRoute, done, w) > 0)
  }

  ghost predicate Members(isRoute: bool, done: seq<Sub>, qmap: map<Bytes, seq<Sub>>, q: Bytes) {
    q in qmap ==> qmap[q] != [] && forall s :: s in qmap[q] ==> s in done && TargetOf(isRoute, s) == Some(Group(q))
  }

  ghost predicate Gathering(isRoute: bool, done: seq<Sub>, out: seq<Sub>, qmap: map<Bytes, seq<Sub>>,
                            rmap: set<Bytes>) {
    && (forall w :: Halfway(isRoute, done, out, qmap, rmap, w))
    && (forall s :: s in out ==> s in done && TargetOf(isRoute, s).Some?)
    && (forall q :: Members(isRoute, done, qmap, q))
  }

  /** The loop body: `s` is the next match. */
  method Consider(isRoute: bool, s: Sub, ghost done: seq<Sub>, out0: seq<Sub>, qmap0: map<Bytes, seq<Sub>>,
                  rmap0: set<Bytes>)
    returns (out: seq<Sub>, qmap: map<Bytes, seq<Sub>>, rmap: set<Bytes>)
    requires Gathering(isRoute, done, out0, qmap0, rmap0)
    ensures Gathering(isRoute, done + [s], out, qmap, rmap)
  {
    out, qmap, rmap := out0, qmap0, rmap0;
    ghost var more := done + [s];
    if s.queue.Some? {
      // queue subscriptions that came on a route are handled directly
      if !isRoute {
        var qname := s.queue.value;
        var qsubs := if qname in qmap then qmap[qname] else [];
        qmap := qmap[qname := qsubs + [s]];
      }
    } else if s.conn.router && (isRoute || !Identified(s.conn) || s.conn.remote.value in rmap) {
      // one hop, no identity, or sent there already
    } else {
      if s.conn.router {
        rmap := rmap + {s.conn.remote.value};
      }
      out := out + [s];
    }
    forall w ensures Halfway(isRoute, more, out, qmap, rmap, w) {
      assert Halfway(isRoute, done, out0, qmap0, rmap0, w);
      TimesSnoc(isRoute, done, s, w);
      TimesSnoc(isRoute, out0, s, w);
    }
    forall q ensures Members(isRoute, more, qmap, q) { assert Members(isRoute, done, qmap0, q); }
  }

  /** A member of each group, whichever it is. */
  method PickWinners(isRoute: bool, ghost r: seq<Sub>, direct: seq<Sub>, qmap: map<Bytes, seq<Sub>>,
                     ghost rmap: set<Bytes>)
    returns (out: seq<Sub>)
    requires Gathering(isRoute, r, direct, qmap, rmap)
    ensures IsPlan(isRoute, r, out)
  {
    out := direct;
    var left := qmap.Keys;
    forall w ensures Picked(isRoute, r, direct, qmap, left, out, w) {
      assert Halfway(isRoute, r, direct, qmap, rmap, w);
    }
    while left != {}
      invariant left <= qmap.Keys
      invariant forall w :: Picked(isRoute, r, direct, qmap, left, out, w)
      invariant forall s :: s in out ==> s in r && TargetOf(isRoute, s).Some?
      decreases left
    {
      var q :| q in left;
      var qsubs := qmap[q];
      assert Members(isRoute, r, qmap, q);
      var index: nat :| index < |qsubs|;
      var s := qsubs[index];
      assert s in qsubs;
      forall w ensures Picked(isRoute, r, direct, qmap, left - {q}, out + [s], w) {
        assert Picked(isRoute, r, direct, qmap, left, out, w) && Halfway(isRoute, r, direct, qmap, rmap, w);
        TimesSnoc(isRoute, out, s, w);
      }
      out := out + [s];
      left := left - {q};
    }
    forall w ensures Paid(isRoute, r, out, w) {
      assert Picked(isRoute, r, direct, qmap, left, out, w) && Halfway(isRoute, r, direct, qmap, rmap, w);
    }
  }

  ghost predicate Picked(isRoute: bool, r: seq<Sub>, direct: seq<Sub>, qmap: map<Bytes, seq<Sub>>, left: set<Bytes>,
                         out: seq<Sub>, w: Target) {
    Times(isRoute, out, w) ==
    if w.Group? then (if w.queue in qmap && w.queue !in left then 1 else 0) else Times(isRoute, direct, w)
  }

  /** processMsg from the match on, for a message that is not for a named queue subscriber. */
  method Spread(isRoute: bool, r: seq<Sub>) returns (out: seq<Sub>)
    ensures IsPlan(isRoute, r, out)
  {
    var qmap: map<Bytes, seq<Sub>>, rmap: set<Bytes> := map[], {};
    out := [];
    forall w ensures Halfway(isRoute, [], out, qmap, rmap, w) { }
    for i := 0 to |r|
      invariant Gathering(isRoute, r[..i], out, qmap, rmap)
    {
      assert r[..i + 1] == r[..i] + [r[i]];
      out, qmap, rmap := Consider(isRoute, r[i], r[..i], out, qmap, rmap);
    }
    assert r[..|r|] == r;
    out := PickWinners(isRoute, r, out, qmap, rmap);
  }

  // ----- messages from routes -----

  /** The subscriptions of the clients, by client id and sid. */
  type Clients = map<nat, map<Bytes, Sub>>

  /** routeSidQueueSubscriber: None for an id that is not a queue subscription's, Some(None) if
      the subscription is not there any more. */
  function Named(clients: Clients, rsid: Bytes): Option<Option<Sub>> {
    match RouteSid.Decode(rsid)
    case NotQueued => None
    case Queued(cid, sid) =>
      if cid in clients && sid in clients[cid] then Some(Some(clients[cid][sid])) else Some(None)
  }

  /** What processMsg may deliver to: nothing without a match; on a route to the subscriber
      the id names, and to nobody else; else by the plan. */
  ghost predicate Delivers(isRoute: bool, named: Option<Option<Sub>>, r: seq<Sub>, out: seq<Sub>) {
    if r == [] then out == []
    else if isRoute && named.Some? then out == if named.value.Some? then [named.value.value] else []
    else IsPlan(isRoute, r, out)
  }

  method ProcessMsg(isRoute: bool, rsid: Bytes, clients: Clients, r: seq<Sub>) returns (out: seq<Sub>)
    ensures Delivers(isRoute, Named(clients, rsid), r, out)
  {
    if |r| == 0 {
      return [];
    }
    if isRoute {
      var named := Named(clients, rsid);
      if named.Some? {
        return if named.value.Some? then [named.value.value] else [];
      }
    }
    out := Spread(isRoute, r);
  }

  lemma {:induction false} NeverAsked(isRoute: bool, subs: seq<Sub>, w: Target)
    requires forall s :: s in subs ==> TargetOf(isRoute, s) != Some(w)
    ensures Times(isRoute, subs, w) == 0
  {
    if subs != [] {
      assert subs[|subs| - 1] in subs;
      NeverAsked(isRoute, subs[..|subs| - 1], w);
    }
  }

  lemma {:induction false} Asked(isRoute: bool, subs: seq<Sub>, s: Sub, w: Target)
    requires s in subs && TargetOf(isRoute, s) == Some(w)
    ensures Times(isRoute, subs, w) > 0
  {
    if subs[|subs| - 1] != s {
      assert subs == subs[..|subs| - 1] + [subs[|subs| - 1]];
      Asked(isRoute, subs[..|subs| - 1], s, w);
    }
  }

  // ----- the plan in plain words -----

  /** How many of `subs` are of the queue group `q`, and plain ones of a route to the server `id`. */
  function OfQueue(subs: seq<Sub>, q: Bytes): nat {
    if subs == [] then 0 else OfQueue(subs[..|subs| - 1], q) + if subs[|subs| - 1].queue == Some(q) then 1 else 0
  }

  predicate GoesTo(s: Sub, id: Bytes) { s.queue.None? && s.conn.router && s.conn.open && s.conn.remote == Some(id) }

  function OfRemote(subs: seq<Sub>, id: Bytes): nat {
    if subs == [] then 0 else OfRemote(subs[..|subs| - 1], id) + if GoesTo(subs[|subs| - 1], id) then 1 else 0
  }

  lemma {:induction false} CountsAreTimes(isRoute: bool, subs: seq<Sub>, q: Bytes, id: Bytes, s: Sub)
    ensures !isRoute ==> Times(isRoute, subs, Group(q)) == OfQueue(subs, q)
    ensures !isRoute && id != [] ==> Times(isRoute, subs, Remote(id)) == OfRemote(subs, id)
    ensures s.queue.None? && !s.conn.router ==> Times(isRoute, subs, Local(s)) == multiset(subs)[s]
    decreases |subs|
  {
    if subs != [] {
      var n := |subs| - 1;
      assert subs == subs[..n] + [subs[n]];
      CountsAreTimes(isRoute, subs[..n], q, id, s);
    }
  }

  /** Among the matches of a message from a client: each plain subscription of a client gets it as often
      as it matches, each queue group and each server at the end of a route once, and a route that has not
      told its identity nothing.  For a message from a route only the plain subscriptions of clients. */
  lemma PlanMeans(isRoute: bool, r: seq<Sub>, out: seq<Sub>, q: Bytes, id: Bytes, s: Sub)
    requires IsPlan(isRoute, r, out) && id != []
    ensures s in out ==> s in r
    ensures s.queue.None? && !s.conn.router ==> multiset(out)[s] == multiset(r)[s]
    ensures !isRoute ==> OfQueue(out, q) == if OfQueue(r, q) > 0 then 1 else 0
    ensures !isRoute ==> OfRemote(out, id) == if OfRemote(r, id) > 0 then 1 else 0
    ensures s in out && s.conn.router && s.queue.None? ==>
              s.conn.open && s.conn.remote.Some? && s.conn.remote.value != []
    ensures isRoute && s in out ==> !s.conn.router && s.queue.None?
  {
    CountsAreTimes(isRoute, r, q, id, s);
    CountsAreTimes(isRoute, out, q, id, s);
    assert Paid(isRoute, r, out, Local(s)) && Paid(isRoute, r, out, Group(q)) && Paid(isRoute, r, out, Remote(id));
  }

  /** The entry stands under its own names, and the connection is not a route: acceptConnection's
      clients are entered in Server.clients, routes never are. */
  ghost predicate FiledAsClient(clients: Clients, cid: nat, sid: Bytes) {
    cid in clients && sid in clients[cid] ==>
      var s := clients[cid][sid]; s.conn.cid == cid && !s.conn.router && s.sid == sid
  }

  ghost predicate OnlyClients(clients: Clients) { forall cid: nat, sid :: FiledAsClient(clients, cid, sid) }

  /** One hop: what came on a route goes to subscriptions of clients only, either to matching
      plain ones or to the one the id names. */
  lemma OneHop(clients: Clients, rsid: Bytes, r: seq<Sub>, out: seq<Sub>, s: Sub)
    requires OnlyClients(clients) && Delivers(true, Named(clients, rsid), r, out) && s in out
    ensures !s.conn.router
    ensures match RouteSid.Decode(rsid)
            case NotQueued => s in r && s.queue.None?
            case Queued(cid, sid) => out == [s] && s.conn.cid == cid && s.sid == sid
  {
    match RouteSid.Decode(rsid)
    case NotQueued =>
    case Queued(cid, sid) => assert FiledAsClient(clients, cid, sid);
  }

  // ----- the header -----

  const MSG_PREFIX := "MSG "
  const SPC := " "

  /** msgHeader, and the payload that deliverMsg writes behind it. */
  method MsgHeader(subject: Bytes, sub: Sub, reply: Option<Bytes>, szb: Bytes, payload: Bytes) returns (wire: Bytes)
    ensures wire == Wire.Print(Wire.MsgProto(subject, sub.sid, reply, szb, payload))
  {
    ghost var p := Wire.MsgProto(subject, sub.sid, reply, szb, payload);
    wire := MSG_PREFIX + subject + SPC + sub.sid + SPC;
    assert Wire.Verb(p) == MSG_PREFIX;
    if reply.Some? {
      wire := wire + reply.value + SPC;
      assert Wire.Words(p) == [subject, sub.sid, reply.value, szb];
      JoinFour(subject, sub.sid, reply.value, szb);
      AppendFour(MSG_PREFIX, subject, sub.sid, reply.value, szb, SPC, Wire.CR_LF, payload);
    } else {
      assert Wire.Words(p) == [subject, sub.sid, szb];
      JoinThree(subject, sub.sid, szb);
      AppendThree(MSG_PREFIX, subject, sub.sid, szb, SPC, Wire.CR_LF, payload);
    }
    wire := wire + szb + Wire.CR_LF + (payload + Wire.CR_LF);
  }

  lemma JoinThree(a: Bytes, b: Bytes, c: Bytes)
    ensures Join([a, b, c]) == a + (SPC + (b + (SPC + c)))
  {
    assert [a, b, c][1..] == [b, c] && [b, c][1..] == [c];
    assert Join([c]) == c && Join([b, c]) == b + (SPC + c);
  }

  lemma JoinFour(a: Bytes, b: Bytes, c: Bytes, d: Bytes)
    ensures Join([a, b, c, d]) == a + (SPC + (b + (SPC + (c + (SPC + d)))))
  {
    assert [a, b, c, d][1..] == [b, c, d];
    JoinThree(b, c, d);
  }

  lemma AppendThree(m: Bytes, a: Bytes, b: Bytes, c: Bytes, sp: Bytes, e: Bytes, p: Bytes)
    ensures m + a + sp + b + sp + c + e + (p + e) == m + ((a + (sp + (b + (sp + c)))) + e) + (p + e)
  {
  }

  lemma AppendFour(m: Bytes, a: Bytes, b: Bytes, c: Bytes, d: Bytes, sp: Bytes, e: Bytes, p: Bytes)
    ensures m + a + sp + b + sp + c + sp + d + e + (p + e)
            == m + ((a + (sp + (b + (sp + (c + (sp + d)))))) + e) + (p + e)
  {
    AppendThree(m, a, b, c + sp + d, sp, e, p);
    assert c + sp + d == c + (sp + d);
  }
}
