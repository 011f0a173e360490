/** A full mesh of servers that tell each other their clients' subscriptions over FIFO links
    (server/client.go, server/route.go), as steps of the whole cluster. */
module Cluster {
  import opened Base
  import opened Subject
  import opened Delivery
  import opened Args
  import PR = Protocol
  import Wire
  import RouteSid

  /** A subscription by its client and its sid. */
  type SubKey = (nat, Bytes)

  datatype Want = Want(subject: Bytes, queue: Option<Bytes>)

  /** What a server has from another: the lines on their way, the interest lines taken in, and
      the subscriptions of the route connection by route sid. */
  datatype Peer = Peer(inbox: seq<Wire.Proto>, got: seq<Wire.Proto>, table: map<Bytes, Want>)

  /** A server.  `wants` are all subscriptions its clients ever made; `locals` those in its index,
      and `table` those in its clients' tables.  A client's read loop files a subscription first
      and announces it later, and drops it first and retracts it later: `announcing` and
      `retracting` are in between.  So does whoever closes a client: `closing` is what it has
      still to take out of the index, `owed` what it has taken out and not yet told the others.
      `crossed` is history: the subscriptions whose last UNSUB went out before their SUB. */
  datatype Server = Server(
    wants: map<SubKey, Want>, locals: map<SubKey, Want>, table: set<SubKey>,
    announcing: set<SubKey>, retracting: set<SubKey>,
    closed: set<nat>, closing: set<SubKey>, owed: set<SubKey>, crossed: set<SubKey>,
    sent: seq<Wire.Proto>, peers: seq<Peer>, index: multiset<Sub>)

  datatype State = State(ids: seq<Bytes>, servers: seq<Server>)

  function Rsid(k: SubKey, w: Want): Bytes { RouteSid.Encode(w.queue.Some?, k.0, k.1) }

  function SubLine(k: SubKey, w: Want): Wire.Proto {
    Wire.SubProto(w.subject, if w.queue.Some? then w.queue.value else [], Rsid(k, w))
  }

  function UnsubLine(k: SubKey, w: Want): Wire.Proto { Wire.UnsubProto(Rsid(k, w), 0) }

  /** The subscription as it stands in the index of its own server, and of another. */
  function LocalSub(k: SubKey, w: Want): Sub { Sub(Conn(k.0, false, true, None), w.subject, w.queue, k.1) }

  function RouteSub(id: Bytes, rsid: Bytes, w: Want): Sub {
    Sub(Conn(0, true, true, Some(id)), w.subject, w.queue, rsid)
  }

  function WantOf(line: Wire.Proto): Want
    requires line.SubProto?
  {
    Want(line.subject, if line.queue == [] then None else Some(line.queue))
  }

  /** Sublist.Insert turns invalid subjects away; so does Remove. */
  function Filed(subject: Bytes, s: Sub): multiset<Sub> {
    if Valid(Split(subject)) then multiset{s} else multiset{}
  }

  // ----- steps -----

  /** The regions of processSub (File, Announce), of processUnsub (Drop, Retract) and of
      closeConnection (Close, then Unfile and Disown for each subscription), each under the lock
      it takes; messages that enter a link; and a line that leaves it. */
  datatype Event =
    | File(i: nat, k: SubKey, w: Want)
    | Announce(i: nat, k: SubKey)
    | Drop(i: nat, k: SubKey)
    | Retract(i: nat, k: SubKey)
    | Close(i: nat, cid: nat)
    | Unfile(i: nat, k: SubKey)
    | Disown(i: nat, k: SubKey)
    | Forward(i: nat, to: nat, msg: Wire.Proto)
    | Receive(j: nat, i: nat)

  /** The read loop of a client does one thing at a time. */
  ghost predicate Idle(sv: Server, cid: nat) {
    forall k :: k in sv.announcing || k in sv.retracting ==> k.0 != cid
  }

  /** Subscribing takes an open client, a sid that was not used before, and no limit. */
  ghost predicate Enabled(st: State, e: Event) {
    match e
    case File(i, k, w) =>
      i < |st.servers| && k !in st.servers[i].wants && k.0 !in st.servers[i].closed && w.queue != Some([])
          && Idle(st.servers[i], k.0)
    case Announce(i, k) => i < |st.servers| && k in st.servers[i].announcing && k in st.servers[i].wants
    case Drop(i, k) => i < |st.servers| && k in st.servers[i].table && Idle(st.servers[i], k.0)
    case Retract(i, k) => i < |st.servers| && k in st.servers[i].retracting && k in st.servers[i].wants
    case Close(i, cid) => i < |st.servers| && cid !in st.servers[i].closed
    case Unfile(i, k) => i < |st.servers| && k in st.servers[i].closing
    case Disown(i, k) => i < |st.servers| && k in st.servers[i].owed && k in st.servers[i].wants
    case Forward(i, to, msg) => i < |st.servers| && to < |st.servers| && i != to && msg.MsgProto?
    case Receive(j, i) =>
      j < |st.servers| && i < |st.servers| && i != j && i < |st.servers[j].peers| && st.servers[j].peers[i].inbox != []
  }

  /** processSub for a client, under its lock. */
  function FiledAt(sv: Server, k: SubKey, w: Want): Server {
    sv.(wants := sv.wants[k := w], locals := sv.locals[k := w], table := sv.table + {k},
        announcing := sv.announcing + {k},
        index := sv.index + Filed(w.subject, LocalSub(k, w)))
  }

  /** broadcastSubscribe, afterwards. */
  function Announced(sv: Server, k: SubKey): Server
    requires k in sv.wants
  {
    sv.(announcing := sv.announcing - {k}, sent := sv.sent + [SubLine(k, sv.wants[k])])
  }

  /** Sublist.Remove, of a subscription that may be gone already. */
  function OutOfIndex(sv: Server, k: SubKey): Server {
    if k in sv.locals then
      sv.(locals := sv.locals - {k}, index := sv.index - Filed(sv.locals[k].subject, LocalSub(k, sv.locals[k])))
    else sv
  }

  /** unsubscribe, called by processUnsub. */
  function Dropped(sv: Server, k: SubKey): Server {
    OutOfIndex(sv, k).(table := sv.table - {k}, retracting := sv.retracting + {k})
  }

  /** broadcastUnSubscribe, afterwards. */
  function Retracted(sv: Server, k: SubKey): Server
    requires k in sv.wants
  {
    sv.(retracting := sv.retracting - {k}, crossed := sv.crossed - {k}, sent := sv.sent + [UnsubLine(k, sv.wants[k])])
  }

  /** closeConnection, up to the snapshot of the client's table. */
  function Closed(sv: Server, cid: nat): Server {
    sv.(closed := sv.closed + {cid}, closing := sv.closing + (set k | k in sv.table && k.0 == cid))
  }

  function Unfiled(sv: Server, k: SubKey): Server {
    OutOfIndex(sv, k).(closing := sv.closing - {k}, owed := sv.owed + {k})
  }

  /** broadcastUnSubscribe, called by closeConnection. */
  function Disowned(sv: Server, k: SubKey): Server
    requires k in sv.wants
  {
    sv.(owed := sv.owed - {k}, crossed := if k in sv.announcing then sv.crossed + {k} else sv.crossed,
        sent := sv.sent + [UnsubLine(k, sv.wants[k])])
  }

  /** processSub and processUnsub for a route; messages only leave the link here. */
  function Received(id: Bytes, sv: Server, i: nat): Server
    requires i < |sv.peers| && sv.peers[i].inbox != []
  {
    var p := sv.peers[i];
    var line, rest := p.inbox[0], p.inbox[1..];
    match line
    case SubProto(subject, _, rsid) =>
      var w := WantOf(line);
      sv.(peers := sv.peers[i := Peer(rest, p.got + [line], p.table[rsid := w])],
          index := sv.index + Filed(subject, RouteSub(id, rsid, w)))
    case UnsubProto(rsid, _) =>
      sv.(peers := sv.peers[i := Peer(rest, p.got + [line], p.table - {rsid})],
          index := if rsid in p.table then sv.index - Filed(p.table[rsid].subject, RouteSub(id, rsid, p.table[rsid]))
                   else sv.index)
    case MsgProto(_, _, _, _, _) =>
      sv.(peers := sv.peers[i := p.(inbox := rest)])
  }

  function Queue(sv: Server, i: nat, line: Wire.Proto): Server
    requires i < |sv.peers|
  {
    sv.(peers := sv.peers[i := sv.peers[i].(inbox := sv.peers[i].inbox + [line])])
  }

  /** broadcastToRoutes: `line` goes out on every link from server `i`, which is now `sv`. */
  function Broadcast(st: State, i: nat, sv: Server, line: Wire.Proto): State
    requires forall j :: 0 <= j < |st.servers| ==> i < |st.servers[j].peers|
  {
    st.(servers := seq(|st.servers|, j requires 0 <= j < |st.servers| =>
                       if j == i then sv else Queue(st.servers[j], i, line)))
  }

  function At(st: State, i: nat, sv: Server): State
    requires i < |st.servers|
  {
    st.(servers := st.servers[i := sv])
  }

  ghost predicate Meshed(st: State) {
    |st.ids| == |st.servers| && forall j :: 0 <= j < |st.servers| ==> |st.servers[j].peers| == |st.servers|
  }

  ghost function Step(st: State, e: Event): State
    requires Meshed(st) && Enabled(st, e)
  {
    match e
    case File(i, k, w) => At(st, i, FiledAt(st.servers[i], k, w))
    case Announce(i, k) => Broadcast(st, i, Announced(st.servers[i], k), SubLine(k, st.servers[i].wants[k]))
    case Drop(i, k) => At(st, i, Dropped(st.servers[i], k))
    case Retract(i, k) => Broadcast(st, i, Retracted(st.servers[i], k), UnsubLine(k, st.servers[i].wants[k]))
    case Close(i, cid) => At(st, i, Closed(st.servers[i], cid))
    case Unfile(i, k) => At(st, i, Unfiled(st.servers[i], k))
    case Disown(i, k) => Broadcast(st, i, Disowned(st.servers[i], k), UnsubLine(k, st.servers[i].wants[k]))
    case Forward(i, to, msg) => st.(servers := st.servers[to := Queue(st.servers[to], i, msg)])
    case Receive(j, i) => st.(servers := st.servers[j := Received(st.ids[i], st.servers[j], i)])
  }

  // ----- replaying interest -----

  function Replay(lines: seq<Wire.Proto>): map<Bytes, Want> {
    if lines == [] then map[] else Replayed(Replay(lines[..|lines| - 1]), lines[|lines| - 1])
  }

  function Replayed(t: map<Bytes, Want>, line: Wire.Proto): map<Bytes, Want> {
    match line
    case SubProto(_, _, rsid) => t[rsid := WantOf(line)]
    case UnsubProto(rsid, _) => t - {rsid}
    case MsgProto(_, _, _, _, _) => t
  }

  lemma ReplaySnoc(lines: seq<Wire.Proto>, line: Wire.Proto)
    ensures Replay(lines + [line]) == Replayed(Replay(lines), line)
  {
    assert (lines + [line])[..|lines|] == lines;
  }

  /** What is replayed was subscribed to by some line. */
  lemma {:induction false} ReplayedFrom(lines: seq<Wire.Proto>, rsid: Bytes) returns (a: nat)
    requires rsid in Replay(lines)
    ensures a < |lines| && lines[a].SubProto? && lines[a].rsid == rsid
  {
    var last := lines[|lines| - 1];
    if last.SubProto? && last.rsid == rsid {
      a := |lines| - 1;
    } else {
      a := ReplayedFrom(lines[..|lines| - 1], rsid);
    }
  }

  function Interest(lines: seq<Wire.Proto>): seq<Wire.Proto> {
    if lines == [] then [] else (if lines[0].MsgProto? then [] else [lines[0]]) + Interest(lines[1..])
  }

  lemma {:induction false} InterestSnoc(lines: seq<Wire.Proto>, line: Wire.Proto)
    ensures Interest(lines + [line]) == Interest(lines) + if line.MsgProto? then [] else [line]
  {
    var last := if line.MsgProto? then [] else [line];
    if lines == [] {
      assert lines + [line] == [line] && [line][1..] == [];
      assert Interest([line]) == last + Interest([line][1..]);
    } else {
      var head := if lines[0].MsgProto? then [] else [lines[0]];
      assert (lines + [line])[1..] == lines[1..] + [line];
      InterestSnoc(lines[1..], line);
      assert head + (Interest(lines[1..]) + last) == (head + Interest(lines[1..])) + last;
    }
  }

  // ----- what every step keeps -----

  ghost predicate Told(sv: Server, k: SubKey) { k in sv.wants && Rsid(k, sv.wants[k]) in Replay(sv.sent) }

  /** What the lines sent say of a subscription: a live one is told as soon as it is announced,
      and one that is gone, with nothing left to broadcast, only if its lines have crossed. */
  ghost predicate ToldOk(sv: Server, k: SubKey) {
    k in sv.wants ==>
      && sv.wants[k].queue != Some([])
      && (Told(sv, k) ==> Replay(sv.sent)[Rsid(k, sv.wants[k])] == sv.wants[k])
      && (k in sv.announcing ==> !Told(sv, k))
      && (k in sv.locals && k !in sv.announcing ==> Told(sv, k))
      && (k !in sv.locals && k !in sv.announcing && k !in sv.retracting && k !in sv.owed ==>
            (Told(sv, k) <==> k in sv.crossed))
  }

  /** Where a subscription can be at a time. */
  ghost predicate PhaseOk(sv: Server, k: SubKey) {
    && (k in sv.locals ==>
          k in sv.wants && sv.wants[k] == sv.locals[k] && k !in sv.retracting && k !in sv.owed && k !in sv.crossed)
    && (k in sv.announcing ==>
          k in sv.wants && k !in sv.retracting && (k in sv.locals || k in sv.owed || k in sv.crossed))
    && (k in sv.retracting || k in sv.table ==> k in sv.wants)
    && (k in sv.closing ==> k in sv.wants && k.0 in sv.closed && k !in sv.owed && k !in sv.crossed)
    && (k in sv.owed ==> k in sv.wants && k.0 in sv.closed && k !in sv.crossed)
    && (k in sv.crossed ==> k in sv.wants && k.0 in sv.closed)
    && (k in sv.locals && k.0 in sv.closed ==> k in sv.closing)
    && (k.0 !in sv.closed ==> (k in sv.table <==> k in sv.locals))
  }

  ghost predicate Said(sv: Server, k: SubKey, rsid: Bytes) {
    k in sv.wants && k !in sv.announcing && Rsid(k, sv.wants[k]) == rsid
  }

  /** The line at `a` announces a subscription. */
  ghost predicate FromWanted(sv: Server, a: nat) {
    a < |sv.sent| && sv.sent[a].SubProto? ==> exists k :: Said(sv, k, sv.sent[a].rsid)
  }

  ghost predicate NoReuse(sv: Server, a: nat, b: nat) {
    a < b < |sv.sent| && sv.sent[a].SubProto? && sv.sent[b].SubProto? ==> sv.sent[a].rsid != sv.sent[b].rsid
  }

  /** The lines sent fit the phases the subscriptions are in. */
  ghost predicate Honest(sv: Server) {
    && (forall k :: PhaseOk(sv, k))
    && (forall k :: ToldOk(sv, k))
    && (forall a: nat :: FromWanted(sv, a))
    && (forall a: nat, b: nat :: NoReuse(sv, a, b))
    && (forall a: nat :: a < |sv.sent| ==> !sv.sent[a].MsgProto?)
  }

  /** What has come over a link and what is still on it is what was sent; the table is what came. */
  ghost predicate Linked(from: Server, p: Peer) {
    from.sent == p.got + Interest(p.inbox) && p.table == Replay(p.got)
  }

  ghost predicate HereLocal(sv: Server, s: Sub) {
    !s.conn.router && (s.conn.cid, s.sid) in sv.locals
        && s == LocalSub((s.conn.cid, s.sid), sv.locals[(s.conn.cid, s.sid)])
  }

  ghost predicate HereRoute(ids: seq<Bytes>, sv: Server, i: nat, s: Sub) {
    i < |ids| && i < |sv.peers| && s.sid in sv.peers[i].table && s == RouteSub(ids[i], s.sid, sv.peers[i].table[s.sid])
  }

  ghost predicate Here(ids: seq<Bytes>, sv: Server, s: Sub) {
    HereLocal(sv, s) || exists i: nat :: HereRoute(ids, sv, i, s)
  }

  ghost predicate IndexedOnce(ids: seq<Bytes>, sv: Server, s: Sub) {
    sv.index[s] == if Valid(Split(s.subject)) && Here(ids, sv, s) then 1 else 0
  }

  ghost predicate Indexed(ids: seq<Bytes>, sv: Server) { forall s :: IndexedOnce(ids, sv, s) }

  ghost predicate Distinct(ids: seq<Bytes>) {
    (forall i, j :: 0 <= i < j < |ids| ==> ids[i] != ids[j]) && forall i :: 0 <= i < |ids| ==> ids[i] != []
  }

  ghost predicate ServerOk(st: State, j: nat) {
    j < |st.servers| && j < |st.ids| ==>
          Honest(st.servers[j]) && Indexed(st.ids, st.servers[j]) && OwnEmpty(st.servers[j], j)
  }

  /** No server has a route to itself. */
  ghost predicate OwnEmpty(sv: Server, j: nat) {
    j < |sv.peers| ==> sv.peers[j].table == map[] && sv.peers[j].inbox == []
  }

  ghost predicate LinkOk(st: State, i: nat, j: nat) {
    i < |st.servers| && j < |st.servers| && i != j && i < |st.servers[j].peers| ==>
          Linked(st.servers[i], st.servers[j].peers[i])
  }

  ghost predicate Inv(st: State) {
    && Meshed(st) && Distinct(st.ids)
    && (forall j: nat :: ServerOk(st, j))
    && (forall i: nat, j: nat :: LinkOk(st, i, j))
  }

  // ----- honesty -----

  lemma RsidsDiffer(k: SubKey, w: Want, j: SubKey, v: Want)
    requires k != j
    ensures Rsid(k, w) != Rsid(j, v)
  {
    if Rsid(k, w) == Rsid(j, v) { RouteSid.EncodeIsInjective(w.queue.Some?, k.0, k.1, v.queue.Some?, j.0, j.1); }
  }

  /** Who has been told of, was announced. */
  lemma ToldFrom(sv: Server, rsid: Bytes) returns (k: SubKey)
    requires Honest(sv) && rsid in Replay(sv.sent)
    ensures Said(sv, k, rsid)
  {
    var a := ReplayedFrom(sv.sent, rsid);
    assert FromWanted(sv, a);
    k :| Said(sv, k, sv.sent[a].rsid);
  }

  lemma HonestAfterFile(sv: Server, k: SubKey, w: Want)
    requires Honest(sv) && k !in sv.wants && k.0 !in sv.closed && w.queue != Some([])
    ensures Honest(FiledAt(sv, k, w))
  {
    var t := FiledAt(sv, k, w);
    assert PhaseOk(sv, k);
    if Rsid(k, w) in Replay(sv.sent) {
      var j := ToldFrom(sv, Rsid(k, w));
      RsidsDiffer(j, sv.wants[j], k, w);
    }
    forall j ensures PhaseOk(t, j) && ToldOk(t, j) { assert PhaseOk(sv, j) && ToldOk(sv, j); }
    SameLines(sv, t);
  }

  /** Nothing sent, and nobody who was announced forgotten. */
  lemma SameLines(sv: Server, t: Server)
    requires Honest(sv) && t.sent == sv.sent
    requires forall k, rsid :: Said(sv, k, rsid) ==> Said(t, k, rsid)
    ensures forall a: nat :: FromWanted(t, a)
    ensures forall a: nat, b: nat :: NoReuse(t, a, b)
  {
    forall a: nat ensures FromWanted(t, a) {
      assert FromWanted(sv, a);
      if a < |sv.sent| && sv.sent[a].SubProto? {
        var k :| Said(sv, k, sv.sent[a].rsid);
        assert Said(t, k, t.sent[a].rsid);
      }
    }
    forall a: nat, b: nat ensures NoReuse(t, a, b) { assert NoReuse(sv, a, b); }
  }

  lemma HonestAfterAnnounce(sv: Server, k: SubKey)
    requires Honest(sv) && k in sv.announcing && k in sv.wants
    ensures Honest(Announced(sv, k))
  {
    var t, line := Announced(sv, k), SubLine(k, sv.wants[k]);
    ReplaySnoc(sv.sent, line);
    assert PhaseOk(sv, k) && ToldOk(sv, k) && WantOf(line) == sv.wants[k];
    forall j ensures PhaseOk(t, j) && ToldOk(t, j) {
      assert PhaseOk(sv, j) && ToldOk(sv, j);
      if j in sv.wants && j != k { RsidsDiffer(j, sv.wants[j], k, sv.wants[k]); }
    }
    AnnouncedLines(sv, k);
  }

  lemma AnnouncedLines(sv: Server, k: SubKey)
    requires Honest(sv) && k in sv.announcing && k in sv.wants
    ensures var t := Announced(sv, k);
            (forall a: nat :: FromWanted(t, a)) && (forall a: nat, b: nat :: NoReuse(t, a, b))
  {
    var t := Announced(sv, k);
    forall a: nat ensures FromWanted(t, a) {
      assert FromWanted(sv, a);
      if a == |sv.sent| {
        assert Said(t, k, t.sent[a].rsid);
      } else if a < |sv.sent| && sv.sent[a].SubProto? {
        var j :| Said(sv, j, sv.sent[a].rsid);
        assert Said(t, j, t.sent[a].rsid);
      }
    }
    forall a: nat, b: nat ensures NoReuse(t, a, b) {
      assert NoReuse(sv, a, b) && FromWanted(sv, a);
      if a < b == |sv.sent| && sv.sent[a].SubProto? {
        var j :| Said(sv, j, sv.sent[a].rsid);
        RsidsDiffer(j, sv.wants[j], k, sv.wants[k]);
      }
    }
  }

  lemma HonestAfterDrop(sv: Server, k: SubKey)
    requires Honest(sv) && k in sv.table && Idle(sv, k.0)
    ensures Honest(Dropped(sv, k))
  {
    var t := Dropped(sv, k);
    forall j ensures PhaseOk(t, j) && ToldOk(t, j) { assert PhaseOk(sv, j) && ToldOk(sv, j); }
    SameLines(sv, t);
  }

  lemma HonestAfterClose(sv: Server, cid: nat)
    requires Honest(sv) && cid !in sv.closed
    ensures Honest(Closed(sv, cid))
  {
    var t := Closed(sv, cid);
    forall j ensures PhaseOk(t, j) && ToldOk(t, j) { assert PhaseOk(sv, j) && ToldOk(sv, j); }
    SameLines(sv, t);
  }

  lemma HonestAfterUnfile(sv: Server, k: SubKey)
    requires Honest(sv) && k in sv.closing
    ensures Honest(Unfiled(sv, k))
  {
    var t := Unfiled(sv, k);
    forall j ensures PhaseOk(t, j) && ToldOk(t, j) { assert PhaseOk(sv, j) && ToldOk(sv, j) && PhaseOk(sv, k); }
    SameLines(sv, t);
  }

  /** An UNSUB is broadcast, by a read loop or by whoever closes the client. */
  lemma HonestAfterUnsub(sv: Server, k: SubKey, t: Server)
    requires Honest(sv) && k in sv.wants
    requires (k in sv.retracting && t == Retracted(sv, k)) || (k in sv.owed && t == Disowned(sv, k))
    ensures Honest(t)
  {
    ReplaySnoc(sv.sent, UnsubLine(k, sv.wants[k]));
    forall j ensures PhaseOk(t, j) && ToldOk(t, j) {
      assert PhaseOk(sv, j) && ToldOk(sv, j) && PhaseOk(sv, k);
      if j in sv.wants && j != k { RsidsDiffer(j, sv.wants[j], k, sv.wants[k]); }
    }
    forall a: nat ensures FromWanted(t, a) {
      assert FromWanted(sv, a);
      if a < |sv.sent| && sv.sent[a].SubProto? {
        var j :| Said(sv, j, sv.sent[a].rsid);
        assert Said(t, j, t.sent[a].rsid);
      }
    }
    forall a: nat, b: nat ensures NoReuse(t, a, b) { assert NoReuse(sv, a, b); }
  }

  lemma HonestIsOwn(sv: Server, t: Server)
    requires Honest(sv) && t == sv.(peers := t.peers, index := t.index)
    ensures Honest(t)
  {
    forall j ensures PhaseOk(t, j) && ToldOk(t, j) { assert PhaseOk(sv, j) && ToldOk(sv, j); }
    SameLines(sv, t);
  }

  // ----- the index -----

  lemma HereIsSame(ids: seq<Bytes>, sv: Server, t: Server, s: Sub)
    requires HereLocal(sv, s) == HereLocal(t, s)
    requires forall i: nat :: HereRoute(ids, sv, i, s) == HereRoute(ids, t, i, s)
    ensures Here(ids, sv, s) == Here(ids, t, s)
  {
    if Here(ids, sv, s) && !HereLocal(sv, s) {
      var i: nat :| HereRoute(ids, sv, i, s);
      assert HereRoute(ids, t, i, s);
    }
    if Here(ids, t, s) && !HereLocal(t, s) {
      var i: nat :| HereRoute(ids, t, i, s);
      assert HereRoute(ids, sv, i, s);
    }
  }

  lemma IndexedAfterFile(ids: seq<Bytes>, sv: Server, k: SubKey, w: Want)
    requires Indexed(ids, sv) && k !in sv.locals
    ensures Indexed(ids, FiledAt(sv, k, w))
  {
    var t, s0 := FiledAt(sv, k, w), LocalSub(k, w);
    forall s ensures IndexedOnce(ids, t, s) {
      assert IndexedOnce(ids, sv, s);
      if s == s0 {
        assert HereLocal(t, s);
        assert !Here(ids, sv, s);
      } else {
        assert HereLocal(sv, s) == HereLocal(t, s);
        HereIsSame(ids, sv, t, s);
      }
    }
  }

  lemma IndexedAfterRemove(ids: seq<Bytes>, sv: Server, k: SubKey)
    requires Indexed(ids, sv) && k in sv.locals
    ensures Indexed(ids, OutOfIndex(sv, k))
  {
    var t, s0 := OutOfIndex(sv, k), LocalSub(k, sv.locals[k]);
    forall s ensures IndexedOnce(ids, t, s) {
      assert IndexedOnce(ids, sv, s);
      if s == s0 {
        assert HereLocal(sv, s);
        assert !Here(ids, t, s);
      } else {
        assert HereLocal(sv, s) == HereLocal(t, s);
        HereIsSame(ids, sv, t, s);
      }
    }
  }

  /** At most one route stands for a subscription. */
  lemma OneRoute(ids: seq<Bytes>, sv: Server, i: nat, j: nat, rsid: Bytes, w: Want)
    requires Distinct(ids) && i < |ids| && HereRoute(ids, sv, j, RouteSub(ids[i], rsid, w))
    ensures j == i
  {
    IdsDiffer(ids, i, j);
  }

  lemma IdsDiffer(ids: seq<Bytes>, i: nat, j: nat)
    requires Distinct(ids) && i < |ids| && j < |ids|
    ensures ids[i] == ids[j] ==> i == j
  {
    assert j < i ==> ids[j] != ids[i];
    assert i < j ==> ids[i] != ids[j];
  }

  lemma IndexedAfterSub(ids: seq<Bytes>, sv: Server, i: nat)
    requires Indexed(ids, sv) && Distinct(ids) && i < |ids| && i < |sv.peers| && sv.peers[i].inbox != []
    requires sv.peers[i].inbox[0].SubProto? && sv.peers[i].inbox[0].rsid !in sv.peers[i].table
    ensures Indexed(ids, Received(ids[i], sv, i))
  {
    var t, line := Received(ids[i], sv, i), sv.peers[i].inbox[0];
    var s0 := RouteSub(ids[i], line.rsid, WantOf(line));
    forall s ensures IndexedOnce(ids, t, s) {
      assert IndexedOnce(ids, sv, s) && HereLocal(sv, s) == HereLocal(t, s);
      if s == s0 {
        assert HereRoute(ids, t, i, s);
        forall j: nat ensures !HereRoute(ids, sv, j, s) {
          if HereRoute(ids, sv, j, s) { OneRoute(ids, sv, i, j, line.rsid, WantOf(line)); }
        }
      } else {
        HereIsSame(ids, sv, t, s);
      }
    }
  }

  lemma IndexedAfterUnsub(ids: seq<Bytes>, sv: Server, i: nat)
    requires Indexed(ids, sv) && Distinct(ids) && i < |ids| && i < |sv.peers| && sv.peers[i].inbox != []
    requires sv.peers[i].inbox[0].UnsubProto?
    ensures Indexed(ids, Received(ids[i], sv, i))
  {
    var t, rsid, table := Received(ids[i], sv, i), sv.peers[i].inbox[0].rsid, sv.peers[i].table;
    forall s ensures IndexedOnce(ids, t, s) {
      assert IndexedOnce(ids, sv, s) && HereLocal(sv, s) == HereLocal(t, s);
      if rsid in table && s == RouteSub(ids[i], rsid, table[rsid]) {
        assert HereRoute(ids, sv, i, s);
        forall j: nat ensures !HereRoute(ids, t, j, s) {
          if HereRoute(ids, t, j, s) { OneRoute(ids, t, i, j, rsid, table[rsid]); }
        }
      } else {
        HereIsSame(ids, sv, t, s);
      }
    }
  }

  lemma IndexedIsOwn(ids: seq<Bytes>, sv: Server, t: Server)
    requires Indexed(ids, sv) && t.locals == sv.locals && t.index == sv.index && |t.peers| == |sv.peers|
    requires forall i :: 0 <= i < |t.peers| ==> t.peers[i].table == sv.peers[i].table
    ensures Indexed(ids, t)
  {
    forall s ensures IndexedOnce(ids, t, s) {
      assert IndexedOnce(ids, sv, s) && HereLocal(sv, s) == HereLocal(t, s);
      HereIsSame(ids, sv, t, s);
    }
  }

  // ----- links -----

  lemma LinkedAfterQueue(from: Server, after: Server, p: Peer, line: Wire.Proto)
    requires Linked(from, p) && after.sent == from.sent + if line.MsgProto? then [] else [line]
    ensures Linked(after, p.(inbox := p.inbox + [line]))
  {
    InterestSnoc(p.inbox, line);
  }

  lemma LinkedAfterReceive(from: Server, id: Bytes, sv: Server, i: nat)
    requires i < |sv.peers| && sv.peers[i].inbox != [] && Linked(from, sv.peers[i])
    ensures Linked(from, Received(id, sv, i).peers[i])
  {
    var p := sv.peers[i];
    ReplaySnoc(p.got, p.inbox[0]);
    assert p.got + ([p.inbox[0]] + Interest(p.inbox[1..])) == (p.got + [p.inbox[0]]) + Interest(p.inbox[1..]);
    assert [] + Interest(p.inbox[1..]) == Interest(p.inbox[1..]);
  }

  /** A subscription that comes over a link is not in the table yet. */
  lemma ComesOnce(from: Server, p: Peer)
    requires Honest(from) && Linked(from, p) && p.inbox != [] && p.inbox[0].SubProto?
    ensures p.inbox[0].rsid !in p.table
  {
    var line := p.inbox[0];
    assert from.sent[|p.got|] == line;
    forall a: nat | a < |p.got| ensures !(p.got[a].SubProto? && p.got[a].rsid == line.rsid) {
      assert from.sent[a] == p.got[a] && NoReuse(from, a, |p.got|);
    }
    if line.rsid in Replay(p.got) {
      var a := ReplayedFrom(p.got, line.rsid);
      assert false;
    }
  }

  // ----- every step keeps the invariant -----

  lemma BroadcastKeeps(st: State, i: nat, sv: Server, line: Wire.Proto)
    requires Inv(st) && i < |st.servers| && !line.MsgProto?
    requires Honest(sv) && Indexed(st.ids, sv) && sv.sent == st.servers[i].sent + [line]
             && sv.peers == st.servers[i].peers
    ensures Inv(Broadcast(st, i, sv, line))
  {
    var t := Broadcast(st, i, sv, line);
    forall j: nat ensures ServerOk(t, j) {
      assert ServerOk(st, j);
      if j < |st.servers| && j != i {
        HonestIsOwn(st.servers[j], t.servers[j]);
        IndexedIsOwn(st.ids, st.servers[j], t.servers[j]);
      }
    }
    forall a: nat, b: nat ensures LinkOk(t, a, b) {
      assert LinkOk(st, a, b);
      if a < |st.servers| && b < |st.servers| && a != b {
        if a == i {
          LinkedAfterQueue(st.servers[a], sv, st.servers[b].peers[a], line);
        }
      }
    }
  }

  /** A step that sends nothing. */
  lemma QuietStepKeeps(st: State, i: nat, sv: Server)
    requires Inv(st) && i < |st.servers|
    requires Honest(sv) && Indexed(st.ids, sv) && sv.sent == st.servers[i].sent && sv.peers == st.servers[i].peers
    ensures Inv(At(st, i, sv))
  {
    var t := At(st, i, sv);
    forall j: nat ensures ServerOk(t, j) { assert ServerOk(st, j); }
    forall a: nat, b: nat ensures LinkOk(t, a, b) { assert LinkOk(st, a, b); }
  }

  lemma ForwardKeeps(st: State, i: nat, to: nat, msg: Wire.Proto)
    requires Inv(st) && Enabled(st, Forward(i, to, msg))
    ensures Inv(Step(st, Forward(i, to, msg)))
  {
    var t := Step(st, Forward(i, to, msg));
    forall j: nat ensures ServerOk(t, j) {
      assert ServerOk(st, j);
      if j == to {
        HonestIsOwn(st.servers[j], t.servers[j]);
        IndexedIsOwn(st.ids, st.servers[j], t.servers[j]);
      }
    }
    forall a: nat, b: nat ensures LinkOk(t, a, b) {
      assert LinkOk(st, a, b);
      if a == i && b == to {
        LinkedAfterQueue(st.servers[a], t.servers[a], st.servers[b].peers[a], msg);
      }
    }
  }

  lemma ReceivedIsOk(st: State, j: nat, i: nat)
    requires Inv(st) && Enabled(st, Receive(j, i))
    ensures Honest(Received(st.ids[i], st.servers[j], i)) && Indexed(st.ids, Received(st.ids[i], st.servers[j], i))
  {
    var sv := st.servers[j];
    var t := Received(st.ids[i], sv, i);
    assert ServerOk(st, j) && ServerOk(st, i) && LinkOk(st, i, j);
    HonestIsOwn(sv, t);
    match sv.peers[i].inbox[0]
    case SubProto(_, _, _) =>
      ComesOnce(st.servers[i], sv.peers[i]);
      IndexedAfterSub(st.ids, sv, i);
    case UnsubProto(_, _) => IndexedAfterUnsub(st.ids, sv, i);
    case MsgProto(_, _, _, _, _) => IndexedIsOwn(st.ids, sv, t);
  }

  lemma ReceiveKeeps(st: State, j: nat, i: nat)
    requires Inv(st) && Enabled(st, Receive(j, i))
    ensures Inv(Step(st, Receive(j, i)))
  {
    var t := Step(st, Receive(j, i));
    ReceivedIsOk(st, j, i);
    forall k: nat ensures ServerOk(t, k) { assert ServerOk(st, k); }
    forall a: nat, b: nat ensures LinkOk(t, a, b) {
      assert LinkOk(st, a, b);
      if a == i && b == j { LinkedAfterReceive(st.servers[a], st.ids[i], st.servers[b], i); }
    }
  }

  lemma RemoveKeepsIndex(ids: seq<Bytes>, sv: Server, k: SubKey, t: Server)
    requires Indexed(ids, sv)
    requires var o := OutOfIndex(sv, k); t.locals == o.locals && t.index == o.index && t.peers == o.peers
    ensures Indexed(ids, t)
  {
    if k in sv.locals { IndexedAfterRemove(ids, sv, k); }
    IndexedIsOwn(ids, OutOfIndex(sv, k), t);
  }

  lemma UnsubKeeps(st: State, i: nat, k: SubKey, t: Server)
    requires Inv(st) && i < |st.servers| && k in st.servers[i].wants
    requires var sv := st.servers[i];
             (k in sv.retracting && t == Retracted(sv, k)) || (k in sv.owed && t == Disowned(sv, k))
    ensures Inv(Broadcast(st, i, t, UnsubLine(k, st.servers[i].wants[k])))
  {
    assert ServerOk(st, i);
    HonestAfterUnsub(st.servers[i], k, t);
    IndexedIsOwn(st.ids, st.servers[i], t);
    BroadcastKeeps(st, i, t, UnsubLine(k, st.servers[i].wants[k]));
  }

  lemma StepKeeps(st: State, e: Event)
    requires Inv(st) && Enabled(st, e)
    ensures Inv(Step(st, e))
  {
    match e
    case File(i, k, w) =>
      assert ServerOk(st, i) && PhaseOk(st.servers[i], k);
      HonestAfterFile(st.servers[i], k, w);
      IndexedAfterFile(st.ids, st.servers[i], k, w);
      QuietStepKeeps(st, i, FiledAt(st.servers[i], k, w));
    case Announce(i, k) =>
      assert ServerOk(st, i);
      HonestAfterAnnounce(st.servers[i], k);
      IndexedIsOwn(st.ids, st.servers[i], Announced(st.servers[i], k));
      BroadcastKeeps(st, i, Announced(st.servers[i], k), SubLine(k, st.servers[i].wants[k]));
    case Drop(i, k) =>
      assert ServerOk(st, i);
      HonestAfterDrop(st.servers[i], k);
      RemoveKeepsIndex(st.ids, st.servers[i], k, Dropped(st.servers[i], k));
      QuietStepKeeps(st, i, Dropped(st.servers[i], k));
    case Retract(i, k) => UnsubKeeps(st, i, k, Retracted(st.servers[i], k));
    case Close(i, cid) =>
      assert ServerOk(st, i);
      HonestAfterClose(st.servers[i], cid);
      IndexedIsOwn(st.ids, st.servers[i], Closed(st.servers[i], cid));
      QuietStepKeeps(st, i, Closed(st.servers[i], cid));
    case Unfile(i, k) =>
      assert ServerOk(st, i);
      HonestAfterUnfile(st.servers[i], k);
      RemoveKeepsIndex(st.ids, st.servers[i], k, Unfiled(st.servers[i], k));
      QuietStepKeeps(st, i, Unfiled(st.servers[i], k));
    case Disown(i, k) => UnsubKeeps(st, i, k, Disowned(st.servers[i], k));
    case Forward(i, to, msg) => ForwardKeeps(st, i, to, msg);
    case Receive(j, i) => ReceiveKeeps(st, j, i);
  }

  // ----- runs -----

  function NewServer(n: nat): Server {
    Server(map[], map[], {}, {}, {}, {}, {}, {}, {}, [], seq(n, _ => Peer([], [], map[])), multiset{})
  }

  /** All routes registered, nothing subscribed. */
  function Init(ids: seq<Bytes>): State { State(ids, seq(|ids|, _ => NewServer(|ids|))) }

  lemma InitIsInv(ids: seq<Bytes>)
    requires Distinct(ids)
    ensures Inv(Init(ids))
  {
    var st, sv := Init(ids), NewServer(|ids|);
    forall k ensures PhaseOk(sv, k) && ToldOk(sv, k) { }
    forall a: nat ensures FromWanted(sv, a) { }
    forall a: nat, b: nat ensures NoReuse(sv, a, b) { }
    forall s ensures IndexedOnce(ids, sv, s) { assert forall i: nat :: !HereRoute(ids, sv, i, s); }
    forall j: nat ensures ServerOk(st, j) { }
    forall i: nat, j: nat ensures LinkOk(st, i, j) { }
  }

  ghost predicate Possible(st: State, es: seq<Event>)
    decreases |es|
  {
    es == [] || (Meshed(st) && Enabled(st, es[0]) && Possible(Step(st, es[0]), es[1..]))
  }

  ghost function Run(st: State, es: seq<Event>): State
    requires Possible(st, es)
    decreases |es|
  {
    if es == [] then st else Run(Step(st, es[0]), es[1..])
  }

  lemma {:induction false} RunKeeps(st: State, es: seq<Event>)
    requires Inv(st) && Possible(st, es)
    ensures Inv(Run(st, es))
    decreases |es|
  {
    if es != [] {
      StepKeeps(st, es[0]);
      RunKeeps(Step(st, es[0]), es[1..]);
    }
  }

  // ----- the interest mirror -----

  /** Nothing is left to broadcast. */
  predicate Rested(sv: Server) {
    sv.announcing == {} && sv.retracting == {} && sv.closing == {} && sv.owed == {}
  }

  /** Server `i` has told all it has to tell, and no interest is on its way from it to `j`. */
  predicate Settled(st: State, i: nat, j: nat)
    requires i < |st.servers| && j < |st.servers| && i < |st.servers[j].peers|
  {
    Rested(st.servers[i]) && Interest(st.servers[j].peers[i].inbox) == []
  }

  /** `s` is how the others know a subscription in the index of `sv`. */
  ghost predicate Wanted(sv: Server, id: Bytes, s: Sub) {
    exists k :: WantedAs(sv, id, s, k)
  }

  ghost predicate WantedAs(sv: Server, id: Bytes, s: Sub, k: SubKey) {
    k in sv.locals && s == RouteSub(id, Rsid(k, sv.locals[k]), sv.locals[k])
  }

  /** `s` is how the others still know one that is gone, and whose lines crossed. */
  ghost predicate Stale(sv: Server, id: Bytes, s: Sub) {
    exists k :: StaleAs(sv, id, s, k)
  }

  ghost predicate StaleAs(sv: Server, id: Bytes, s: Sub, k: SubKey) {
    k in sv.crossed && k in sv.wants && s == RouteSub(id, Rsid(k, sv.wants[k]), sv.wants[k])
  }

  /** In flight or not: what `j` knows of `i`, with what is on its way, is what `i` has told. */
  lemma MirrorInFlight(st: State, i: nat, j: nat, k: SubKey)
    requires Inv(st) && i < |st.servers| && j < |st.servers| && i != j
    ensures var p, sv := st.servers[j].peers[i], st.servers[i];
            var all := Replay(p.got + Interest(p.inbox));
            && p.table == Replay(p.got)
            && (k in sv.locals && k !in sv.announcing ==>
                  Rsid(k, sv.locals[k]) in all && all[Rsid(k, sv.locals[k])] == sv.locals[k])
            && (k in sv.wants && k !in sv.locals && k !in sv.retracting && k !in sv.owed && k !in sv.crossed ==>
                  Rsid(k, sv.wants[k]) !in all)
  {
    assert LinkOk(st, i, j) && ServerOk(st, i) && PhaseOk(st.servers[i], k) && ToldOk(st.servers[i], k);
  }

  /** With nothing left to broadcast, whoever has been told of is wanted or stale. */
  lemma ToldIsKept(sv: Server, id: Bytes, rsid: Bytes)
    requires Honest(sv) && Rested(sv) && rsid in Replay(sv.sent)
    ensures var s := RouteSub(id, rsid, Replay(sv.sent)[rsid]); Wanted(sv, id, s) || Stale(sv, id, s)
  {
    var s := RouteSub(id, rsid, Replay(sv.sent)[rsid]);
    var k := ToldFrom(sv, rsid);
    assert PhaseOk(sv, k) && ToldOk(sv, k);
    assert WantedAs(sv, id, s, k) || StaleAs(sv, id, s, k);
  }

  lemma MirrorIn(st: State, i: nat, j: nat, s: Sub)
    requires Inv(st) && i < |st.servers| && j < |st.servers| && i != j && Settled(st, i, j)
    requires s.conn == Conn(0, true, true, Some(st.ids[i]))
    ensures st.servers[j].index[s] ==
            if Valid(Split(s.subject)) && (Wanted(st.servers[i], st.ids[i], s) || Stale(st.servers[i], st.ids[i], s))
                then 1 else 0
  {
    var from, sv, id := st.servers[i], st.servers[j], st.ids[i];
    assert LinkOk(st, i, j) && ServerOk(st, i) && ServerOk(st, j);
    assert sv.peers[i].got + [] == sv.peers[i].got;
    assert sv.peers[i].table == Replay(from.sent);
    assert IndexedOnce(st.ids, sv, s) && !HereLocal(sv, s);
    if Wanted(from, id, s) {
      var k :| WantedAs(from, id, s, k);
      assert PhaseOk(from, k) && ToldOk(from, k);
      assert HereRoute(st.ids, sv, i, s);
    } else if Stale(from, id, s) {
      var k :| StaleAs(from, id, s, k);
      assert PhaseOk(from, k) && ToldOk(from, k);
      assert HereRoute(st.ids, sv, i, s);
    } else {
      forall a: nat ensures !HereRoute(st.ids, sv, a, s) {
        if HereRoute(st.ids, sv, a, s) {
          OneRoute(st.ids, sv, i, a, s.sid, sv.peers[a].table[s.sid]);
          ToldIsKept(from, id, s.sid);
        }
      }
    }
  }

  /** Settled, the index of `j` has exactly one entry, under its route sid, for each valid
      subscription in the index of `i`, one for each valid one whose lines crossed, and no other
      of `i`: in every run. */
  lemma Mirror(ids: seq<Bytes>, es: seq<Event>, i: nat, j: nat, s: Sub)
    requires Distinct(ids) && Possible(Init(ids), es)
    requires i < |ids| && j < |ids| && i != j && s.conn == Conn(0, true, true, Some(ids[i]))
    requires var st := Run(Init(ids), es);
             i < |st.servers| && j < |st.servers| && i < |st.servers[j].peers| && Settled(st, i, j)
    ensures var st := Run(Init(ids), es);
            st.servers[j].index[s] ==
            if Valid(Split(s.subject)) && (Wanted(st.servers[i], ids[i], s) || Stale(st.servers[i], ids[i], s))
            then 1 else 0
  {
    InitIsInv(ids);
    RunKeeps(Init(ids), es);
    RunIds(Init(ids), es);
    MirrorIn(Run(Init(ids), es), i, j, s);
  }

  /** The index of `j` is, as far as it comes from `i`, that of `i`. */
  ghost predicate Mirrors(st: State, i: nat, j: nat)
    requires i < |st.servers| && i < |st.ids| && j < |st.servers|
  {
    forall s :: MirrorsAt(st, i, j, s)
  }

  ghost predicate MirrorsAt(st: State, i: nat, j: nat, s: Sub)
    requires i < |st.servers| && i < |st.ids| && j < |st.servers|
  {
    s.conn == Conn(0, true, true, Some(st.ids[i])) ==>
      st.servers[j].index[s] == if Valid(Split(s.subject)) && Wanted(st.servers[i], st.ids[i], s) then 1 else 0
  }

  predicate NothingCrossed(sv: Server) {
    forall k :: k in sv.crossed && k in sv.wants ==> !Valid(Split(sv.wants[k].subject))
  }

  /** Settled, the index of `j` mirrors that of `i` if and only if no valid subscription of `i` had
      its UNSUB broadcast last before its SUB. */
  lemma MirrorExactly(st: State, i: nat, j: nat)
    requires Inv(st) && i < |st.servers| && j < |st.servers| && i != j && Settled(st, i, j)
    ensures Mirrors(st, i, j) <==> NothingCrossed(st.servers[i])
  {
    var sv, id := st.servers[i], st.ids[i];
    assert ServerOk(st, i);
    if NothingCrossed(sv) {
      forall s ensures MirrorsAt(st, i, j, s) {
        if s.conn == Conn(0, true, true, Some(id)) { MirrorIn(st, i, j, s); }
      }
    } else {
      var k :| k in sv.crossed && k in sv.wants && Valid(Split(sv.wants[k].subject));
      var s := RouteSub(id, Rsid(k, sv.wants[k]), sv.wants[k]);
      assert StaleAs(sv, id, s, k) && PhaseOk(sv, k);
      MirrorIn(st, i, j, s);
      forall x ensures !WantedAs(sv, id, s, x) {
        assert PhaseOk(sv, x);
        if x in sv.locals && x != k { RsidsDiffer(x, sv.locals[x], k, sv.wants[k]); }
      }
      assert !MirrorsAt(st, i, j, s);
    }
  }

  lemma {:induction false} RunIds(st: State, es: seq<Event>)
    requires Possible(st, es)
    ensures Run(st, es).ids == st.ids && |Run(st, es).servers| == |st.servers|
    decreases |es|
  {
    if es != [] { RunIds(Step(st, es[0]), es[1..]); }
  }

  /** A closed client is in a settled index exactly with the valid ones of its subscriptions whose
      lines crossed. */
  lemma ClosedIsGone(st: State, i: nat, j: nat, cid: nat, sid: Bytes, w: Want)
    requires Inv(st) && i < |st.servers| && j < |st.servers| && i != j && Settled(st, i, j)
    requires cid in st.servers[i].closed
    ensures var sv, k := st.servers[i], (cid, sid);
            st.servers[j].index[RouteSub(st.ids[i], Rsid(k, w), w)] ==
            if Valid(Split(w.subject)) && k in sv.crossed && k in sv.wants && sv.wants[k] == w then 1 else 0
  {
    var sv, k := st.servers[i], (cid, sid);
    var s := RouteSub(st.ids[i], Rsid(k, w), w);
    assert ServerOk(st, i);
    MirrorIn(st, i, j, s);
    forall x ensures !WantedAs(sv, st.ids[i], s, x) && (StaleAs(sv, st.ids[i], s, x) ==> x == k) {
      assert PhaseOk(sv, x);
      if x in sv.wants && x != k { RsidsDiffer(x, sv.wants[x], k, w); }
    }
    if k in sv.crossed && k in sv.wants && sv.wants[k] == w { assert StaleAs(sv, st.ids[i], s, k); }
  }

  // ----- when lines cross -----

  predicate NoRetract(es: seq<Event>, i: nat, k: SubKey) { forall n :: 0 <= n < |es| ==> es[n] != Retract(i, k) }

  /** In the run, whoever closes the client broadcasts the UNSUB of `k` between the filing and the
      announcement of `k`, and the client sends no UNSUB of its own afterwards. */
  ghost predicate Crosses(st: State, es: seq<Event>, i: nat, k: SubKey)
    requires i < |st.servers| && Possible(st, es)
    decreases |es|
  {
    es != [] && (
      (es[0] == Disown(i, k) && k in st.servers[i].announcing && NoRetract(es[1..], i, k)) ||
      Crosses(Step(st, es[0]), es[1..], i, k))
  }

  lemma StepCrossed(st: State, e: Event, i: nat, k: SubKey)
    requires Meshed(st) && Enabled(st, e) && i < |st.servers|
    ensures |Step(st, e).servers| == |st.servers|
    ensures k in Step(st, e).servers[i].crossed <==>
            (k in st.servers[i].crossed && e != Retract(i, k)) || (e == Disown(i, k) && k in st.servers[i].announcing)
  {
  }

  lemma {:induction false} CrossedIsCrosses(st: State, es: seq<Event>, i: nat, k: SubKey)
    requires i < |st.servers| && Possible(st, es)
    ensures i < |Run(st, es).servers|
    ensures k in Run(st, es).servers[i].crossed <==>
              (k in st.servers[i].crossed && NoRetract(es, i, k)) || Crosses(st, es, i, k)
    decreases |es|
  {
    if es != [] {
      StepCrossed(st, es[0], i, k);
      CrossedIsCrosses(Step(st, es[0]), es[1..], i, k);
      assert NoRetract(es, i, k) <==> es[0] != Retract(i, k) && NoRetract(es[1..], i, k) by {
        assert forall n :: 1 <= n < |es| ==> es[n] == es[1..][n - 1];
      }
    }
  }

  ghost predicate CrossesValid(ids: seq<Bytes>, es: seq<Event>, i: nat, k: SubKey)
    requires i < |ids| && Possible(Init(ids), es)
  {
    var sv := Run(Init(ids), es).servers;
    Crosses(Init(ids), es, i, k) && i < |sv| && k in sv[i].wants && Valid(Split(sv[i].wants[k].subject))
  }

  /** In every run that has settled, the remote index mirrors the local one if and only if the run
      has crossed the lines of no valid subscription. */
  lemma MirrorInRuns(ids: seq<Bytes>, es: seq<Event>, i: nat, j: nat)
    requires Distinct(ids) && Possible(Init(ids), es) && i < |ids| && j < |ids| && i != j
    requires var st := Run(Init(ids), es);
             i < |st.servers| && j < |st.servers| && i < |st.servers[j].peers| && Settled(st, i, j)
    ensures i < |Run(Init(ids), es).ids|
    ensures Mirrors(Run(Init(ids), es), i, j) <==> !exists k :: CrossesValid(ids, es, i, k)
  {
    var st := Run(Init(ids), es);
    InitIsInv(ids);
    RunKeeps(Init(ids), es);
    RunIds(Init(ids), es);
    MirrorExactly(st, i, j);
    forall k ensures CrossesValid(ids, es, i, k) <==>
          k in st.servers[i].crossed && k in st.servers[i].wants && Valid(Split(st.servers[i].wants[k].subject)) {
      CrossedIsCrosses(Init(ids), es, i, k);
    }
  }

  /** The client subscribes, and is closed before the announcement: a run that leaves the others
      with a subscription of nobody. */
  function Race(k: SubKey, w: Want): seq<Event> {
    [File(0, k, w), Close(0, k.0), Unfile(0, k), Disown(0, k), Announce(0, k), Receive(1, 0), Receive(1, 0)]
  }

  /** The two servers of the race: the first after its last step, the second before its first. */
  function Racer(k: SubKey, w: Want): Server {
    Announced(Disowned(Unfiled(Closed(FiledAt(NewServer(2), k, w), k.0), k), k), k)
  }

  function Misled(k: SubKey, w: Want): Server {
    Queue(Queue(NewServer(2), 0, UnsubLine(k, w)), 0, SubLine(k, w))
  }

  lemma RaceLeavesStale(ids: seq<Bytes>, k: SubKey, w: Want)
    requires Distinct(ids) && |ids| == 2 && w.queue != Some([]) && Valid(Split(w.subject))
    ensures Possible(Init(ids), Race(k, w))
    ensures var st := Run(Init(ids), Race(k, w));
            && |st.servers| == 2 && |st.servers[1].peers| == 2 && Settled(st, 0, 1)
            && st.servers[0].locals == map[] && k.0 in st.servers[0].closed
            && st.servers[1].index[RouteSub(ids[0], Rsid(k, w), w)] == 1
  {
    hide Possible, Run, Step;
    RaceFirst(ids, k, w);
    RaceSecond(ids, k, w);
  }

  function Vanished(k: SubKey, w: Want): Server { Unfiled(Closed(FiledAt(NewServer(2), k, w), k.0), k) }

  lemma RaceFirst(ids: seq<Bytes>, k: SubKey, w: Want)
    requires |ids| == 2 && w.queue != Some([])
    ensures var t := State(ids, [Racer(k, w), Misled(k, w)]);
            && (Possible(Init(ids), Race(k, w)) <==> Possible(t, Race(k, w)[5..]))
            && (Possible(t, Race(k, w)[5..]) ==> Run(Init(ids), Race(k, w)) == Run(t, Race(k, w)[5..]))
  {
    hide Possible, Run, Step;
    RaceStarts(ids, k, w);
    RaceCrosses(ids, k, w);
  }

  lemma RaceStarts(ids: seq<Bytes>, k: SubKey, w: Want)
    requires |ids| == 2 && w.queue != Some([])
    ensures var t, es := State(ids, [Vanished(k, w), NewServer(2)]), Race(k, w);
            && (Possible(Init(ids), es) <==> Possible(t, es[3..]))
            && (Possible(t, es[3..]) ==> Run(Init(ids), es) == Run(t, es[3..]))
  {
    hide Possible, Run;
    var es, a0, b0 := Race(k, w), NewServer(2), NewServer(2);
    var a1 := FiledAt(a0, k, w);
    var a2 := Closed(a1, k.0);
    assert Init(ids).servers == [a0, b0];
    Then(Init(ids), es, State(ids, [a1, b0]));
    Then(State(ids, [a1, b0]), es[1..], State(ids, [a2, b0]));
    Then(State(ids, [a2, b0]), es[2..], State(ids, [Vanished(k, w), b0]));
  }

  lemma RaceCrosses(ids: seq<Bytes>, k: SubKey, w: Want)
    requires |ids| == 2
    ensures var s, t, es := State(ids, [Vanished(k, w), NewServer(2)]), State(ids, [Racer(k, w), Misled(k, w)]),
            Race(k, w);
            && (Possible(s, es[3..]) <==> Possible(t, es[5..]))
            && (Possible(t, es[5..]) ==> Run(s, es[3..]) == Run(t, es[5..]))
  {
    hide Possible, Run;
    var es, a3, b0 := Race(k, w), Vanished(k, w), NewServer(2);
    var a4, b4 := Disowned(a3, k), Queue(b0, 0, UnsubLine(k, w));
    Then(State(ids, [a3, b0]), es[3..], State(ids, [a4, b4]));
    Then(State(ids, [a4, b4]), es[4..], State(ids, [Racer(k, w), Misled(k, w)]));
  }

  lemma RaceSecond(ids: seq<Bytes>, k: SubKey, w: Want)
    requires |ids| == 2 && w.queue != Some([]) && Valid(Split(w.subject))
    ensures var t, es := State(ids, [Racer(k, w), Misled(k, w)]), Race(k, w)[5..];
            && Possible(t, es)
            && var st := Run(t, es);
               && |st.servers| == 2 && |st.servers[1].peers| == 2 && Settled(st, 0, 1)
               && st.servers[0].locals == map[] && k.0 in st.servers[0].closed
               && st.servers[1].index[RouteSub(ids[0], Rsid(k, w), w)] == 1
  {
    var a, b, es := Racer(k, w), Misled(k, w), Race(k, w)[5..];
    var c := Received(ids[0], b, 0);
    var d := Received(ids[0], c, 0);
    assert es == [Receive(1, 0), Receive(1, 0)] && es[2..] == [];
    Then(State(ids, [a, b]), es, State(ids, [a, c]));
    Then(State(ids, [a, c]), es[1..], State(ids, [a, d]));
  }

  /** One event of a run. */
  lemma Then(st: State, es: seq<Event>, t: State)
    requires es != [] && Meshed(st) && Enabled(st, es[0]) && Step(st, es[0]) == t
    ensures Possible(st, es) <==> Possible(t, es[1..])
    ensures Possible(t, es[1..]) ==> Run(st, es) == Run(t, es[1..])
  {
  }

  // ----- the lines as bytes -----

  /** The lines a server broadcasts can be printed, and mean to the route's parser, however the
      bytes are cut, the subscription by its route sid. */
  lemma LinesArrive(env: PR.Env, k: SubKey, w: Want, chunks: seq<Bytes>, mem: seq<Bytes>)
    requires env.typ.Router? && Wire.Name(w.subject) && Wire.Name(k.1) && (w.queue.Some? ==> Wire.Name(w.queue.value))
    requires Concat(chunks) == Wire.PrintAll([SubLine(k, w), UnsubLine(k, w)]) && |mem| == |chunks|
    ensures PR.RunCuts(env, PR.Init(false), chunks, mem).log
            == [PR.Sub(w.subject, w.queue, Rsid(k, w)), PR.Unsub(Rsid(k, w), 0)]
  {
    var rsid, lines := Rsid(k, w), [SubLine(k, w), UnsubLine(k, w)];
    DigitsAreNoSpace(Decimal(k.0));
    assert NoSpace(rsid) by {
      var d := Decimal(k.0) + (":" + k.1);
      assert NoSpace(d);
      assert rsid == (if w.queue.Some? then RouteSid.QRSID else RouteSid.RSID) + (":" + d);
    }
    assert Wire.Printable(lines[0]) && Wire.Printable(lines[1]);
    Wire.RouteDelivers(env, lines, chunks, mem);
    assert lines[1..] == [lines[1]] && [lines[1]][1..] == [];
    assert Wire.Meanings(lines) == [Wire.Meaning(lines[0])] + ([Wire.Meaning(lines[1])] + Wire.Meanings([]));
  }
}
