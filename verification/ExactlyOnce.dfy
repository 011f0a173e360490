/** One publish in a settled cluster: every matching plain subscription gets the message once,
    every matching queue group once in the whole cluster, and nobody else. */
module ExactlyOnce {
  import opened Base
  import opened Args
  import opened Subject
  import opened Delivery
  import opened Cluster
  import RouteSid

  /** Nobody has anything left to broadcast, nothing of anybody's interest is on its way, and no
      lines of a valid subscription have crossed. */
  ghost predicate Quiet(st: State) {
    && (forall i: nat, j: nat :: QuietLink(st, i, j))
    && (forall i: nat :: QuietServer(st, i))
    && (forall i: nat, k :: Decodable(st, i, k))
  }

  ghost predicate QuietServer(st: State, i: nat) {
    i < |st.servers| ==> Rested(st.servers[i]) && NothingCrossed(st.servers[i])
  }

  ghost predicate QuietLink(st: State, i: nat, j: nat) {
    i < |st.servers| && j < |st.servers| && i != j && i < |st.servers[j].peers| ==> Settled(st, i, j)
  }

  /** Client ids fit their 64 bits, and the sids of queue subscriptions have no whitespace, so their
      route ids can be read back. */
  ghost predicate Decodable(st: State, i: nat, k: SubKey) {
    i < |st.servers| && k in st.servers[i].locals && st.servers[i].locals[k].queue.Some? ==> QueueIdReads(k)
  }

  predicate QueueIdReads(k: SubKey) { k.0 < TWO64 && k.1 != [] && RouteSid.NoRegexpSpace(k.1) }

  /** `k` is a live subscription of a client of server `i` that matches. */
  ghost predicate Live(st: State, i: nat, k: SubKey, toks: seq<Bytes>) {
    && i < |st.servers| && k in st.servers[i].locals
    && Valid(Split(st.servers[i].locals[k].subject)) && Matches(PathOf(st.servers[i].locals[k].subject), toks)
  }

  ghost predicate FoundAs(sv: Server, toks: seq<Bytes>, r: seq<Sub>, s: Sub) {
    multiset(r)[s] == if Matches(PathOf(s.subject), toks) then sv.index[s] else 0
  }

  /** What Match returns, in any order. */
  ghost predicate Found(sv: Server, toks: seq<Bytes>, r: seq<Sub>) { forall s :: FoundAs(sv, toks, r, s) }

  /** The tables of the clients that are registered, which routeSidQueueSubscriber looks in. */
  ghost predicate ClientAt(sv: Server, clients: Clients, cid: nat, sid: Bytes) {
    && (cid in clients && sid in clients[cid] <==> (cid, sid) in sv.table && cid !in sv.closed)
    && (cid in clients && sid in clients[cid] && (cid, sid) in sv.wants ==>
          clients[cid][sid] == LocalSub((cid, sid), sv.wants[(cid, sid)]))
  }

  ghost predicate ClientsOf(sv: Server, clients: Clients) { forall cid: nat, sid :: ClientAt(sv, clients, cid, sid) }

  /** What one delivery of the publishing server comes to: the message reaches a subscription of
      its own, or goes to server `k`, which delivers `out`. */
  datatype Hop = Hop(k: nat, clients: Clients, r: seq<Sub>, out: seq<Sub>)

  ghost predicate HopOk(st: State, i: nat, toks: seq<Bytes>, s: Sub, h: Hop) {
    if s.conn.router then
      && h.k < |st.servers| && h.k < |st.ids| && s.conn.remote == Some(st.ids[h.k])
      && ClientsOf(st.servers[h.k], h.clients) && Found(st.servers[h.k], toks, h.r)
      && Delivers(true, Named(h.clients, s.sid), h.r, h.out)
    else
      h.k == i && h.out == [s]
  }

  ghost predicate HopAt(st: State, i: nat, toks: seq<Bytes>, out: seq<Sub>, hops: seq<Hop>, a: nat) {
    a < |out| && a < |hops| ==> HopOk(st, i, toks, out[a], hops[a])
  }

  /** A publish on server `i`, and all it leads to. */
  ghost predicate Published(st: State, i: nat, toks: seq<Bytes>, r: seq<Sub>, out: seq<Sub>, hops: seq<Hop>) {
    && i < |st.servers| && Found(st.servers[i], toks, r) && Delivers(false, None, r, out)
    && |hops| == |out| && (forall a: nat :: HopAt(st, i, toks, out, hops, a))
  }

  /** How often `s` on server `k` gets the message, and how often a member of group `q`. */
  function Gets(hops: seq<Hop>, k: nat, s: Sub): nat {
    if hops == [] then 0
    else Gets(hops[..|hops| - 1], k, s) + GetsBy(hops[|hops| - 1], k, s)
  }

  function GetsBy(h: Hop, k: nat, s: Sub): nat { if h.k == k then multiset(h.out)[s] else 0 }

  function GroupGets(hops: seq<Hop>, q: Bytes): nat {
    if hops == [] then 0 else GroupGets(hops[..|hops| - 1], q) + OfQueue(hops[|hops| - 1].out, q)
  }

  // ----- the index of a settled server -----

  lemma LocalIsIndexed(st: State, i: nat, k: SubKey, toks: seq<Bytes>)
    requires Inv(st) && Live(st, i, k, toks)
    ensures st.servers[i].index[LocalSub(k, st.servers[i].locals[k])] == 1
  {
    var s := LocalSub(k, st.servers[i].locals[k]);
    assert ServerOk(st, i) && IndexedOnce(st.ids, st.servers[i], s) && HereLocal(st.servers[i], s);
  }

  lemma QuietMirror(st: State, i: nat, j: nat, s: Sub)
    requires Inv(st) && Quiet(st) && i < |st.servers| && j < |st.servers| && i != j
    requires s.conn == Conn(0, true, true, Some(st.ids[i]))
    ensures st.servers[j].index[s] == if Valid(Split(s.subject)) && Wanted(st.servers[i], st.ids[i], s) then 1 else 0
  {
    assert QuietLink(st, i, j) && QuietServer(st, i);
    MirrorExactly(st, i, j);
    assert MirrorsAt(st, i, j, s);
  }

  lemma RemoteIsIndexed(st: State, i: nat, j: nat, k: SubKey, toks: seq<Bytes>)
    requires Inv(st) && Quiet(st) && Live(st, j, k, toks) && i < |st.servers| && i != j
    ensures st.servers[i].index[RouteSub(st.ids[j], Rsid(k, st.servers[j].locals[k]), st.servers[j].locals[k])] == 1
  {
    var w := st.servers[j].locals[k];
    var s := RouteSub(st.ids[j], Rsid(k, w), w);
    assert QuietLink(st, j, i) && WantedAs(st.servers[j], st.ids[j], s, k);
    QuietMirror(st, j, i, s);
  }

  /** Whose subscription an index entry is. */
  lemma Origin(st: State, i: nat, s: Sub) returns (j: nat, k: SubKey)
    requires Inv(st) && Quiet(st) && i < |st.servers| && st.servers[i].index[s] > 0
    ensures j < |st.servers| && k in st.servers[j].locals && Valid(Split(s.subject)) && st.servers[i].index[s] == 1
    ensures s == if j == i then LocalSub(k, st.servers[j].locals[k])
                 else RouteSub(st.ids[j], Rsid(k, st.servers[j].locals[k]), st.servers[j].locals[k])
  {
    var sv := st.servers[i];
    assert ServerOk(st, i) && IndexedOnce(st.ids, sv, s);
    if HereLocal(sv, s) {
      j, k := i, (s.conn.cid, s.sid);
    } else {
      j :| HereRoute(st.ids, sv, j, s);
      assert QuietLink(st, j, i);
      QuietMirror(st, j, i, s);
      k :| WantedAs(st.servers[j], st.ids[j], s, k);
    }
  }

  // ----- one hop -----

  /** A route id of a settled peer names the subscription it was made for. */
  lemma NamedIs(st: State, j: nat, k: SubKey, clients: Clients)
    requires Inv(st) && Quiet(st) && j < |st.servers| && k in st.servers[j].locals && ClientsOf(st.servers[j], clients)
    ensures Named(clients, Rsid(k, st.servers[j].locals[k])) ==
            if st.servers[j].locals[k].queue.Some? then Some(Some(LocalSub(k, st.servers[j].locals[k]))) else None
  {
    assert Decodable(st, j, k) && ClientAt(st.servers[j], clients, k.0, k.1);
    assert ServerOk(st, j) && QuietServer(st, j) && PhaseOk(st.servers[j], k);
    if st.servers[j].locals[k].queue.Some? {
      RouteSid.RoundTrip(true, k.0, k.1);
    } else {
      RouteSid.PlainIsNotQueued(k.0, k.1);
    }
  }

  /** The hop to server `j` with the route id of `k`: the members of a group are passed over,
      and only the one named is served. */
  lemma RemoteHop(st: State, i: nat, toks: seq<Bytes>, s: Sub, h: Hop, j: nat, k: SubKey)
    requires Inv(st) && Quiet(st) && i < |st.servers| && HopOk(st, i, toks, s, h) && Live(st, j, k, toks) && i != j
    requires s == RouteSub(st.ids[j], Rsid(k, st.servers[j].locals[k]), st.servers[j].locals[k])
    ensures h.k == j && h.r != []
    ensures if s.queue.Some? then h.out == [LocalSub(k, st.servers[j].locals[k])] else IsPlan(true, h.r, h.out)
  {
    var t := LocalSub(k, st.servers[j].locals[k]);
    IdsDiffer(st.ids, h.k, j);
    LocalIsIndexed(st, j, k, toks);
    assert FoundAs(st.servers[j], toks, h.r, t);
    NamedIs(st, j, k, h.clients);
    assert t in multiset(h.r);
  }

  /** The target a plain subscription of server `k` has on server `i`. */
  function PlainTarget(ids: seq<Bytes>, i: nat, k: nat, t: Sub): Target
    requires k < |ids|
  {
    if k == i then Local(t) else Remote(ids[k])
  }

  lemma PlainByHop(st: State, i: nat, toks: seq<Bytes>, s: Sub, h: Hop, k: nat, x: SubKey)
    requires Inv(st) && Quiet(st) && i < |st.servers| && HopOk(st, i, toks, s, h)
    requires st.servers[i].index[s] > 0 && Matches(PathOf(s.subject), toks)
    requires Live(st, k, x, toks) && st.servers[k].locals[x].queue.None?
    ensures var t := LocalSub(x, st.servers[k].locals[x]);
            GetsBy(h, k, t) == if TargetOf(false, s) == Some(PlainTarget(st.ids, i, k, t)) then 1 else 0
  {
    var t := LocalSub(x, st.servers[k].locals[x]);
    var j, y := Origin(st, i, s);
    if j == i {
      assert h.out == [s];
    } else {
      RemoteHop(st, i, toks, s, h, j, y);
      IdsDiffer(st.ids, j, k);
      assert st.ids[j] != [];
      if s.queue.None? && k == j {
        CountsAreTimes(true, h.out, [], [], t);
        CountsAreTimes(true, h.r, [], [], t);
        assert Paid(true, h.r, h.out, Local(t));
        LocalIsIndexed(st, k, x, toks);
        assert FoundAs(st.servers[k], toks, h.r, t);
      }
    }
  }

  lemma {:induction false} NoMembers(out: seq<Sub>, q: Bytes)
    requires forall s :: s in out ==> s.queue.None?
    ensures OfQueue(out, q) == 0
  {
    if out != [] {
      assert out[|out| - 1] in out;
      NoMembers(out[..|out| - 1], q);
    }
  }

  lemma OneMember(s: Sub, q: Bytes)
    ensures OfQueue([s], q) == if s.queue == Some(q) then 1 else 0
  {
    assert [s][..0] == [];
  }

  lemma GroupByHop(st: State, i: nat, toks: seq<Bytes>, s: Sub, h: Hop, q: Bytes)
    requires Inv(st) && Quiet(st) && i < |st.servers| && HopOk(st, i, toks, s, h)
    requires st.servers[i].index[s] > 0 && Matches(PathOf(s.subject), toks)
    ensures OfQueue(h.out, q) == if TargetOf(false, s) == Some(Group(q)) then 1 else 0
  {
    var j, y := Origin(st, i, s);
    if j == i {
      OneMember(s, q);
    } else {
      RemoteHop(st, i, toks, s, h, j, y);
      if s.queue.Some? {
        OneMember(h.out[0], q);
      } else {
        NoMembers(h.out, q);
      }
    }
  }

  // ----- the whole publish -----

  /** The deliveries of the publishing server are of entries of its index that match. */
  lemma OutIsIndexed(st: State, i: nat, toks: seq<Bytes>, r: seq<Sub>, out: seq<Sub>, hops: seq<Hop>, a: nat)
    requires Published(st, i, toks, r, out, hops) && a < |out|
    ensures st.servers[i].index[out[a]] > 0 && Matches(PathOf(out[a].subject), toks)
            && HopOk(st, i, toks, out[a], hops[a])
  {
    assert out[a] in out && out[a] in multiset(r) && FoundAs(st.servers[i], toks, r, out[a])
        && HopAt(st, i, toks, out, hops, a);
  }

  lemma {:induction false} GetsIsTimes(st: State, i: nat, toks: seq<Bytes>, r: seq<Sub>, out: seq<Sub>, hops: seq<Hop>,
                                       n: nat, k: nat, x: SubKey)
    requires Inv(st) && Quiet(st) && Published(st, i, toks, r, out, hops) && n <= |out|
    requires Live(st, k, x, toks) && st.servers[k].locals[x].queue.None?
    ensures var t := LocalSub(x, st.servers[k].locals[x]);
            Gets(hops[..n], k, t) == Times(false, out[..n], PlainTarget(st.ids, i, k, t))
    decreases n
  {
    if n > 0 {
      var t := LocalSub(x, st.servers[k].locals[x]);
      GetsIsTimes(st, i, toks, r, out, hops, n - 1, k, x);
      OutIsIndexed(st, i, toks, r, out, hops, n - 1);
      PlainByHop(st, i, toks, out[n - 1], hops[n - 1], k, x);
      assert hops[..n][..n - 1] == hops[..n - 1] && out[..n][..n - 1] == out[..n - 1];
    }
  }

  lemma {:induction false} GroupGetsIsTimes(st: State, i: nat, toks: seq<Bytes>, r: seq<Sub>, out: seq<Sub>,
                                            hops: seq<Hop>, n: nat, q: Bytes)
    requires Inv(st) && Quiet(st) && Published(st, i, toks, r, out, hops) && n <= |out|
    ensures GroupGets(hops[..n], q) == Times(false, out[..n], Group(q))
    decreases n
  {
    if n > 0 {
      GroupGetsIsTimes(st, i, toks, r, out, hops, n - 1, q);
      OutIsIndexed(st, i, toks, r, out, hops, n - 1);
      GroupByHop(st, i, toks, out[n - 1], hops[n - 1], q);
      assert hops[..n][..n - 1] == hops[..n - 1] && out[..n][..n - 1] == out[..n - 1];
    }
  }

  lemma EmptyIsPlan()
    ensures IsPlan(false, [], [])
  {
    forall w ensures Paid(false, [], [], w) { }
  }

  /** Every plain subscription in the cluster that matches gets the message exactly once. */
  lemma PlainOnce(st: State, i: nat, toks: seq<Bytes>, r: seq<Sub>, out: seq<Sub>, hops: seq<Hop>, k: nat, x: SubKey)
    requires Inv(st) && Quiet(st) && Published(st, i, toks, r, out, hops)
    requires Live(st, k, x, toks) && st.servers[k].locals[x].queue.None?
    ensures Gets(hops, k, LocalSub(x, st.servers[k].locals[x])) == 1
  {
    var w := st.servers[k].locals[x];
    var t := LocalSub(x, w);
    var g := PlainTarget(st.ids, i, k, t);
    EmptyIsPlan();
    GetsIsTimes(st, i, toks, r, out, hops, |out|, k, x);
    assert hops[..|out|] == hops && out[..|out|] == out;
    assert Paid(false, r, out, g);
    if k == i {
      LocalIsIndexed(st, i, x, toks);
      CountsAreTimes(false, r, [], [], t);
      assert FoundAs(st.servers[i], toks, r, t);
    } else {
      RemoteIsIndexed(st, i, k, x, toks);
      var s := RouteSub(st.ids[k], Rsid(x, w), w);
      assert FoundAs(st.servers[i], toks, r, s) && s in multiset(r);
      assert st.ids[k] != [];
      Asked(false, r, s, g);
    }
  }

  ghost predicate HasMember(st: State, toks: seq<Bytes>, q: Bytes, k: nat, x: SubKey) {
    Live(st, k, x, toks) && st.servers[k].locals[x].queue == Some(q)
  }

  /** Every queue group with a member that matches gets the message exactly once in the whole
      cluster, and a group without one does not. */
  lemma GroupOnce(st: State, i: nat, toks: seq<Bytes>, r: seq<Sub>, out: seq<Sub>, hops: seq<Hop>, q: Bytes)
    requires Inv(st) && Quiet(st) && Published(st, i, toks, r, out, hops)
    ensures GroupGets(hops, q) == if exists k: nat, x :: HasMember(st, toks, q, k, x) then 1 else 0
  {
    EmptyIsPlan();
    GroupGetsIsTimes(st, i, toks, r, out, hops, |out|, q);
    assert hops[..|out|] == hops && out[..|out|] == out;
    assert Paid(false, r, out, Group(q));
    if k: nat, x :| HasMember(st, toks, q, k, x) {
      var w := st.servers[k].locals[x];
      var s := if k == i then LocalSub(x, w) else RouteSub(st.ids[k], Rsid(x, w), w);
      if k == i { LocalIsIndexed(st, i, x, toks); } else { RemoteIsIndexed(st, i, k, x, toks); }
      assert FoundAs(st.servers[i], toks, r, s) && s in multiset(r);
      Asked(false, r, s, Group(q));
    } else {
      forall s | s in r ensures TargetOf(false, s) != Some(Group(q)) {
        assert s in multiset(r) && FoundAs(st.servers[i], toks, r, s);
        var j, y := Origin(st, i, s);
        assert !HasMember(st, toks, q, j, y);
      }
      NeverAsked(false, r, Group(q));
    }
  }

  /** Whoever gets the message is a live matching subscription of a client of that server. */
  lemma OnlyMatching(st: State, i: nat, toks: seq<Bytes>, r: seq<Sub>, out: seq<Sub>, hops: seq<Hop>, a: nat, u: Sub)
    returns (x: SubKey)
    requires Inv(st) && Quiet(st) && Published(st, i, toks, r, out, hops) && a < |hops| && u in hops[a].out
    ensures Live(st, hops[a].k, x, toks) && u == LocalSub(x, st.servers[hops[a].k].locals[x])
  {
    var s, h := out[a], hops[a];
    OutIsIndexed(st, i, toks, r, out, hops, a);
    var j, y := Origin(st, i, s);
    if j == i {
      x := y;
    } else {
      RemoteHop(st, i, toks, s, h, j, y);
      if s.queue.Some? {
        x := y;
      } else {
        assert u in multiset(h.r) && FoundAs(st.servers[j], toks, h.r, u);
        var b, z := Origin(st, j, u);
        x := z;
      }
    }
  }

  // ----- ids that do not read back -----

  /** A live queue subscription of `sv`, as the others know it, and the delivery of a message sent for it. */
  ghost predicate SentFor(sv: Server, clients: Clients, k: SubKey, w: Want, r: seq<Sub>, out: seq<Sub>) {
    && ClientsOf(sv, clients) && OnlyClients(clients) && r != []
    && k in sv.table && k.0 !in sv.closed && k in sv.wants && sv.wants[k] == w && w.queue.Some?
    && k.0 < TWO64 && k.1 != []
    && Delivers(true, Named(clients, Rsid(k, w)), r, out)
  }

  /** A message that another server sends for a queue subscription reaches it if and only if its sid has no
      whitespace as the regular expression for route ids counts it. */
  lemma QueueSidReaches(sv: Server, clients: Clients, k: SubKey, w: Want, r: seq<Sub>, out: seq<Sub>)
    requires SentFor(sv, clients, k, w, r, out)
    ensures LocalSub(k, w) in out <==> RouteSid.NoRegexpSpace(k.1)
  {
    RouteSid.RoundTrip(true, k.0, k.1);
    var t := LocalSub(k, w);
    assert ClientAt(sv, clients, k.0, k.1);
    match RouteSid.Decode(Rsid(k, w))
    case NotQueued =>
      assert TargetOf(true, t) == None;
    case Queued(cid, sid) =>
      assert FiledAsClient(clients, cid, sid);
  }

  /** With whitespace behind its first bytes it goes to the subscription of the same client whose sid ends
      there, or is lost. */
  lemma ShortSidGets(sv: Server, clients: Clients, k: SubKey, w: Want, r: seq<Sub>, out: seq<Sub>)
    requires SentFor(sv, clients, k, w, r, out) && RouteSid.Solid(k.1) != []
    ensures var sid := RouteSid.Solid(k.1);
            out == if k.0 in clients && sid in clients[k.0] then [clients[k.0][sid]] else []
  {
    RouteSid.DecodesShort(k.0, k.1);
    assert ClientAt(sv, clients, k.0, k.1);
  }

  // ----- entries that outlive their clients -----

  /** Where the races that Quiet shuts out have left an entry of a closed client, a group whose
      member it names loses the message: the server it is sent on to delivers it to nobody. */
  lemma StaleWinnerLoses(sv: Server, clients: Clients, k: SubKey, w: Want, r: seq<Sub>, out: seq<Sub>)
    requires ClientsOf(sv, clients) && (k !in sv.table || k.0 in sv.closed)
    requires w.queue.Some? && QueueIdReads(k)
    requires Delivers(true, Named(clients, Rsid(k, w)), r, out)
    ensures out == []
  {
    RouteSid.RoundTrip(true, k.0, k.1);
    assert ClientAt(sv, clients, k.0, k.1);
  }

  /** So it is after the race of `Cluster.Race`, with the entry the other server holds. */
  lemma RaceLosesMessage(ids: seq<Bytes>, k: SubKey, w: Want, clients: Clients, r: seq<Sub>, out: seq<Sub>)
    requires Distinct(ids) && |ids| == 2 && Valid(Split(w.subject))
    requires w.queue.Some? && w.queue != Some([]) && QueueIdReads(k)
    ensures Possible(Init(ids), Race(k, w))
    ensures var st, entry := Run(Init(ids), Race(k, w)), RouteSub(ids[0], Rsid(k, w), w);
            && |st.servers| == 2 && st.servers[1].index[entry] == 1
            && (ClientsOf(st.servers[0], clients) && Delivers(true, Named(clients, entry.sid), r, out) ==> out == [])
  {
    RaceLeavesStale(ids, k, w);
    var st := Run(Init(ids), Race(k, w));
    assert k.0 in st.servers[0].closed;
    if ClientsOf(st.servers[0], clients) && Delivers(true, Named(clients, Rsid(k, w)), r, out) {
      StaleWinnerLoses(st.servers[0], clients, k, w, r, out);
    }
  }
}
