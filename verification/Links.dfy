/** The links of the cluster: messages come in the order in which they were put on, each once, and a link
    that is read is soon empty, so that what a server has told is known. */
module Links {
  import opened Base
  import opened Cluster
  import Wire

  function Msgs(lines: seq<Wire.Proto>): seq<Wire.Proto> {
    if lines == [] then [] else Only(lines[0]) + Msgs(lines[1..])
  }

  function Only(line: Wire.Proto): seq<Wire.Proto> { if line.MsgProto? then [line] else [] }

  lemma MsgsCons(lines: seq<Wire.Proto>)
    requires lines != []
    ensures Msgs(lines) == Only(lines[0]) + Msgs(lines[1..])
  {
  }

  lemma {:induction false} MsgsSnoc(lines: seq<Wire.Proto>, line: Wire.Proto)
    ensures Msgs(lines + [line]) == Msgs(lines) + Only(line)
    decreases |lines|
  {
    hide Msgs, Only;
    MsgsCons(lines + [line]);
    if lines == [] {
      assert (lines + [line])[1..] == [] == lines;
      NoMsgs();
      assert Only(line) + [] == [] + Only(line);
    } else {
      assert (lines + [line])[1..] == lines[1..] + [line];
      MsgsCons(lines);
      MsgsSnoc(lines[1..], line);
      assert Only(lines[0]) + (Msgs(lines[1..]) + Only(line)) == (Only(lines[0]) + Msgs(lines[1..])) + Only(line);
    }
  }

  lemma NoMsgs()
    ensures Msgs([]) == []
  {
  }

  /** What is on its way from `i` to `j`. */
  ghost function OnWay(st: State, i: nat, j: nat): seq<Wire.Proto>
    requires Meshed(st) && i < |st.servers| && j < |st.servers|
  {
    st.servers[j].peers[i].inbox
  }

  /** A message put on the link, and one taken from it. */
  function Put(e: Event, i: nat, j: nat): seq<Wire.Proto> {
    if e.Forward? && e.i == i && e.to == j then [e.msg] else []
  }

  ghost function Taken(st: State, e: Event, i: nat, j: nat): seq<Wire.Proto>
    requires Meshed(st) && i < |st.servers| && j < |st.servers| && Enabled(st, e)
  {
    if e == Receive(j, i) then Only(OnWay(st, i, j)[0]) else []
  }

  lemma StaysMeshed(st: State, e: Event)
    requires Meshed(st) && Enabled(st, e)
    ensures var t := Step(st, e); Meshed(t) && t.ids == st.ids && |t.servers| == |st.servers|
  {
    hide FiledAt, OutOfIndex;
    if e.File? { SamePeers(st.servers[e.i], e.k, e.w); }
    if e.Drop? || e.Unfile? { IndexPeers(st.servers[e.i], e.k); }
  }

  lemma SamePeers(sv: Server, k: SubKey, w: Want)
    ensures FiledAt(sv, k, w).peers == sv.peers
  {
  }

  lemma IndexPeers(sv: Server, k: SubKey)
    ensures OutOfIndex(sv, k).peers == sv.peers
  {
  }

  /** What the link gains and loses in a step. */
  ghost predicate Moves(st: State, e: Event, i: nat, j: nat)
    requires Meshed(st) && Enabled(st, e) && i < |st.servers| && j < |st.servers|
  {
    && Meshed(Step(st, e)) && |Step(st, e).servers| == |st.servers|
    && Msgs(OnWay(st, i, j)) + Put(e, i, j) == Taken(st, e, i, j) + Msgs(OnWay(Step(st, e), i, j))
  }

  /** A step takes from the front of a link and puts on at its end. */
  lemma LinkStep(st: State, e: Event, i: nat, j: nat)
    requires Meshed(st) && Enabled(st, e) && i < |st.servers| && j < |st.servers|
    ensures Moves(st, e, i, j)
  {
    hide *;
    if e.Forward? || e.Receive? {
      MessageStep(st, e, i, j);
    } else if e.Announce? || e.Retract? || e.Disown? {
      TellingStep(st, e, i, j);
    } else {
      LocalStep(st, e, i, j);
    }
  }

  lemma LocalStep(st: State, e: Event, i: nat, j: nat)
    requires Meshed(st) && Enabled(st, e) && i < |st.servers| && j < |st.servers|
    requires e.File? || e.Drop? || e.Unfile? || e.Close?
    ensures Moves(st, e, i, j)
  {
    hide FiledAt, OutOfIndex, Msgs;
    StaysMeshed(st, e);
    if e.File? { SamePeers(st.servers[e.i], e.k, e.w); }
    if e.Drop? || e.Unfile? { IndexPeers(st.servers[e.i], e.k); }
    var m := Msgs(OnWay(st, i, j));
    assert OnWay(Step(st, e), i, j) == OnWay(st, i, j) && m + [] == [] + m;
  }

  lemma TellingStep(st: State, e: Event, i: nat, j: nat)
    requires Meshed(st) && Enabled(st, e) && i < |st.servers| && j < |st.servers|
    requires e.Announce? || e.Retract? || e.Disown?
    ensures Moves(st, e, i, j)
  {
    hide Msgs, Broadcast;
    StaysMeshed(st, e);
    var w := st.servers[e.i].wants[e.k];
    if e.Announce? {
      ToldOn(st, e.i, Announced(st.servers[e.i], e.k), SubLine(e.k, w), i, j);
    } else {
      ToldOn(st, e.i, if e.Retract? then Retracted(st.servers[e.i], e.k) else Disowned(st.servers[e.i], e.k),
             UnsubLine(e.k, w), i, j);
    }
    var m := Msgs(OnWay(st, i, j));
    assert m + [] == [] + m;
  }

  lemma MessageStep(st: State, e: Event, i: nat, j: nat)
    requires Meshed(st) && Enabled(st, e) && i < |st.servers| && j < |st.servers| && (e.Forward? || e.Receive?)
    ensures Moves(st, e, i, j)
  {
    hide Msgs;
    StaysMeshed(st, e);
    var was, now := OnWay(st, i, j), OnWay(Step(st, e), i, j);
    assert Msgs(was) + [] == [] + Msgs(was);
    if e == Receive(j, i) {
      assert now == was[1..];
      MsgsCons(was);
      assert Msgs(was) + [] == Msgs(was);
    } else if e.Forward? && e.i == i && e.to == j {
      MsgsSnoc(was, e.msg);
      assert [] + Msgs(now) == Msgs(now);
    } else {
      assert now == was;
    }
  }

  /** A line of interest is no message. */
  lemma ToldOn(st: State, a: nat, sv: Server, line: Wire.Proto, i: nat, j: nat)
    requires Meshed(st) && a < |st.servers| && sv.peers == st.servers[a].peers && !line.MsgProto?
    requires i < |st.servers| && j < |st.servers|
    ensures Meshed(Broadcast(st, a, sv, line))
    ensures Msgs(OnWay(Broadcast(st, a, sv, line), i, j)) == Msgs(OnWay(st, i, j))
  {
    hide Msgs;
    MsgsSnoc(OnWay(st, i, j), line);
    assert Msgs(OnWay(st, i, j)) + [] == Msgs(OnWay(st, i, j));
  }

  // ----- runs -----

  function Forwarded(es: seq<Event>, i: nat, j: nat): seq<Wire.Proto> {
    if es == [] then [] else Put(es[0], i, j) + Forwarded(es[1..], i, j)
  }

  ghost function Arrived(st: State, es: seq<Event>, i: nat, j: nat): seq<Wire.Proto>
    requires Possible(st, es) && Meshed(st) && i < |st.servers| && j < |st.servers|
    decreases |es|
  {
    if es == [] then []
    else
      StaysMeshed(st, es[0]);
      Taken(st, es[0], i, j) + Arrived(Step(st, es[0]), es[1..], i, j)
  }

  /** Over any run what has arrived from a server, with what is still on its way, is what was on its way
      and what was put on, in this order: nothing is lost, doubled or overtaken. */
  lemma {:induction false} InOrder(st: State, es: seq<Event>, i: nat, j: nat)
    requires Possible(st, es) && Meshed(st) && i < |st.servers| && j < |st.servers|
    ensures var t := Run(st, es); Meshed(t) && i < |t.servers| && j < |t.servers|
    ensures Msgs(OnWay(st, i, j)) + Forwarded(es, i, j) == Arrived(st, es, i, j) + Msgs(OnWay(Run(st, es), i, j))
    decreases |es|
  {
    hide Step, Enabled, Msgs, OnWay, Put, Taken;
    if es == [] {
      assert Msgs(OnWay(st, i, j)) + [] == [] + Msgs(OnWay(st, i, j));
    } else {
      var t := Step(st, es[0]);
      LinkStep(st, es[0], i, j);
      InOrder(t, es[1..], i, j);
      var m, p, f := Msgs(OnWay(st, i, j)), Put(es[0], i, j), Forwarded(es[1..], i, j);
      var a, r := Taken(st, es[0], i, j), Arrived(t, es[1..], i, j);
      var n, o := Msgs(OnWay(t, i, j)), Msgs(OnWay(Run(t, es[1..]), i, j));
      assert m + (p + f) == (m + p) + f == (a + n) + f == a + (n + f) == a + (r + o) == (a + r) + o;
    }
  }

  function Receives(j: nat, i: nat, n: nat): seq<Event> {
    if n == 0 then [] else [Receive(j, i)] + Receives(j, i, n - 1)
  }

  /** As many receptions as there are lines on the link are possible, and leave it empty. */
  lemma {:induction false} Drains(st: State, i: nat, j: nat)
    requires Inv(st) && i < |st.servers| && j < |st.servers| && i != j
    ensures var es := Receives(j, i, |OnWay(st, i, j)|);
            && Possible(st, es)
            && var t := Run(st, es);
               && Inv(t) && Meshed(t) && t.ids == st.ids && |t.servers| == |st.servers|
               && t.servers[i] == st.servers[i] && OnWay(t, i, j) == []
    decreases |OnWay(st, i, j)|
  {
    hide Received, Inv;
    InvIsMeshed(st);
    if OnWay(st, i, j) != [] {
      ReceivesOne(st, i, j);
      StepKeeps(st, Receive(j, i));
      var es := Receives(j, i, |OnWay(st, i, j)|);
      assert es[1..] == Receives(j, i, |OnWay(st, i, j)| - 1);
      Drains(Step(st, Receive(j, i)), i, j);
    }
  }

  lemma ReceivesOne(st: State, i: nat, j: nat)
    requires Inv(st) && i < |st.servers| && j < |st.servers| && i != j && OnWay(st, i, j) != []
    ensures Enabled(st, Receive(j, i)) && Meshed(st)
    ensures var t := Step(st, Receive(j, i));
            && Meshed(t) && t.ids == st.ids && |t.servers| == |st.servers| && t.servers[i] == st.servers[i]
            && OnWay(t, i, j) == OnWay(st, i, j)[1..]
  {
  }

  /** Once a server has told all it has to tell, and the other has read its link, the other knows what it
      is to know: the mirror comes about, on the condition of `Cluster.MirrorExactly`. */
  lemma ComesAbout(st: State, i: nat, j: nat)
    requires Inv(st) && i < |st.servers| && j < |st.servers| && i != j && Rested(st.servers[i])
    ensures var es := Receives(j, i, |OnWay(st, i, j)|);
            && Possible(st, es)
            && var t := Run(st, es);
               && i < |t.servers| && i < |t.ids| && j < |t.servers|
               && (Mirrors(t, i, j) <==> NothingCrossed(st.servers[i]))
  {
    hide Inv, Mirrors, NothingCrossed;
    Drains(st, i, j);
    var t := Run(st, Receives(j, i, |OnWay(st, i, j)|));
    InvIsMeshed(t);
    MirrorExactly(t, i, j);
  }

  lemma InvIsMeshed(st: State)
    requires Inv(st)
    ensures Meshed(st)
  {
  }
}
