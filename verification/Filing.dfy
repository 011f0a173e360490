/** The index of a server, as `Cluster` and `ExactlyOnce` count it, is what its sublist holds: a publish
    finds what Sublist.Match returns. */
module Filing {
  import opened Base
  import opened Subject
  import I = Index
  import opened SubSlices
  import S = Sublist
  import opened Delivery
  import opened Cluster
  import X = ExactlyOnce

  /** The subscriptions that the pointers `ids` are. */
  function Called(ids: seq<I.SubId>, name: I.SubId -> Sub): (r: seq<Sub>)
    ensures |r| == |ids| && forall k :: 0 <= k < |ids| ==> r[k] == name(ids[k])
  {
    if ids == [] then [] else Called(ids[..|ids| - 1], name) + [name(ids[|ids| - 1])]
  }

  function Subs(live: I.Live, name: I.SubId -> Sub): multiset<Sub> {
    if live == [] then multiset{} else Subs(live[..|live| - 1], name) + multiset{name(live[|live| - 1].sub)}
  }

  /** Each subscription is filed under its subject. */
  ghost predicate FiledRight(live: I.Live, name: I.SubId -> Sub) {
    forall e :: e in live ==> e.path == PathOf(name(e.sub).subject)
  }

  /** The list of a sublist holds what the index counts. */
  ghost predicate Holds(live: I.Live, name: I.SubId -> Sub, index: multiset<Sub>) {
    Subs(live, name) == index && FiledRight(live, name)
  }

  // ----- the order does not matter -----

  lemma CalledSplit(a: seq<I.SubId>, b: seq<I.SubId>, name: I.SubId -> Sub)
    ensures Called(a + b, name) == Called(a, name) + Called(b, name)
  {
  }

  lemma TakenOut(a: seq<I.SubId>, id: I.SubId, b: seq<I.SubId>, name: I.SubId -> Sub)
    ensures multiset(Called(a + [id] + b, name)) == multiset(Called(a + b, name)) + multiset{name(id)}
  {
    CalledSplit(a, b, name);
    CalledSplit(a, [id], name);
    CalledSplit(a + [id], b, name);
    assert Called([id], name) == [name(id)];
  }

  lemma OneOut(q: seq<I.SubId>, k: nat)
    requires k < |q|
    ensures q == q[..k] + [q[k]] + q[k + 1..]
    ensures multiset(q[..k] + q[k + 1..]) == multiset(q) - multiset{q[k]}
  {
    var a, b := q[..k], q[k + 1..];
    assert q == a + [q[k]] + b;
    assert multiset(q) == multiset(a) + multiset{q[k]} + multiset(b);
  }

  /** The last of `r` is somewhere in `q`, and the others are the rest. */
  lemma Elsewhere(r: seq<I.SubId>, q: seq<I.SubId>) returns (k: nat)
    requires multiset(r) == multiset(q) && r != []
    ensures k < |q| && q[k] == r[|r| - 1] && q == q[..k] + [q[k]] + q[k + 1..]
    ensures multiset(r[..|r| - 1]) == multiset(q[..k] + q[k + 1..])
  {
    var n := |r| - 1;
    assert r[n] in multiset(r) && r[n] in multiset(q);
    k :| k < |q| && q[k] == r[n];
    OneOut(q, k);
    OneOut(r, n);
    assert r[..n] + r[n + 1..] == r[..n];
  }

  lemma {:induction false} SameCalled(r: seq<I.SubId>, q: seq<I.SubId>, name: I.SubId -> Sub)
    requires multiset(r) == multiset(q)
    ensures multiset(Called(r, name)) == multiset(Called(q, name))
    decreases |r|
  {
    if r == [] {
      assert |multiset(q)| == 0;
    } else {
      var n := |r| - 1;
      var k := Elsewhere(r, q);
      assert Called(r, name) == Called(r[..n], name) + [name(r[n])];
      SameCalled(r[..n], q[..k] + q[k + 1..], name);
      TakenOut(q[..k], q[k], q[k + 1..], name);
    }
  }

  // ----- Match -----

  lemma {:induction false} ListCalled(live: I.Live, name: I.SubId -> Sub, toks: seq<Bytes>, s: Sub)
    requires FiledRight(live, name)
    ensures multiset(Called(I.MatchList(live, toks), name))[s] ==
            if Matches(PathOf(s.subject), toks) then Subs(live, name)[s] else 0
    decreases |live|
  {
    if live != [] {
      var most, e := live[..|live| - 1], live[|live| - 1];
      assert e in live && forall f :: f in most ==> f in live;
      assert e.path == PathOf(name(e.sub).subject);
      ListCalled(most, name, toks, s);
      hide Matches, PathOf, FiledRight;
      var found := I.MatchList(most, toks);
      if Matches(e.path, toks) {
        assert I.MatchList(live, toks) == found + [e.sub];
        OneMore(found, e.sub, name);
      } else {
        assert I.MatchList(live, toks) == found;
      }
    }
  }

  lemma OneMore(found: seq<I.SubId>, id: I.SubId, name: I.SubId -> Sub)
    ensures multiset(Called(found + [id], name)) == multiset(Called(found, name)) + multiset{name(id)}
  {
    CalledSplit(found, [id], name);
    assert Called([id], name) == [name(id)];
  }

  /** What Match returns for a subject is what a publish on it finds. */
  lemma MatchFinds(sv: Server, live: I.Live, name: I.SubId -> Sub, toks: seq<Bytes>, r: seq<I.SubId>)
    requires Holds(live, name, sv.index) && multiset(r) == multiset(I.MatchList(live, toks))
    ensures X.Found(sv, toks, Called(r, name))
  {
    SameCalled(r, I.MatchList(live, toks), name);
    forall s ensures X.FoundAs(sv, toks, Called(r, name), s) { ListCalled(live, name, toks, s); }
  }

  /** Match itself, on the sublist of the server. */
  method FindIn(sl: S.Sublist, ghost sv: Server, ghost name: I.SubId -> Sub, subject: Bytes, random: nat)
    returns (r: SubSlice)
    requires sl.Valid() && sl.tame && S.Plain(subject) && Holds(sl.trie.live, name, sv.index)
    modifies sl.cache, sl.cache.Inner()
    ensures sl.Valid() && r in sl.cache.made && X.Found(sv, Split(subject), Called(sl.cache.made[r], name))
  {
    ghost var live := sl.trie.live;
    r := sl.Match(subject, random);
    MatchFinds(sv, live, name, Split(subject), sl.cache.made[r]);
  }

  // ----- Insert and Remove -----

  lemma InsertHolds(live: I.Live, name: I.SubId -> Sub, index: multiset<Sub>, id: I.SubId)
    requires Holds(live, name, index)
    ensures Holds(live + [I.Entry(PathOf(name(id).subject), id)], name, index + multiset{name(id)})
  {
    var e := I.Entry(PathOf(name(id).subject), id);
    assert (live + [e])[..|live|] == live;
  }

  lemma {:induction false} SubsCons(e: I.Entry, t: I.Live, name: I.SubId -> Sub)
    ensures Subs([e] + t, name) == multiset{name(e.sub)} + Subs(t, name)
    decreases |t|
  {
    var all := [e] + t;
    if t == [] {
      assert all == [e] && all[..0] == [];
    } else {
      var n := |t| - 1;
      assert all[..n + 1] == [e] + t[..n] && all[n + 1] == t[n];
      SubsCons(e, t[..n], name);
    }
  }

  /** No other pointer of the list is the same subscription. */
  ghost predicate OnlyOne(live: I.Live, name: I.SubId -> Sub, id: I.SubId) {
    forall e :: e in live && name(e.sub) == name(id) ==> e.sub == id
  }

  lemma {:induction false} RemoveFirstKeeps(live: I.Live, e: I.Entry)
    ensures forall f :: f in I.RemoveFirst(live, e) ==> f in live
  {
    if live != [] && live[0] != e {
      RemoveFirstKeeps(live[1..], e);
    }
  }

  lemma MinusOne(a: Sub, m: multiset<Sub>, b: Sub)
    ensures (multiset{a} + m) - multiset{b} == if a == b then m else multiset{a} + (m - multiset{b})
  {
  }

  lemma {:induction false} RemoveSubs(live: I.Live, name: I.SubId -> Sub, id: I.SubId)
    requires FiledRight(live, name) && OnlyOne(live, name, id)
    ensures Subs(I.RemoveFirst(live, I.Entry(PathOf(name(id).subject), id)), name)
            == Subs(live, name) - multiset{name(id)}
    decreases |live|
  {
    var e := I.Entry(PathOf(name(id).subject), id);
    if live != [] {
      var h, t := live[0], live[1..];
      assert live == [h] + t && h in live && forall f :: f in t ==> f in live;
      assert h == e <==> name(h.sub) == name(id);
      PartIsRight(live, t, name);
      assert OnlyOne(t, name, id);
      hide *;
      SubsCons(h, t, name);
      MinusOne(name(h.sub), Subs(t, name), name(id));
      I.RemoveFirstCons(h, t, e);
      if h != e {
        RemoveSubs(t, name, id);
        SubsCons(h, I.RemoveFirst(t, e), name);
      }
    }
  }

  lemma PartIsRight(live: I.Live, part: I.Live, name: I.SubId -> Sub)
    requires FiledRight(live, name) && forall f :: f in part ==> f in live
    ensures FiledRight(part, name)
  {
  }

  lemma RemoveHolds(live: I.Live, name: I.SubId -> Sub, index: multiset<Sub>, id: I.SubId)
    requires Holds(live, name, index) && OnlyOne(live, name, id)
    ensures Holds(I.RemoveFirst(live, I.Entry(PathOf(name(id).subject), id)), name, index - multiset{name(id)})
  {
    RemoveSubs(live, name, id);
    RemoveFirstKeeps(live, I.Entry(PathOf(name(id).subject), id));
  }
}
