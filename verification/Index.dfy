/** The subscription index as a plain list, and the trie of sublist/sublist.go as the finite
    map from node paths to the subscribers at the node. */
module Index {
  import opened Base
  import opened Subject

  /** A subscriber, as the pointer it is in the source. */
  type SubId = nat

  datatype Entry = Entry(path: Path, sub: SubId)

  type Live = seq<Entry>

  // ----- the list -----

  /** The selections made from the list: the entries filed at a path, those whose subject
      matches, and those below a path whose rest matches. */
  datatype Query = AtPath(p: Path) | Matching(toks: seq<Bytes>) | Below(p: Path, toks: seq<Bytes>)

  predicate Hits(q: Query, e: Entry) {
    match q
    case AtPath(p) => e.path == p
    case Matching(toks) => Matches(e.path, toks)
    case Below(p, toks) => p <= e.path && Matches(e.path[|p|..], toks)
  }

  /** The subscribers of the entries hit, in the order of insertion. */
  function Select(live: Live, q: Query): seq<SubId> {
    if live == [] then []
    else Select(live[..|live| - 1], q) + if Hits(q, live[|live| - 1]) then [live[|live| - 1].sub] else []
  }

  /** The specification of Match: everybody whose subject matches, token by token. */
  function MatchList(live: Live, toks: seq<Bytes>): seq<SubId> { Select(live, Matching(toks)) }

  function At(live: Live, p: Path): seq<SubId> { Select(live, AtPath(p)) }

  function RemoveFirst<T(==)>(s: seq<T>, x: T): seq<T> {
    if s == [] then [] else if s[0] == x then s[1..] else [s[0]] + RemoveFirst(s[1..], x)
  }

  lemma {:induction false} RemoveFirstIsRemoval<T>(s: seq<T>, x: T)
    ensures multiset(RemoveFirst(s, x)) == multiset(s) - multiset{x}
    ensures |RemoveFirst(s, x)| == if x in s then |s| - 1 else |s|
    ensures x !in s ==> RemoveFirst(s, x) == s
  {
    if s != [] {
      assert s == [s[0]] + s[1..];
      if s[0] != x {
        RemoveFirstIsRemoval(s[1..], x);
      }
    }
  }

  lemma {:induction false} SelectAppend(a: Live, b: Live, f: Query)
    ensures Select(a + b, f) == Select(a, f) + Select(b, f)
    decreases |b|
  {
    if b == [] {
      assert a + b == a;
    } else {
      var c := b[..|b| - 1];
      assert (a + b)[..|a + b| - 1] == a + c;
      SelectAppend(a, c, f);
    }
  }

  lemma SelectOne(e: Entry, f: Query)
    ensures Select([e], f) == if Hits(f, e) then [e.sub] else []
  {
    assert [e][..0] == [];
  }

  lemma SelectSnoc(live: Live, e: Entry, f: Query)
    ensures Select(live + [e], f) == Select(live, f) + if Hits(f, e) then [e.sub] else []
  {
    SelectAppend(live, [e], f);
    SelectOne(e, f);
  }

  lemma SelectCons(h: Entry, t: Live, q: Query)
    ensures Select([h] + t, q) == (if Hits(q, h) then [h.sub] else []) + Select(t, q)
  {
    SelectAppend([h], t, q);
    SelectOne(h, q);
  }

  lemma RemoveFirstCons<T>(h: T, t: seq<T>, x: T)
    ensures RemoveFirst([h] + t, x) == if h == x then t else [h] + RemoveFirst(t, x)
  {
    assert ([h] + t)[1..] == t;
  }

  /** Removing the first equal entry removes the first equal subscriber among those at its
      path, and changes nothing for a selection that leaves the entry out. */
  lemma {:induction false} SelectRemove(live: Live, e: Entry, f: Query)
    ensures !Hits(f, e) ==> Select(RemoveFirst(live, e), f) == Select(live, f)
    decreases |live|
  {
    if live != [] {
      var h, t := live[0], live[1..];
      assert live == [h] + t;
      SelectCons(h, t, f);
      RemoveFirstCons(h, t, e);
      if h != e {
        SelectRemove(t, e, f);
        SelectCons(h, RemoveFirst(t, e), f);
      }
    }
  }

  lemma {:induction false} AtRemove(live: Live, e: Entry)
    ensures At(RemoveFirst(live, e), e.path) == RemoveFirst(At(live, e.path), e.sub)
    decreases |live|
  {
    if live != [] {
      var h, t, q := live[0], live[1..], AtPath(e.path);
      assert live == [h] + t;
      AtRemove(t, e);
      SelectCons(h, t, q);
      RemoveFirstCons(h, t, e);
      if h == e {
        RemoveFirstCons(e.sub, Select(t, q), e.sub);
      } else {
        SelectCons(h, RemoveFirst(t, e), q);
        if h.path == e.path {
          RemoveFirstCons(h.sub, Select(t, q), e.sub);
        } else {
          assert [] + Select(t, q) == Select(t, q);
        }
      }
    }
  }

  lemma {:induction false} InAt(live: Live, e: Entry)
    ensures e in live <==> e.sub in At(live, e.path)
    decreases |live|
  {
    if live != [] {
      var before, last := live[..|live| - 1], live[|live| - 1];
      assert live == before + [last];
      InAt(before, e);
    }
  }

  lemma {:induction false} SelectSame(live: Live, f: Query, g: Query)
    requires forall e :: e in live ==> (Hits(f, e) <==> Hits(g, e))
    ensures Select(live, f) == Select(live, g)
    decreases |live|
  {
    if live != [] {
      assert live[|live| - 1] in live;
      SelectSame(live[..|live| - 1], f, g);
    }
  }

  lemma {:induction false} SelectNone(live: Live, f: Query)
    requires forall e :: e in live ==> !Hits(f, e)
    ensures Select(live, f) == []
    decreases |live|
  {
    if live != [] {
      assert live[|live| - 1] in live;
      SelectNone(live[..|live| - 1], f);
    }
  }

  // ----- the trie -----

  /** The nodes of the trie with their subscribers. */
  type Store = map<Path, seq<SubId>>

  ghost function SubsAt(store: Store, p: Path): seq<SubId> { if p in store then store[p] else [] }

  /** What the walk of matchLevel collects from the level below `p`. */
  ghost function Walk(store: Store, p: Path, toks: seq<Bytes>): seq<SubId>
    decreases |toks|
  {
    if toks == [] then []
    else
      var lit := p + [Lit(toks[0])];
      var pwc := p + [Pwc];
      SubsAt(store, p + [Fwc]) +
      (if pwc in store then Walk(store, pwc, toks[1..]) else []) +
      if |toks| == 1 then SubsAt(store, lit) + SubsAt(store, pwc)
      else if lit in store then Walk(store, lit, toks[1..])
      else []
  }

  /** The store holds the list: every entry at its path, in order, and all nodes above it,
      up to the root. */
  ghost predicate Holds(store: Store, live: Live) {
    && [] in store
    && (forall p :: Kept(store, live, p))
    && (forall e :: e in live ==> e.path in store)
  }

  /** The node holds what is filed there, and the node above it is there too. */
  ghost predicate Kept(store: Store, live: Live, p: Path) {
    p in store ==> store[p] == At(live, p) && (p != [] ==> p[..|p| - 1] in store)
  }

  lemma BelowSplits(e: Entry, p: Path, toks: seq<Bytes>)
    requires toks != [] && Filed(e.path)
    ensures Parts(e, Below(p, toks), AtPath(p + [Fwc]), Below(p + [Pwc], toks[1..]),
                  Below(p + [Lit(toks[0])], toks[1..]))
  {
    if p <= e.path && |p| < |e.path| {
      var k := e.path[|p|];
      assert e.path[|p|..][0] == k && e.path[|p|..][1..] == e.path[|p| + 1..];
      assert p + [k] <= e.path;
      assert e.path == p + [k] + e.path[|p| + 1..];
    }
  }

  /** Paths Insert can have filed: some token, and a full wildcard only at the end. */
  ghost predicate Filed(p: Path) {
    p != [] && forall k :: 0 <= k < |p| - 1 ==> !p[k].Fwc?
  }

  ghost predicate AllFiled(live: Live) { forall e :: e in live ==> Filed(e.path) }

  /** What is reached below `p` is filed under a full wildcard there, or reached below the
      partial wildcard, or below the token. */
  lemma ReachSplits(live: Live, p: Path, toks: seq<Bytes>)
    requires toks != [] && AllFiled(live)
    ensures multiset(Select(live, Below(p, toks))) ==
            multiset(At(live, p + [Fwc])) + multiset(Select(live, Below(p + [Pwc], toks[1..]))) +
            multiset(Select(live, Below(p + [Lit(toks[0])], toks[1..])))
  {
    var f, w, l := AtPath(p + [Fwc]), Below(p + [Pwc], toks[1..]), Below(p + [Lit(toks[0])], toks[1..]);
    forall e | e in live ensures Parts(e, Below(p, toks), f, w, l) {
      BelowSplits(e, p, toks);
    }
    SelectThree(live, Below(p, toks), f, w, l);
  }

  ghost predicate Parts(e: Entry, q: Query, f: Query, g: Query, h: Query) {
    && (Hits(q, e) <==> Hits(f, e) || Hits(g, e) || Hits(h, e))
    && !(Hits(f, e) && Hits(g, e)) && !(Hits(f, e) && Hits(h, e)) && !(Hits(g, e) && Hits(h, e))
  }

  ghost predicate Adds(live: Live, q: Query, f: Query, g: Query, h: Query) {
    multiset(Select(live, q)) == multiset(Select(live, f)) + multiset(Select(live, g)) + multiset(Select(live, h))
  }

  lemma {:induction false} SelectThree(live: Live, q: Query, f: Query, g: Query, h: Query)
    requires forall e :: e in live ==> Parts(e, q, f, g, h)
    ensures Adds(live, q, f, g, h)
    decreases |live|
  {
    if live != [] {
      var e, before := live[|live| - 1], live[..|live| - 1];
      assert live == before + [e];
      assert Parts(e, q, f, g, h);
      SelectThree(before, q, f, g, h);
      SelectThreeStep(before, e, q, f, g, h);
    }
  }

  lemma SelectThreeStep(before: Live, e: Entry, q: Query, f: Query, g: Query, h: Query)
    requires Parts(e, q, f, g, h) && Adds(before, q, f, g, h)
    ensures Adds(before + [e], q, f, g, h)
  {
    SelectStep(before, e, q);
    SelectStep(before, e, f);
    SelectStep(before, e, g);
    SelectStep(before, e, h);
    var f1, g1, h1 := multiset(Select(before, f)), multiset(Select(before, g)), multiset(Select(before, h));
    AddsOne(f1, g1, h1, e.sub);
  }

  lemma AddsOne(f: multiset<SubId>, g: multiset<SubId>, h: multiset<SubId>, x: SubId)
    ensures (f + multiset{x}) + g + h == (f + g + h) + multiset{x}
    ensures f + (g + multiset{x}) + h == (f + g + h) + multiset{x}
    ensures f + g + (h + multiset{x}) == (f + g + h) + multiset{x}
    ensures f + multiset{} == f && g + multiset{} == g && h + multiset{} == h
    ensures (f + g + h) + multiset{} == f + g + h
  {
  }

  lemma SelectStep(before: Live, e: Entry, q: Query)
    ensures multiset(Select(before + [e], q)) ==
            multiset(Select(before, q)) + if Hits(q, e) then multiset{e.sub} else multiset{}
  {
    SelectSnoc(before, e, q);
  }

  lemma {:induction false} PrefixInStore(store: Store, live: Live, q: Path, p: Path)
    requires Holds(store, live) && q in store && p <= q
    ensures p in store
    decreases |q|
  {
    if |p| == |q| {
      assert p == q;
    } else {
      assert Kept(store, live, q);
      PrefixInStore(store, live, q[..|q| - 1], p);
    }
  }

  /** Below a path no node stands for, nothing is filed. */
  lemma NothingBelow(store: Store, live: Live, p: Path, toks: seq<Bytes>)
    requires Holds(store, live) && p !in store
    ensures Select(live, Below(p, toks)) == [] && At(live, p) == []
  {
    forall e | e in live ensures !(p <= e.path) {
      if p <= e.path {
        PrefixInStore(store, live, e.path, p);
      }
    }
    SelectNone(live, Below(p, toks));
    SelectNone(live, AtPath(p));
  }

  lemma AtEnd(live: Live, p: Path)
    ensures Select(live, Below(p, [])) == At(live, p)
  {
    forall e | e in live ensures Hits(Below(p, []), e) <==> Hits(AtPath(p), e) {
      if p <= e.path && e.path[|p|..] == [] { assert e.path == p; }
    }
    SelectSame(live, Below(p, []), AtPath(p));
  }

  lemma SubsAreAt(store: Store, live: Live, p: Path)
    requires Holds(store, live)
    ensures SubsAt(store, p) == At(live, p)
  {
    assert Kept(store, live, p);
    if p !in store { NothingBelow(store, live, p, []); }
  }

  /** The walk below `p`, if there is a node at `p`. */
  ghost function WalkIn(store: Store, p: Path, toks: seq<Bytes>): seq<SubId> {
    if p in store then Walk(store, p, toks) else []
  }

  /** What the walk has yet to collect after a level: what hangs in the last level, `last`, when
      no tokens are left. */
  ghost function WalkRest(store: Store, p: Path, toks: seq<Bytes>, last: seq<SubId>): (r: seq<SubId>)
    ensures p !in store && toks != [] ==> r == []
    ensures toks == [] ==> r == last
  {
    if toks == [] then last else WalkIn(store, p, toks)
  }

  /** One round of matchLevel: the wildcards of the level `q` are collected, and what is missing is
      what the walk collects below its literal. */
  lemma LevelDone(store: Store, q: Path, t: Bytes, toks: seq<Bytes>, before: seq<SubId>)
    requires q in store
    ensures before + WalkRest(store, q, [t] + toks, []) ==
            before + SubsAt(store, q + [Fwc]) + WalkIn(store, q + [Pwc], toks) +
            WalkRest(store, q + [Lit(t)], toks, SubsAt(store, q + [Lit(t)]) + SubsAt(store, q + [Pwc]))
  {
    var first, second := SubsAt(store, q + [Fwc]), WalkIn(store, q + [Pwc], toks);
    var third := WalkRest(store, q + [Lit(t)], toks, SubsAt(store, q + [Lit(t)]) + SubsAt(store, q + [Pwc]));
    assert WalkRest(store, q, [t] + toks, []) == (first + second) + third by {
      assert ([t] + toks)[1..] == toks;
    }
    hide *;
    assert before + ((first + second) + third) == ((before + first) + second) + third;
  }

  /** The walk collects exactly what is filed below `p` and matches the tokens. */
  lemma {:induction false} WalkReaches(store: Store, live: Live, p: Path, toks: seq<Bytes>)
    requires Holds(store, live) && AllFiled(live) && toks != []
    ensures multiset(Walk(store, p, toks)) == multiset(Select(live, Below(p, toks)))
    decreases |toks|, 0
  {
    var lit, pwc, fwc, ts := p + [Lit(toks[0])], p + [Pwc], p + [Fwc], toks[1..];
    ReachSplits(live, p, toks);
    SubsAreAt(store, live, fwc);
    if |toks| == 1 {
      SubsAreAt(store, live, pwc);
      SubsAreAt(store, live, lit);
      AtEnd(live, pwc);
      AtEnd(live, lit);
      assert Walk(store, p, toks) == At(live, fwc) + WalkIn(store, pwc, []) + (At(live, lit) + At(live, pwc));
      assert WalkIn(store, pwc, []) == [];
    } else {
      WalkInReaches(store, live, pwc, ts);
      WalkInReaches(store, live, lit, ts);
      assert Walk(store, p, toks) == At(live, fwc) + WalkIn(store, pwc, ts) + WalkIn(store, lit, ts);
    }
  }

  lemma {:induction false} WalkInReaches(store: Store, live: Live, p: Path, toks: seq<Bytes>)
    requires Holds(store, live) && AllFiled(live) && toks != []
    ensures multiset(WalkIn(store, p, toks)) == multiset(Select(live, Below(p, toks)))
    decreases |toks|, 1
  {
    if p in store { WalkReaches(store, live, p, toks); } else { NothingBelow(store, live, p, toks); }
  }

  /** The walk from the root is the specification of Match. */
  lemma WalkMatches(store: Store, live: Live, toks: seq<Bytes>)
    requires Holds(store, live) && AllFiled(live) && toks != []
    ensures multiset(Walk(store, [], toks)) == multiset(MatchList(live, toks))
  {
    WalkReaches(store, live, [], toks);
    forall e | e in live ensures Hits(Below([], toks), e) <==> Hits(Matching(toks), e) {
      assert e.path[0..] == e.path;
    }
    SelectSame(live, Below([], toks), Matching(toks));
  }

  // ----- changing the store -----

  /** A new node without subscribers changes nothing that is held. */
  lemma GrowHolds(store: Store, live: Live, p: Path, k: Key)
    requires Holds(store, live) && p in store && p + [k] !in store
    ensures Holds(store[p + [k] := []], live)
  {
    var q, g := p + [k], store[p + [k] := []];
    NothingBelow(store, live, q, []);
    assert q[..|q| - 1] == p;
    forall r ensures Kept(g, live, r) { assert Kept(store, live, r); }
  }

  /** A subscriber appended at its node and to the list. */
  lemma AddHolds(store: Store, live: Live, e: Entry)
    requires Holds(store, live) && e.path in store
    ensures Holds(store[e.path := store[e.path] + [e.sub]], live + [e])
  {
    var g := store[e.path := store[e.path] + [e.sub]];
    forall p ensures Kept(g, live + [e], p) {
      assert Kept(store, live, p);
      SelectSnoc(live, e, AtPath(p));
    }
  }

  /** The first equal subscriber removed from its node and from the list. */
  lemma DropHolds(store: Store, live: Live, e: Entry)
    requires Holds(store, live) && e.path in store
    ensures Holds(store[e.path := RemoveFirst(store[e.path], e.sub)], RemoveFirst(live, e))
  {
    var g, less := store[e.path := RemoveFirst(store[e.path], e.sub)], RemoveFirst(live, e);
    RemoveFirstIsRemoval(live, e);
    forall p ensures Kept(g, less, p) {
      assert Kept(store, live, p);
      if p == e.path { AtRemove(live, e); } else { SelectRemove(live, e, AtPath(p)); }
    }
    forall x | x in less ensures x.path in g {
      assert x in multiset(less);
    }
  }

  /** A node without subscribers and without nodes below it taken away. */
  lemma PruneHolds(store: Store, live: Live, q: Path)
    requires Holds(store, live) && q in store && q != [] && store[q] == []
    requires forall k :: q + [k] !in store
    ensures Holds(store - {q}, live)
  {
    var g := store - {q};
    assert Kept(store, live, q);
    forall e | e in live ensures e.path != q {
      InAt(live, e);
    }
    forall p ensures Kept(g, live, p) {
      assert Kept(store, live, p);
      if p in store && p != [] { assert p == p[..|p| - 1] + [p[|p| - 1]]; }
    }
  }

  // ----- no dead branches -----

  /** Each node holds a subscriber or leads to one. */
  ghost predicate Alive(live: Live, p: Path) { exists e :: e in live && p <= e.path }

  ghost predicate NoDead(store: Store, live: Live) { forall p :: NotDead(store, live, p) }

  ghost predicate NotDead(store: Store, live: Live, p: Path) { p in store && p != [] ==> Alive(live, p) }

  lemma AliveAfterAdd(live: Live, e: Entry, p: Path)
    requires Alive(live, p) || p <= e.path
    ensures Alive(live + [e], p)
  {
    if Alive(live, p) {
      var x :| x in live && p <= x.path;
      assert x in live + [e];
    } else {
      assert e in live + [e];
    }
  }

  /** Only nodes above the removed entry can die. */
  lemma AliveAfterRemove(live: Live, e: Entry, p: Path)
    requires Alive(live, p) && !(p <= e.path)
    ensures Alive(RemoveFirst(live, e), p)
  {
    var x :| x in live && p <= x.path;
    RemoveFirstIsRemoval(live, e);
    assert x in multiset(RemoveFirst(live, e));
  }
}
