/** The wildcard trie of sublist/sublist.go: linked levels and nodes, changed in place. */
module Trie {
  import opened Base
  import opened Subject
  import opened Index
  import opened SubSlices
  import opened TrieShape

  datatype Removal = Removed | Invalid | NotFound

  /** Why Remove turns `toks` away on its way down from `p`, if it does: an empty token or one
      behind a full wildcard, met before a token whose level is missing. */
  ghost function Fault(store: Store, p: Path, toks: seq<Bytes>, sfwc: bool): Option<Removal>
    decreases |toks|
  {
    if toks == [] then None
    else if toks[0] == [] || sfwc then Some(Invalid)
    else if p !in store then Some(NotFound)
    else Fault(store, p + [KeyOf(toks[0])], toks[1..], KeyOf(toks[0]).Fwc?)
  }

  /** What a verdict on the way to `q` says. */
  ghost predicate Means(f: Option<Removal>, store: Store, q: Path, toks: seq<Bytes>, sfwc: bool) {
    match f
    case None => Subject.Valid(toks) && (sfwc ==> toks == [])
    case Some(Invalid) => !Subject.Valid(toks) || (sfwc && toks != [])
    case Some(NotFound) => q !in store
    case Some(Removed) => false
  }

  lemma {:induction false} FaultMeans(store: Store, live: Live, p: Path, toks: seq<Bytes>, sfwc: bool)
    requires Holds(store, live)
    ensures Means(Fault(store, p, toks, sfwc), store, p + Keys(toks), toks, sfwc)
    decreases |toks|
  {
    if toks != [] && toks[0] != [] && !sfwc {
      var k, ts, q := KeyOf(toks[0]), toks[1..], p + Keys(toks);
      assert p + [k] + Keys(ts) == q;
      if p in store {
        FaultMeans(store, live, p + [k], ts, k.Fwc?);
        MeansOneUp(Fault(store, p + [k], ts, k.Fwc?), store, q, toks);
      } else if q in store {
        PrefixInStore(store, live, q, p);
      }
    }
  }

  lemma MeansOneUp(f: Option<Removal>, store: Store, q: Path, toks: seq<Bytes>)
    requires toks != [] && toks[0] != [] && Means(f, store, q, toks[1..], KeyOf(toks[0]).Fwc?)
    ensures Means(f, store, q, toks, false)
  {
    ValidCons(toks);
  }

  lemma ValidCons(toks: seq<Bytes>)
    requires toks != []
    ensures Subject.Valid(toks) <==>
            toks[0] != [] && (|toks| > 1 ==> !KeyOf(toks[0]).Fwc?) && Subject.Valid(toks[1..])
  {
    var ts := toks[1..];
    assert forall k :: 0 <= k < |ts| ==> ts[k] == toks[k + 1];
    assert forall k :: 0 < k < |toks| ==> toks[k] == ts[k - 1];
  }

  /** The tokens Insert has passed, and whether the last was a full wildcard. */
  ghost predicate SoFar(toks: seq<Bytes>, i: nat, sfwc: bool) {
    && (forall k :: Passed(toks, i, k))
    && (sfwc <==> 0 < i <= |toks| && KeyOf(toks[i - 1]).Fwc?)
  }

  ghost predicate Passed(toks: seq<Bytes>, i: nat, k: nat) {
    k < i && k < |toks| ==> toks[k] != [] && (k + 1 < i ==> !KeyOf(toks[k]).Fwc?)
  }

  lemma SoFarStep(toks: seq<Bytes>, i: nat, sfwc: bool)
    requires SoFar(toks, i, sfwc) && i < |toks|
    ensures if toks[i] == [] || sfwc then !Subject.Valid(toks) else SoFar(toks, i + 1, KeyOf(toks[i]).Fwc?)
  {
    if toks[i] != [] && !sfwc {
      var j := i + 1;
      forall k ensures Passed(toks, j, k) { assert Passed(toks, i, k); }
    }
  }

  lemma SoFarAll(toks: seq<Bytes>, sfwc: bool)
    requires SoFar(toks, |toks|, sfwc)
    ensures Subject.Valid(toks)
  {
    forall k | 0 <= k < |toks| ensures toks[k] != [] && (k + 1 < |toks| ==> !KeyOf(toks[k]).Fwc?) {
      assert Passed(toks, |toks|, k);
    }
  }

  lemma PathStep(toks: seq<Bytes>, i: nat)
    requires i < |toks|
    ensures Keys(toks)[i] == KeyOf(toks[i]) && Keys(toks)[..i + 1] == Keys(toks)[..i] + [KeyOf(toks[i])]
  {
    KeyAt(toks, i);
    PrefixSnoc(Keys(toks), i);
  }

  lemma PrefixSnoc(p: Path, i: nat)
    requires i < |p|
    ensures p[..i + 1] == p[..i] + [p[i]]
  {
  }

  /** Whatever node is new lies on the way to `p`. */
  ghost predicate GrewTo(before: Store, store: Store, p: Path) {
    forall q :: q in store ==> q in before || q <= p
  }

  lemma GrewFurther(before: Store, s: Store, store: Store, p: Path, q: Path)
    requires GrewTo(before, s, p) && p <= q && store.Keys == s.Keys + {q}
    ensures GrewTo(before, store, q)
  {
    forall r | r in store ensures r in before || r <= q {
      if r != q { assert r in s; }
    }
  }

  /** No dead node comes from an Insert that succeeds. */
  lemma NoDeadAfterInsert(before: Store, grown: Store, store: Store, live: Live, e: Entry)
    requires NoDead(before, live) && GrewTo(before, grown, e.path) && store.Keys == grown.Keys
    ensures NoDead(store, live + [e])
  {
    var more := live + [e];
    forall q ensures NotDead(store, more, q) {
      assert NotDead(before, live, q) && (q in store <==> q in grown);
      if q in store && q != [] { AliveAfterAdd(live, e, q); }
    }
  }

  lemma ValidIsFiled(toks: seq<Bytes>)
    requires Subject.Valid(toks) && toks != []
    ensures Filed(Keys(toks))
  {
    forall k | 0 <= k < |Keys(toks)| - 1 ensures !Keys(toks)[k].Fwc? {
      KeyAt(toks, k);
    }
  }

  /** A step of the descent of Remove. */
  datatype Lnt = Lnt(l: Level, n: Node, t: Bytes)

  ghost predicate Seen(s: Shape, p: Path, k: Key, x: Lnt) {
    && k == KeyOf(x.t) && p in s && p + [k] in s && s[p].level == x.l && s[p + [k]].node == x.n
  }

  ghost predicate Traced(s: Shape, p: Path, x: Lnt, j: nat) { j < |p| && Seen(s, p[..j], p[j], x) }

  ghost predicate AllTraced(s: Shape, p: Path, levels: seq<Lnt>, n: nat) {
    n <= |levels| && forall j :: 0 <= j < n ==> Traced(s, p, levels[j], j)
  }

  /** Nothing but `q` moved. */
  ghost predicate Stays(s: Shape, t: Shape, q: Path) {
    forall r {:trigger t[r]} {:trigger s[r]} :: r in s && r != q ==>
          r in t && t[r].level == s[r].level && t[r].node == s[r].node
  }

  lemma StillTraced(s: Shape, t: Shape, p: Path, levels: seq<Lnt>, n: nat)
    requires AllTraced(s, p, levels, n) && n < |p| && Stays(s, t, p[..n + 1])
    ensures AllTraced(t, p, levels, n)
  {
    forall j | 0 <= j < n ensures Traced(t, p, levels[j], j) {
      assert Traced(s, p, levels[j], j);
      assert |p[..j]| == j && |p[..j] + [p[j]]| == j + 1 && |p[..n + 1]| == n + 1;
    }
  }

  /** No dead node but on the way to `p`. */
  ghost predicate AliveOutside(store: Store, live: Live, p: Path) { forall q :: AliveBut(store, live, p, q) }

  ghost predicate AliveBut(store: Store, live: Live, p: Path, q: Path) {
    q in store && q != [] && !(q <= p) ==> Alive(live, q)
  }

  /** A node with a subscriber or a node below it leads to a subscriber. */
  lemma StaysAlive(s: Shape, root: Level, store: Store, live: Live, q: Path)
    requires Sound(s, root, store, live) && q in s && AliveOutside(store, live, q)
    requires store[q] != [] || s[q].links != NO_LINKS
    ensures Alive(live, q)
  {
    if store[q] != [] {
      assert Kept(store, live, q);
      InAt(live, Entry(q, store[q][0]));
    } else {
      var k := AChild(s[q].links);
      ChildIsNode(s, root, q, k);
      assert AliveBut(store, live, q, q + [k]);
      var e :| e in live && q + [k] <= e.path;
      assert q <= q + [k];
    }
  }

  lemma PrefixOfSnoc(q: Path, p: Path, k: Key)
    ensures q <= p + [k] <==> q <= p || q == p + [k]
  {
    if q <= p + [k] && |q| <= |p| {
      assert q == (p + [k])[..|q|] == p[..|q|];
    }
  }

  /** From outside the path to `p + [k]` to outside the path to `p`. */
  lemma AliveOneUp(before: Store, store: Store, live: Live, p: Path, k: Key)
    requires AliveOutside(before, live, p + [k])
    requires forall q :: q in store ==> q in before
    requires p + [k] in store ==> Alive(live, p + [k])
    ensures AliveOutside(store, live, p)
  {
    var r := p + [k];
    forall q ensures AliveBut(store, live, p, q) {
      assert AliveBut(before, live, r, q);
      PrefixOfSnoc(q, p, k);
    }
  }

  lemma AliveAfterDrop(before: Store, store: Store, live: Live, e: Entry)
    requires NoDead(before, live) && store.Keys == before.Keys
    ensures AliveOutside(store, RemoveFirst(live, e), e.path)
  {
    var less, p := RemoveFirst(live, e), e.path;
    forall q ensures AliveBut(store, less, p, q) {
      if q in store && q != [] && !(q <= p) {
        assert NotDead(before, live, q);
        AliveAfterRemove(live, e, q);
      }
    }
  }

  lemma AChild(links: Links) returns (k: Key)
    requires links != NO_LINKS
    ensures links.Child(k) != null
  {
    if links.pwc != null {
      k := Pwc;
    } else if links.fwc != null {
      k := Fwc;
    } else {
      assert links.nodes != map[];
      var t :| t in links.nodes;
      k := Lit(t);
    }
  }

  // ----- depth -----

  /** No node from `p` downwards is deeper. */
  ghost predicate NoDeeper(store: Store, p: Path, max: nat) { forall q :: Within(store, p, max, q) }

  ghost predicate Within(store: Store, p: Path, max: nat, q: Path) { q in store && p <= q ==> |q| <= max }

  ghost predicate Reaches(store: Store, p: Path, n: nat) { exists q :: q in store && p <= q && |q| == n }

  lemma NoDeeperThanBelow(store: Store, live: Live, p: Path, max: nat)
    requires Holds(store, live) && |p| <= max
    requires forall k :: p + [k] in store ==> NoDeeper(store, p + [k], max)
    ensures NoDeeper(store, p, max)
  {
    forall q ensures Within(store, p, max, q) {
      if q in store && p <= q && |q| > |p| {
        var r := p + [q[|p|]];
        assert r <= q;
        PrefixInStore(store, live, q, r);
        assert NoDeeper(store, r, max) && Within(store, r, max, q);
      }
    }
  }

  lemma NoDeeperThanMore(store: Store, p: Path, n: nat, max: nat)
    requires NoDeeper(store, p, n) && n <= max
    ensures NoDeeper(store, p, max)
  {
    forall q ensures Within(store, p, max, q) { assert Within(store, p, n, q); }
  }

  lemma ReachesFromBelow(store: Store, p: Path, k: Key, n: nat)
    requires Reaches(store, p + [k], n)
    ensures Reaches(store, p, n)
  {
    var q :| q in store && p + [k] <= q && |q| == n;
    assert p <= q;
  }

  /** `n` is the token count of a longest subject; nothing filed counts 0. */
  ghost predicate Longest(live: Live, n: nat) {
    (forall e :: e in live ==> |e.path| <= n) && (n > 0 ==> exists e :: HasLength(live, e, n))
  }

  ghost predicate HasLength(live: Live, e: Entry, n: nat) { e in live && |e.path| == n }

  /** Without dead nodes the deepest node is that of a longest subject. */
  lemma DepthIsLongest(store: Store, live: Live, n: nat)
    requires Holds(store, live) && NoDead(store, live) && NoDeeper(store, [], n) && Reaches(store, [], n)
    ensures Longest(live, n)
  {
    forall e | e in live ensures |e.path| <= n { assert Within(store, [], n, e.path) && [] <= e.path; }
    if n > 0 {
      var q :| q in store && |q| == n;
      assert NotDead(store, live, q);
      var e :| e in live && q <= e.path;
      assert HasLength(live, e, n);
    }
  }

  ghost function Bound(paths: set<Path>): (n: nat)
    ensures forall q :: q in paths ==> |q| <= n
  {
    if paths == {} then 0
    else
      var q :| q in paths;
      var n := Bound(paths - {q});
      if |q| > n then |q| else n
  }

  /** Nothing filed and no dead node: only the root is left. */
  lemma EmptyAgain(store: Store, live: Live)
    requires Holds(store, live) && AllFiled(live) && NoDead(store, live)
    ensures live == [] <==> store.Keys == {[]}
  {
    if live == [] {
      forall q | q in store ensures q == [] { assert NotDead(store, live, q); }
    } else {
      assert live[0].path in store;
    }
  }

  class Trie {
    const root: Level
    var count: nat
    ghost var live: Live       // the subscriptions, as a list
    ghost var store: Store     // the subscribers of each node
    ghost var shape: Shape
    ghost var objects: set<object>

    constructor ()
      ensures Valid() && live == [] && NoDead(store, live) && fresh(objects)
    {
      var r := new Level([]);
      root := r;
      count, live, store := 0, [], map[[] := []];
      shape := map[[] := Spot(r, null, null, NO_LINKS)];
      objects := {r};
      new;
      assert forall p :: Kept(store, live, p);
      assert forall p :: NotDead(store, live, p);
    }

    ghost predicate Valid()
      reads this, objects
    {
      this !in objects && Sound(shape, root, store, live) && Shown(shape, store, objects) && count == |live|
    }

    /** What the objects have become is written down. */
    method Record(ghost s: Shape, ghost st: Store, ghost subs: Live, ghost objs: set<object>, n: nat)
      requires this !in objs && Sound(s, root, st, subs) && Shown(s, st, objs) && n == |subs|
      modifies this`shape, this`store, this`live, this`objects, this`count
      ensures shape == s && store == st && live == subs && objects == objs && count == n
      ensures Valid()
    {
      hide Sound, Real;
      shape, store, live, objects, count := s, st, subs, objs, n;
    }

    /** One round of the loop of Insert: the node for `k`, new if there was none. */
    method Descend(l: Level, k: Key, ghost p: Path, ghost before: Store) returns (n: Node, next: Level)
      requires Valid() && p in shape && l == shape[p].level && GrewTo(before, store, p)
      modifies this`shape, this`store, this`live, this`count, this`objects, objects
      ensures fresh(objects - old(objects)) && GrewTo(before, store, p + [k]) && live == old(live)
              && count == old(count)
      ensures p + [k] in shape && n == shape[p + [k]].node && next == shape[p + [k]].level
      ensures Valid()
    {
      ghost var q, was := p + [k], store;
      assert Real(shape, store, objects, p) && Real(shape, store, objects, q);
      ChildIsNode(shape, root, p, k);
      var child := l.links.Child(k);
      if child == null {
        ghost var s, st, objs := shape, store, objects;
        ghost var arr;
        n, arr, next := Graft(l, k, root, s, st, p, objs);
        GrownIsSound(s, root, st, live, p, k, n, arr, next);
        Record(Grown(s, p, k, n, arr, next), st[q := []], live, objs + {n, arr, next}, count);
      } else {
        n, next := child, child.next;
      }
      GrewFurther(before, was, store, p, q);
    }

    method Insert(subject: Bytes, sub: SubId) returns (ok: bool)
      requires Valid()
      modifies this, objects
      ensures ok <==> Subject.Valid(Split(subject))
      ensures live == if ok then old(live) + [Entry(PathOf(subject), sub)] else old(live)
      ensures ok && old(NoDead(store, live)) ==> NoDead(store, live)
      ensures Valid() && fresh(objects - old(objects))
    {
      var toks := SplitLoop(subject);
      ghost var path, p := Keys(toks), [];
      var sfwc, l, n: Node? := false, root, null;
      assert Placed(shape, p);
      for i := 0 to |toks|
        invariant Valid() && live == old(live) && count == old(count) && fresh(objects - old(objects))
        invariant SoFar(toks, i, sfwc)
        invariant p == path[..i]
        invariant p in shape && l == shape[p].level && n == shape[p].node
        invariant GrewTo(old(store), store, p)
      {
        var t := toks[i];
        SoFarStep(toks, i, sfwc);
        if |t| == 0 || sfwc {
          return false;
        }
        n, l := Descend(l, KeyOf(t), p, old(store));
        PathStep(toks, i);
        p := p + [KeyOf(t)];
        sfwc := KeyOf(t).Fwc?;
      }
      assert p == path;
      SoFarAll(toks, sfwc);
      ValidIsFiled(toks);
      ghost var e := Entry(path, sub);
      ghost var st := store;
      Add(n, e, sub);
      if old(NoDead(store, live)) { NoDeadAfterInsert(old(store), st, store, old(live), e); }
      ok := true;
    }

    /** The node takes the subscriber. */
    method Add(n: Node?, ghost e: Entry, sub: SubId)
      requires Valid() && e.path in shape && n == shape[e.path].node && Filed(e.path) && sub == e.sub
      modifies this`shape, this`store, this`live, this`count, this`objects, objects
      ensures live == old(live) + [e] && store.Keys == old(store).Keys && fresh(objects - old(objects))
      ensures Valid()
    {
      ghost var s, st, p, objs := shape, store, e.path, objects;
      assert Placed(s, p) && Real(s, st, objs, p);
      ghost var arr := AppendAt(n, sub, root, s, st, p, objs);
      AddWithArrayIsSound(s, root, st, live, e, arr);
      Record(Rehoused(s, p, arr), st[p := st[p] + [sub]], live + [e], objs + {arr}, count + 1);
    }

    /** The descent of Remove. */
    method Locate(toks: seq<Bytes>) returns (fault: Option<Removal>, n: Node?, levels: seq<Lnt>)
      requires Valid() && toks != []
      ensures fault == Fault(store, [], toks, false)
      ensures fault == None ==> (n != null <==> Keys(toks) in shape)
      ensures fault == None && n != null ==>
                n == shape[Keys(toks)].node && |levels| == |toks| && AllTraced(shape, Keys(toks), levels, |toks|)
    {
      ghost var path, p := Keys(toks), [];
      var sfwc, l: Level? := false, root;
      n, levels := null, [];
      assert toks[0..] == toks && Placed(shape, p);
      for i := 0 to |toks|
        invariant Fault(store, [], toks, false) == Fault(store, p, toks[i..], sfwc)
        invariant p == path[..i] && (l != null <==> p in shape)
        invariant l != null ==>
                    l == shape[p].level && n == shape[p].node && |levels| == i && AllTraced(shape, path, levels, i)
        invariant l == null ==> n == null
      {
        var t := toks[i];
        assert toks[i..][0] == t && toks[i..][1..] == toks[i + 1..];
        if |t| == 0 || sfwc {
          return Some(Invalid), null, [];
        }
        if l == null {
          return Some(NotFound), null, [];
        }
        PathStep(toks, i);
        ghost var q := p + [KeyOf(t)];
        ChildIsNode(shape, root, p, KeyOf(t));
        assert Real(shape, store, objects, p) && Real(shape, store, objects, q);
        n := l.links.Child(KeyOf(t));
        sfwc := KeyOf(t).Fwc?;
        if n != null {
          levels := levels + [Lnt(l, n, t)];
          assert Traced(shape, path, levels[i], i);
          l := n.next;
        } else {
          l := null;
        }
        p := q;
      }
      assert toks[|toks|..] == [] && p == path && |path| == |toks| && Placed(shape, p);
      fault := None;
    }

    /** One round of the pruning loop of Remove. */
    method PruneStep(x: Lnt, ghost p: Path, ghost k: Key, ghost clean: bool)
      requires Valid() && Seen(shape, p, k, x) && (clean ==> AliveOutside(store, live, p + [k]))
      modifies this`shape, this`store, objects
      ensures Stays(old(shape), shape, p + [k]) && (clean ==> AliveOutside(store, live, p))
      ensures Valid()
    {
      ghost var s, st, q := shape, store, p + [k];
      assert Real(shape, store, objects, p) && Real(shape, store, objects, q);
      if x.n.IsEmpty() {
        PruneNode(x.l, x.n, x.t, root, s, st, p, objects);
        PrunedIsSound(s, root, st, live, p, k);
        shape, store := Pruned(s, p, k), st - {q};
      } else if clean {
        StaysAlive(shape, root, store, live, q);
      }
      if clean { AliveOneUp(st, store, live, p, k); }
    }

    method Prune(levels: seq<Lnt>, ghost path: Path, ghost clean: bool)
      requires Valid() && |levels| == |path| && AllTraced(shape, path, levels, |path|)
      requires clean ==> AliveOutside(store, live, path)
      modifies this`shape, this`store, objects
      ensures clean ==> NoDead(store, live)
      ensures Valid()
    {
      assert path[..|path|] == path;
      for i := |levels| downto 0
        invariant Valid() && objects == old(objects) && live == old(live) && AllTraced(shape, path, levels, i)
        invariant clean ==> AliveOutside(store, live, path[..i])
      {
        ghost var s := shape;
        assert Traced(shape, path, levels[i], i);
        PrefixSnoc(path, i);
        PruneStep(levels[i], path[..i], path[i], clean);
        StillTraced(s, shape, path, levels, i);
      }
      if clean {
        ghost var p := path[..0];
        forall q ensures NotDead(store, live, q) { assert AliveBut(store, live, p, q); }
      }
    }

    method Remove(subject: Bytes, sub: SubId) returns (r: Removal)
      requires Valid()
      modifies this, objects
      ensures Valid() && objects == old(objects)
      ensures r == Removed <==> Subject.Valid(Split(subject)) && Entry(PathOf(subject), sub) in old(live)
      ensures r == Invalid <==> Fault(old(store), [], Split(subject), false) == Some(Invalid)
      ensures live == if r == Removed then RemoveFirst(old(live), Entry(PathOf(subject), sub)) else old(live)
      ensures r != Removed ==> store == old(store)
      ensures old(NoDead(store, live)) ==> NoDead(store, live)
    {
      var toks := SplitLoop(subject);
      ghost var e := Entry(PathOf(subject), sub);
      FaultMeans(store, live, [], toks, false);
      assert [] + e.path == e.path;
      var fault, n, levels := Locate(toks);
      if fault.Some? {
        return fault.value;
      }
      if n == null {
        return NotFound;
      }
      ghost var clean := NoDead(store, live);
      var found := Drop(n, e, sub);
      if !found {
        return NotFound;
      }
      if clean { AliveAfterDrop(old(store), store, old(live), e); }
      Prune(levels, e.path, clean);
      r := Removed;
    }

    /** removeFromNode, on a node that is there. */
    method Drop(n: Node, ghost e: Entry, sub: SubId) returns (found: bool)
      requires Valid() && e.path in shape && n == shape[e.path].node && sub == e.sub
      modifies this`store, this`live, this`count, objects
      ensures found <==> e in old(live)
      ensures live == if found then RemoveFirst(old(live), e) else old(live)
      ensures store.Keys == old(store).Keys && (!found ==> store == old(store))
      ensures Valid()
    {
      ghost var st, p := store, e.path;
      assert Real(shape, store, objects, p) && Kept(store, live, p);
      InAt(live, e);
      found := TakeFrom(n, sub, root, shape, st, p, objects);
      if found {
        DropIsSound(shape, root, st, live, e);
        RemoveFirstIsRemoval(live, e);
        store := st[p := RemoveFirst(st[p], sub)];
        live := RemoveFirst(live, e);
        count := count - 1;
      }
    }

    /** What is seen in a level, and the node it leads to. */
    lemma ChildSeen(p: Path, k: Key)
      requires Valid() && p in shape
      ensures var child := shape[p].level.links.Child(k);
              && shape[p].level.links == shape[p].links
              && (child != null <==> p + [k] in shape)
              && (child != null ==> child.next == shape[p + [k]].level)
              && SubsAt(store, p + [k]) == if child == null then [] else child.Subs()
    {
      ChildIsNode(shape, root, p, k);
      SameStep(p, k);
      assert Real(shape, store, objects, p) && Real(shape, store, objects, p + [k]) && Placed(shape, p + [k]);
    }

    /** matchLevel: the subscribers found are appended to the results. */
    method MatchLevel(level: Level?, toks: seq<Bytes>, results: seq<SubId>, ghost p: Path) returns (found: seq<SubId>)
      requires Valid() && p in shape && level == shape[p].level
      ensures found == results + Walk(store, p, toks)
      decreases |toks|, 0
    {
      found := results;
      var l, pwc: Node?, n: Node? := level, null, null;
      ghost var q, last: seq<SubId> := p, [];
      assert toks[0..] == toks;
      assert p in store && WalkRest(store, p, toks, []) == Walk(store, p, toks);
      hide *;
      for i := 0 to |toks|
        invariant (l != null <==> q in store) && (l != null ==> q in shape && l == shape[q].level)
        invariant last == (if n == null then [] else n.Subs()) + if pwc == null then [] else pwc.Subs()
        invariant results + WalkRest(store, p, toks, []) == found + WalkRest(store, q, toks[i..], last)
      {
        if l == null {
          return;
        }
        found, pwc, n, last := MatchRound(l, toks[i], toks[i + 1..], found, q);
        l := if n != null then n.next else null;
        q := q + [Lit(toks[i])];
      }
      found := MatchLast(n, pwc, found);
    }

    /** What hangs in the last level. */
    method MatchLast(n: Node?, pwc: Node?, results: seq<SubId>) returns (found: seq<SubId>)
      ensures found == results + ((if n == null then [] else n.Subs()) + if pwc == null then [] else pwc.Subs())
    {
      found := results;
      if n != null {
        found := found + n.Subs();
      }
      if pwc != null {
        found := found + pwc.Subs();
      }
    }

    /** The loop body of matchLevel, up to the move to the next level. */
    method MatchRound(l: Level, t: Bytes, rest: seq<Bytes>, results: seq<SubId>, ghost q: Path)
      returns (found: seq<SubId>, pwc: Node?, n: Node?, ghost last: seq<SubId>)
      requires Valid() && q in shape && l == shape[q].level
      ensures results + WalkRest(store, q, [t] + rest, []) == found + WalkRest(store, q + [Lit(t)], rest, last)
      ensures last == (if n == null then [] else n.Subs()) + if pwc == null then [] else pwc.Subs()
      ensures n != null <==> q + [Lit(t)] in store
      ensures n != null ==> q + [Lit(t)] in shape && n.next == shape[q + [Lit(t)]].level
      decreases |rest|, 3
    {
      found := FullWildcard(l, results, q);
      found := PartialWildcard(l, rest, found, q);
      ChildSeen(q, Pwc);
      ChildSeen(q, Lit(t));
      pwc := l.links.pwc;
      n := l.links.Child(Lit(t));
      last := SubsAt(store, q + [Lit(t)]) + SubsAt(store, q + [Pwc]);
      LevelDone(store, q, t, rest, results);
    }

    method FullWildcard(l: Level, results: seq<SubId>, ghost q: Path) returns (found: seq<SubId>)
      requires Valid() && q in shape && l == shape[q].level
      ensures found == results + SubsAt(store, q + [Fwc])
    {
      found := results;
      ChildSeen(q, Fwc);
      if l.links.fwc != null {
        found := found + l.links.fwc.Subs();
      }
    }

    method PartialWildcard(l: Level, rest: seq<Bytes>, results: seq<SubId>, ghost q: Path) returns (found: seq<SubId>)
      requires Valid() && q in shape && l == shape[q].level
      ensures found == results + WalkIn(store, q + [Pwc], rest)
      decreases |rest|, 2
    {
      found := results;
      ChildSeen(q, Pwc);
      if l.links.pwc != null {
        found := MatchLevel(l.links.pwc.next, rest, found, q + [Pwc]);
      }
    }

    /** The cache miss of Match: everybody whose subject matches, and nobody else. */
    method Lookup(subject: Bytes) returns (found: seq<SubId>)
      requires Valid()
      ensures multiset(found) == multiset(MatchList(live, Split(subject)))
    {
      var toks := SplitLoop(subject);
      found := MatchLevel(root, toks, [], []);
      WalkMatches(store, live, toks);
    }

    /** visitLevel: how deep the nodes below `p` reach. */
    method VisitLevel(l: Level?, depth: nat, ghost p: Path, ghost bound: nat) returns (max: nat)
      requires Valid() && p in shape && l == shape[p].level && depth == |p| <= bound && NoDeeper(store, [], bound)
      ensures NoDeeper(store, p, max) && Reaches(store, p, max)
      decreases bound - |p|, 2
    {
      assert Real(shape, store, objects, p);
      if l == null || l.NumNodes() == 0 {
        forall k ensures p + [k] !in store { ChildIsNode(shape, root, p, k); }
        NoDeeperThanBelow(store, live, p, depth);
        return depth;
      }
      max := depth + 1;
      SomeNodeBelow(p);
      max := VisitNodes(l, depth, max, p, bound);
      ghost var most := max;
      max := Deeper(l, Pwc, depth, max, p, bound);
      ghost var more := max;
      max := Deeper(l, Fwc, depth, max, p, bound);
      forall k: Key | p + [k] in store ensures NoDeeper(store, p + [k], max) {
        if k != Fwc { NoDeeperThanMore(store, p + [k], if k == Pwc then more else most, max); }
      }
      NoDeeperThanBelow(store, live, p, max);
    }

    lemma SomeNodeBelow(p: Path)
      requires Valid() && p in shape && shape[p].links != NO_LINKS
      ensures Reaches(store, p, |p| + 1)
    {
      var k := AChild(shape[p].links);
      ChildIsNode(shape, root, p, k);
      assert p + [k] in store;
    }

    /** The loop of visitLevel over the plain tokens. */
    method VisitNodes(l: Level, depth: nat, sofar: nat, ghost p: Path, ghost bound: nat) returns (max: nat)
      requires Valid() && p in shape && l == shape[p].level && depth == |p| <= bound && NoDeeper(store, [], bound)
      requires Reaches(store, p, sofar) && depth < sofar
      ensures sofar <= max && Reaches(store, p, max)
      ensures forall k: Key :: k.Lit? && p + [k] in store ==> NoDeeper(store, p + [k], max)
      decreases bound - |p|, 1
    {
      max := sofar;
      var left := l.links.nodes.Keys;
      while left != {}
        invariant left <= l.links.nodes.Keys && sofar <= max && Reaches(store, p, max)
        invariant forall t :: t in l.links.nodes && t !in left ==> NoDeeper(store, p + [Lit(t)], max)
        decreases left
      {
        var t :| t in left;
        ghost var was := max;
        max := Deeper(l, Lit(t), depth, max, p, bound);
        left := left - {t};
        ChildSeen(p, Lit(t));
        forall u | u in l.links.nodes && u !in left ensures NoDeeper(store, p + [Lit(u)], max) {
          if u != t { NoDeeperThanMore(store, p + [Lit(u)], was, max); }
        }
      }
      forall k: Key | k.Lit? && p + [k] in store ensures NoDeeper(store, p + [k], max) {
        ChildSeen(p, k);
        assert k == Lit(k.tok);
      }
    }

    /** One branch of visitLevel. */
    method Deeper(l: Level, k: Key, depth: nat, sofar: nat, ghost p: Path, ghost bound: nat) returns (max: nat)
      requires Valid() && p in shape && l == shape[p].level && depth == |p| <= bound && NoDeeper(store, [], bound)
      requires Reaches(store, p, sofar) && depth < sofar
      ensures sofar <= max && Reaches(store, p, max)
      ensures p + [k] in store ==> NoDeeper(store, p + [k], max)
      decreases bound - |p|, 0
    {
      max := sofar;
      ChildSeen(p, k);
      assert Real(shape, store, objects, p);
      var child := l.links.Child(k);
      if child != null {
        ghost var q := p + [k];
        assert Within(store, [], bound, q) && q in store && [] <= q;
        var d := VisitLevel(child.next, depth + 1, q, bound);
        if d > max {
          max := d;
          ReachesFromBelow(store, p, k, max);
        } else {
          NoDeeperThanMore(store, q, d, max);
        }
      }
    }

    /** numLevels: the token count of the longest subject, if no node is dead. */
    method NumLevels() returns (n: nat)
      requires Valid()
      ensures NoDead(store, live) ==> Longest(live, n)
    {
      ghost var bound := Bound(store.Keys);
      forall q ensures Within(store, [], bound, q) { }
      n := VisitLevel(root, 0, [], bound);
      if NoDead(store, live) { DepthIsLongest(store, live, n); }
    }
  }
}
