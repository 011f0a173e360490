/** The nodes and levels of the trie of sublist/sublist.go, and the tree they form. */
module TrieShape {
  import opened Base
  import opened Subject
  import opened Index
  import opened SubSlices

  /** What hangs in a level: nodes for plain tokens, and for the two wildcards. */
  datatype Links = Links(nodes: map<Bytes, Node>, pwc: Node?, fwc: Node?) {
    function Child(k: Key): Node? {
      match k
      case Lit(t) => if t in nodes then nodes[t] else null
      case Pwc => pwc
      case Fwc => fwc
    }

    function With(k: Key, n: Node): Links {
      match k
      case Lit(t) => this.(nodes := nodes[t := n])
      case Pwc => this.(pwc := n)
      case Fwc => this.(fwc := n)
    }

    function Without(k: Key): Links {
      match k
      case Lit(t) => this.(nodes := nodes - {t})
      case Pwc => this.(pwc := null)
      case Fwc => this.(fwc := null)
    }
  }

  const NO_LINKS := Links(map[], null, null)

  class Node {
    ghost const path: Path
    var next: Level?
    var subs: SubSlice

    constructor (ghost path: Path)
      ensures next == null && this.path == path && fresh(subs.arr) && subs.len == 0
    {
      this.path := path;
      next := null;
      var arr := new SubId[4];
      subs := SubSlice(arr, 0);
    }

    function Subs(): seq<SubId>
      reads this, subs.arr
    {
      if subs.len <= subs.arr.Length then subs.Val() else []
    }

    predicate IsEmpty()
      reads this, if next == null then {} else {next}
    {
      subs.len == 0 && (next == null || next.NumNodes() == 0)
    }
  }

  class Level {
    ghost const path: Path
    var links: Links

    constructor (ghost path: Path)
      ensures links == NO_LINKS && this.path == path
    {
      this.path := path;
      links := NO_LINKS;
    }

    function NumNodes(): (n: nat)
      reads this
      ensures n == 0 <==> links == NO_LINKS
    {
      |links.nodes| + (if links.pwc != null then 1 else 0) + (if links.fwc != null then 1 else 0)
    }
  }

  // ----- the shape of the trie, on values -----

  /** What is at a path: a level with its links, and, but for the root, the node above it with
      the array of its subscribers. */
  datatype Spot = Spot(level: Level, node: Node?, arr: array?<SubId>, links: Links)

  type Shape = map<Path, Spot>

  function Parent(q: Path): Path requires q != [] { q[..|q| - 1] }

  function Last(q: Path): Key requires q != [] { q[|q| - 1] }

  /** The objects know their paths, so none is at two; a node hangs in the level above it. */
  ghost predicate Placed(s: Shape, p: Path) {
    p in s ==>
      && s[p].level.path == p
      && (s[p].node == null <==> p == []) && (s[p].arr == null <==> p == [])
      && (p != [] ==> s[p].node.path == p && Parent(p) in s && s[Parent(p)].links.Child(Last(p)) == s[p].node)
  }

  /** Whatever hangs in a level is a node. */
  ghost predicate Closed(s: Shape, p: Path, k: Key) {
    p in s && s[p].links.Child(k) != null ==> p + [k] in s
  }

  /** No two nodes share an array. */
  ghost predicate OwnArray(s: Shape, p: Path, q: Path) {
    p in s && q in s && s[p].arr != null && s[p].arr == s[q].arr ==> p == q
  }

  /** No node has this array. */
  ghost predicate NotIn(s: Shape, arr: array<SubId>, p: Path) { p in s ==> s[p].arr != arr }

  ghost predicate Tree(s: Shape, root: Level) {
    && [] in s && s[[]].level == root
    && (forall p :: Placed(s, p))
    && (forall p, q :: OwnArray(s, p, q))
    && (forall p, k :: Closed(s, p, k))
  }

  lemma SameStep(p: Path, k: Key)
    ensures Parent(p + [k]) == p && Last(p + [k]) == k && p + [k] != p
  {
  }

  lemma StepIsLast(q: Path)
    requires q != []
    ensures q == Parent(q) + [Last(q)]
  {
  }

  lemma ChildIsNode(s: Shape, root: Level, p: Path, k: Key)
    requires Tree(s, root) && p in s
    ensures p + [k] in s <==> s[p].links.Child(k) != null
    ensures p + [k] in s ==> s[p + [k]].node == s[p].links.Child(k)
  {
    SameStep(p, k);
    assert Placed(s, p + [k]) && Closed(s, p, k);
  }

  ghost function Grown(s: Shape, p: Path, k: Key, n: Node, arr: array<SubId>, l: Level): Shape
    requires p in s
  {
    s[p := s[p].(links := s[p].links.With(k, n))][p + [k] := Spot(l, n, arr, NO_LINKS)]
  }

  lemma GrownOwnArray(s: Shape, p: Path, k: Key, n: Node, arr: array<SubId>, l: Level, q: Path, r: Path)
    requires p in s && OwnArray(s, q, r) && NotIn(s, arr, q) && NotIn(s, arr, r)
    ensures OwnArray(Grown(s, p, k, n, arr, l), q, r)
  {
  }

  lemma GrownIsTree(s: Shape, root: Level, p: Path, k: Key, n: Node, arr: array<SubId>, l: Level)
    requires Tree(s, root) && p in s && p + [k] !in s
    requires n.path == p + [k] && l.path == p + [k] && forall q :: NotIn(s, arr, q)
    ensures Tree(Grown(s, p, k, n, arr, l), root)
  {
    var g := Grown(s, p, k, n, arr, l);
    SameStep(p, k);
    forall q, r ensures OwnArray(g, q, r) { GrownOwnArray(s, p, k, n, arr, l, q, r); }
    forall q ensures Placed(g, q) {
      assert Placed(s, q);
      if q != [] { StepIsLast(q); }
    }
    forall q, j ensures Closed(g, q, j) {
      assert Closed(s, q, j);
    }
  }

  ghost function Pruned(s: Shape, p: Path, k: Key): Shape
    requires p in s
  {
    s[p := s[p].(links := s[p].links.Without(k))] - {p + [k]}
  }

  lemma PrunedIsTree(s: Shape, root: Level, p: Path, k: Key)
    requires Tree(s, root) && p in s && p + [k] in s && s[p + [k]].links == NO_LINKS
    ensures Tree(Pruned(s, p, k), root)
  {
    var g, q0 := Pruned(s, p, k), p + [k];
    SameStep(p, k);
    forall q, r ensures OwnArray(g, q, r) { assert OwnArray(s, q, r); }
    forall q ensures Placed(g, q) {
      assert Placed(s, q);
      if q != [] { StepIsLast(q); }
    }
    forall q, j ensures Closed(g, q, j) {
      assert Closed(s, q, j);
      SameStep(q, j);
    }
  }

  // ----- the objects behind the values -----

  /** The subscribers of a node. */
  ghost predicate HoldsSubs(n: Node, arr: array?<SubId>, objects: set<object>, subs: seq<SubId>)
    requires n in objects
    reads objects
  {
    arr != null && arr in objects && n.subs.arr == arr && n.subs.len <= arr.Length && arr[..n.subs.len] == subs
  }

  /** The objects at `p` are as `s` and `store` say. */
  ghost predicate Real(s: Shape, store: Store, objects: set<object>, p: Path)
    reads objects
  {
    p in s ==>
      && s[p].level in objects && s[p].level.links == s[p].links
      && (s[p].node != null ==>
            s[p].node in objects && s[p].node.next == s[p].level && p in store
                && HoldsSubs(s[p].node, s[p].arr, objects, store[p]))
  }

  ghost predicate Shown(s: Shape, store: Store, objects: set<object>)
    reads objects
  {
    forall p :: Real(s, store, objects, p)
  }

  ghost function Own(x: Spot): set<object> {
    if x.node == null || x.arr == null then {x.level} else {x.level, x.node, x.arr}
  }

  /** The objects at `p` are not those at another path. */
  lemma OthersShown(s: Shape, root: Level, store: Store, p: Path, objects: set<object>)
    requires Tree(s, root) && p in s && Shown(s, store, objects)
    ensures Shown(s - {p}, store, objects - Own(s[p]))
  {
    assert Placed(s, p);
    forall r ensures Real(s - {p}, store, objects - Own(s[p]), r) {
      assert Placed(s, r) && Real(s, store, objects, r) && OwnArray(s, p, r);
    }
  }

  /** All but `p` shown, and `p` too. */
  lemma AllShown(s: Shape, store: Store, p: Path, others: set<object>, objects: set<object>)
    requires Shown(s - {p}, store, others) && others <= objects && Real(s, store, objects, p)
    ensures Shown(s, store, objects)
  {
    forall r ensures Real(s, store, objects, r) {
      assert Real(s - {p}, store, others, r);
    }
  }

  /** The shape is a tree, and holds the list. */
  ghost predicate Sound(s: Shape, root: Level, store: Store, live: Live) {
    Tree(s, root) && store.Keys == s.Keys && Holds(store, live) && AllFiled(live)
  }

  lemma GrownIsSound(s: Shape, root: Level, store: Store, live: Live, p: Path, k: Key, n: Node, arr: array<SubId>,
                     l: Level)
    requires Sound(s, root, store, live) && p in s && p + [k] !in s
    requires n.path == p + [k] && l.path == p + [k] && forall q :: NotIn(s, arr, q)
    ensures Sound(Grown(s, p, k, n, arr, l), root, store[p + [k] := []], live)
  {
    GrowHolds(store, live, p, k);
    GrownIsTree(s, root, p, k, n, arr, l);
    assert store[p + [k] := []].Keys == Grown(s, p, k, n, arr, l).Keys;
  }

  /** A new node and its level, hung below `l`. */
  method Graft(l: Level, k: Key, ghost root: Level, ghost s: Shape, ghost store: Store, ghost p: Path,
               ghost objects: set<object>)
    returns (n: Node, ghost arr: array<SubId>, next: Level)
    requires Tree(s, root) && Shown(s, store, objects)
    requires p in s && l == s[p].level && p + [k] !in s
    modifies l
    ensures fresh(n) && fresh(arr) && fresh(next) && n.path == next.path == p + [k]
    ensures Shown(Grown(s, p, k, n, arr, next), store[p + [k] := []], objects + {n, arr, next})
    ensures forall r :: NotIn(s, arr, r)
  {
    ghost var q, others := p + [k], objects - Own(s[p]);
    SameStep(p, k);
    assert Real(s, store, objects, p);
    OthersShown(s, root, store, p, objects);
    n := new Node(q);
    arr := n.subs.arr;
    l.links := l.links.With(k, n);
    next := new Level(q);
    n.next := next;
    ghost var g, st := Grown(s, p, k, n, arr, next), store[q := []];
    forall r ensures Real(g - {p}, st, others + {n, arr, next}, r) {
      assert Real(s - {p}, store, others, r);
    }
    AllShown(g, st, p, others + {n, arr, next}, objects + {n, arr, next});
  }

  /** A subscriber appended at its node. */
  lemma AddIsSound(s: Shape, root: Level, store: Store, live: Live, e: Entry)
    requires Sound(s, root, store, live) && e.path in store && Filed(e.path)
    ensures Sound(s, root, store[e.path := store[e.path] + [e.sub]], live + [e])
  {
    AddHolds(store, live, e);
    assert store[e.path := store[e.path] + [e.sub]].Keys == store.Keys;
  }

  /** So it is if its array had to be another one. */
  lemma AddWithArrayIsSound(s: Shape, root: Level, store: Store, live: Live, e: Entry, arr: array<SubId>)
    requires Sound(s, root, store, live) && e.path in s && Filed(e.path) && e.path != []
    requires arr == s[e.path].arr || forall q :: NotIn(s, arr, q)
    ensures e.path in store
    ensures Sound(Rehoused(s, e.path, arr), root, store[e.path := store[e.path] + [e.sub]], live + [e])
  {
    RehousedIsTree(s, root, e.path, arr);
    assert Rehoused(s, e.path, arr).Keys == s.Keys;
    AddIsSound(Rehoused(s, e.path, arr), root, store, live, e);
  }

  lemma DropIsSound(s: Shape, root: Level, store: Store, live: Live, e: Entry)
    requires Sound(s, root, store, live) && e.path in store
    ensures Sound(s, root, store[e.path := RemoveFirst(store[e.path], e.sub)], RemoveFirst(live, e))
  {
    DropHolds(store, live, e);
    RemoveFirstIsRemoval(live, e);
    var less := RemoveFirst(live, e);
    forall x | x in less ensures Filed(x.path) {
      assert x in multiset(less);
    }
    assert store[e.path := RemoveFirst(store[e.path], e.sub)].Keys == store.Keys;
  }

  /** The array of a node may be another one after an append. */
  ghost function Rehoused(s: Shape, p: Path, arr: array<SubId>): Shape
    requires p in s
  {
    s[p := s[p].(arr := arr)]
  }

  lemma RehousedIsTree(s: Shape, root: Level, p: Path, arr: array<SubId>)
    requires Tree(s, root) && p in s && p != []
    requires arr == s[p].arr || forall q :: NotIn(s, arr, q)
    ensures Tree(Rehoused(s, p, arr), root)
  {
    var g := Rehoused(s, p, arr);
    forall q ensures Placed(g, q) { assert Placed(s, q); }
    forall q, k ensures Closed(g, q, k) { assert Closed(s, q, k); }
    forall q, r ensures OwnArray(g, q, r) {
      assert OwnArray(s, q, r) && (arr != s[p].arr ==> NotIn(s, arr, q) && NotIn(s, arr, r));
    }
  }

  /** One more subscriber at one node. */
  method AppendAt(n: Node, sub: SubId, ghost root: Level, ghost s: Shape, ghost store: Store, ghost p: Path,
                  ghost objects: set<object>)
    returns (ghost arr: array<SubId>)
    requires Tree(s, root) && Shown(s, store, objects) && p in s && n == s[p].node && p in store
    requires n.subs.len <= n.subs.arr.Length && n.subs.Val() == store[p] && n.subs.arr == s[p].arr
    modifies n, n.subs.arr
    ensures fresh(arr) || arr == s[p].arr
    ensures arr == s[p].arr || forall q :: NotIn(s, arr, q)
    ensures Shown(Rehoused(s, p, arr), store[p := store[p] + [sub]], objects + {arr})
  {
    ghost var others := objects - Own(s[p]);
    assert Real(s, store, objects, p);
    OthersShown(s, root, store, p, objects);
    n.subs := Append(n.subs, sub);
    arr := n.subs.arr;
    ghost var g, st := Rehoused(s, p, arr), store[p := store[p] + [sub]];
    forall r ensures Real(g - {p}, st, others, r) {
      assert Real(s - {p}, store, others, r);
    }
    AllShown(g, st, p, others, objects + {arr});
  }

  /** One subscriber less at one node. */
  method TakeFrom(n: Node, sub: SubId, ghost root: Level, ghost s: Shape, ghost store: Store, ghost p: Path,
                  ghost objects: set<object>)
    returns (found: bool)
    requires Tree(s, root) && Shown(s, store, objects) && p in s && n == s[p].node && p in store
    requires n.subs.len <= n.subs.arr.Length && n.subs.Val() == store[p] && n.subs.arr == s[p].arr
    modifies n, n.subs.arr
    ensures found <==> sub in store[p]
    ensures Shown(s, if found then store[p := RemoveFirst(store[p], sub)] else store, objects)
  {
    ghost var others := objects - Own(s[p]);
    assert Real(s, store, objects, p);
    OthersShown(s, root, store, p, objects);
    var left;
    left, found := Take(n.subs, sub);
    n.subs := left;
    ghost var st := if found then store[p := RemoveFirst(store[p], sub)] else store;
    forall r ensures Real(s - {p}, st, others, r) {
      assert Real(s - {p}, store, others, r);
    }
    AllShown(s, st, p, others, objects);
  }

  lemma PrunedIsSound(s: Shape, root: Level, store: Store, live: Live, p: Path, k: Key)
    requires Sound(s, root, store, live) && p in s && p + [k] in s
    requires store[p + [k]] == [] && s[p + [k]].links == NO_LINKS
    ensures Sound(Pruned(s, p, k), root, store - {p + [k]}, live)
  {
    var q := p + [k];
    SameStep(p, k);
    forall j ensures q + [j] !in store {
      ChildIsNode(s, root, q, j);
    }
    PruneHolds(store, live, q);
    PrunedIsTree(s, root, p, k);
    assert (store - {q}).Keys == Pruned(s, p, k).Keys;
  }

  /** pruneNode: the node is taken out of the level, wherever it hangs there. */
  method PruneNode(l: Level, n: Node, t: Bytes, ghost root: Level, ghost s: Shape, ghost store: Store, ghost p: Path,
                   ghost objects: set<object>)
    requires Tree(s, root) && Shown(s, store, objects)
    requires p in s && l == s[p].level && p + [KeyOf(t)] in s && n == s[p + [KeyOf(t)]].node
    modifies l
    ensures Shown(Pruned(s, p, KeyOf(t)), store - {p + [KeyOf(t)]}, objects)
  {
    ghost var k := KeyOf(t);
    ghost var q, others := p + [k], objects - Own(s[p]);
    SameStep(p, k);
    assert Real(s, store, objects, p);
    OthersShown(s, root, store, p, objects);
    ChildIsNode(s, root, p, k);
    ChildIsNode(s, root, p, Pwc);
    ChildIsNode(s, root, p, Fwc);
    assert Placed(s, q) && Placed(s, p + [Pwc]) && Placed(s, p + [Fwc]);
    SameStep(p, Pwc);
    SameStep(p, Fwc);
    if n == l.links.fwc {
      l.links := l.links.(fwc := null);
    } else if n == l.links.pwc {
      l.links := l.links.(pwc := null);
    } else {
      l.links := l.links.(nodes := l.links.nodes - {t});
    }
    assert l.links == s[p].links.Without(k);
    ghost var g, st := Pruned(s, p, k), store - {q};
    forall r ensures Real(g - {p}, st, others, r) {
      assert Real(s - {p}, store, others, r);
    }
    AllShown(g, st, p, others, objects);
  }
}
