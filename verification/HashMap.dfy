/** The chained hash table of hashmap/hashmap.go and hashmap/rand_evict.go: an array of buckets,
    linked entries, growing and shrinking, as a finite map. */
module HashMap {
  import opened Base
  import opened Bits
  import L = Load

  type Key = Bytes

  /** A byte of a key is modelled by a `char`, as everywhere; so many values it has. */
  const BYTE_VALUES := 0x11_0000

  class Entry<V> {
    const hk: nat
    const key: Key
    var data: V
    var next: Entry?<V>

    constructor (hk: nat, key: Key, data: V, next: Entry?<V>)
      ensures this.hk == hk && this.key == key && this.data == data && this.next == next
    {
      this.hk, this.key, this.data, this.next := hk, key, data, next;
    }
  }

  // ----- the table, on values -----

  /** The keys of each chain in order, where the entries are, and the map they stand for. */
  datatype Table<V> = Table(chains: seq<seq<Key>>, at: map<Key, Entry<V>>, data: map<Key, V>)

  /** The bucket of a key. */
  function Home(hk: nat, n: nat): (b: nat)
    requires n > 0
    ensures b < n
  {
    And(hk, n - 1)
  }

  /** The mask picks the bucket by the remainder. */
  lemma HomeIsRemainder(hk: nat, n: nat)
    requires PowerOfTwo(n)
    ensures Home(hk, n) == hk % n
  {
    MaskIsRemainder(hk, n);
  }

  ghost predicate KeyOk<V>(t: Table<V>, hash: Key -> nat, k: Key)
    requires |t.chains| > 0
  {
    k in t.at ==> t.at[k].key == k && t.at[k].hk == hash(k) && k in t.chains[Home(hash(k), |t.chains|)]
  }

  ghost predicate PlaceOk<V>(t: Table<V>, hash: Key -> nat, b: nat, i: nat)
    requires |t.chains| > 0
  {
    b < |t.chains| && i < |t.chains[b]| ==> t.chains[b][i] in t.at && Home(hash(t.chains[b][i]), |t.chains|) == b
  }

  ghost predicate Once<V>(t: Table<V>, b: nat, i: nat, j: nat) {
    b < |t.chains| && i < j < |t.chains[b]| ==> t.chains[b][i] != t.chains[b][j]
  }

  /** Every key is in one place, which is in its bucket. */
  ghost predicate Wf<V>(t: Table<V>, hash: Key -> nat) {
    && |t.chains| > 0 && t.at.Keys == t.data.Keys
    && (forall k :: KeyOk(t, hash, k))
    && (forall b: nat, i: nat :: PlaceOk(t, hash, b, i))
    && (forall b: nat, i: nat, j: nat :: Once(t, b, i, j))
  }

  ghost function Link<V>(t: Table<V>, b: nat, i: nat): Entry?<V> {
    if b < |t.chains| && i < |t.chains[b]| && t.chains[b][i] in t.at then t.at[t.chains[b][i]] else null
  }

  ghost function Pushed<V>(t: Table<V>, b: nat, k: Key, e: Entry<V>, v: V): Table<V>
    requires b < |t.chains|
  {
    Table(t.chains[b := [k] + t.chains[b]], t.at[k := e], t.data[k := v])
  }

  lemma PushedIsWf<V>(t: Table<V>, hash: Key -> nat, b: nat, k: Key, e: Entry<V>, v: V)
    requires Wf(t, hash) && k !in t.at && b == Home(hash(k), |t.chains|) && e.key == k && e.hk == hash(k)
    ensures Wf(Pushed(t, b, k, e, v), hash)
  {
    var p := Pushed(t, b, k, e, v);
    assert p.at.Keys == p.data.Keys;
    forall j ensures KeyOk(p, hash, j) {
      assert KeyOk(t, hash, j);
      if j in t.at && Home(hash(j), |t.chains|) == b { assert j in [k] + t.chains[b]; }
      assert k == ([k] + t.chains[b])[0];
    }
    forall c: nat, i: nat ensures PlaceOk(p, hash, c, i) {
      assert PlaceOk(t, hash, c, i) && (i > 0 ==> PlaceOk(t, hash, c, i - 1));
    }
    forall c: nat, i: nat, j: nat ensures Once(p, c, i, j) {
      assert Once(t, c, i, j) && (i > 0 && j > 0 ==> Once(t, c, i - 1, j - 1));
      assert j > 0 ==> PlaceOk(t, hash, c, j - 1);
    }
  }

  function Without<T>(s: seq<T>, i: nat): seq<T>
    requires i < |s|
  {
    s[..i] + s[i + 1..]
  }

  ghost function Unlinked<V>(t: Table<V>, b: nat, i: nat): Table<V>
    requires b < |t.chains| && i < |t.chains[b]|
  {
    var k := t.chains[b][i];
    Table(t.chains[b := Without(t.chains[b], i)], t.at - {k}, t.data - {k})
  }

  lemma UnlinkedIsWf<V>(t: Table<V>, hash: Key -> nat, b: nat, i: nat)
    requires Wf(t, hash) && b < |t.chains| && i < |t.chains[b]|
    ensures Wf(Unlinked(t, b, i), hash) && t.chains[b][i] in t.at
  {
    var u, c := Unlinked(t, b, i), t.chains[b];
    var k := c[i];
    assert PlaceOk(t, hash, b, i);
    assert u.at.Keys == u.data.Keys;
    forall j ensures KeyOk(u, hash, j) {
      assert KeyOk(t, hash, j);
      if j in u.at && Home(hash(j), |t.chains|) == b {
        var n :| 0 <= n < |c| && c[n] == j;
        assert j == if n < i then Without(c, i)[n] else Without(c, i)[n - 1];
      }
    }
    forall d: nat, j: nat ensures PlaceOk(u, hash, d, j) {
      var n := if j < i then j else j + 1;
      assert PlaceOk(t, hash, d, j) && PlaceOk(t, hash, d, n) && Once(t, b, n, i) && Once(t, b, i, n);
    }
    forall d: nat, j: nat, m: nat ensures Once(u, d, j, m) {
      var j1, m1 := if j < i then j else j + 1, if m < i then m else m + 1;
      assert Once(t, d, j, m) && Once(t, d, j1, m1);
    }
  }

  // ----- the objects behind the values -----

  ghost predicate HeadShown<V>(t: Table<V>, bkts: array<Entry?<V>>, b: nat)
    reads bkts
  {
    b < bkts.Length ==> bkts[b] == Link(t, b, 0)
  }

  ghost predicate LinkShown<V>(t: Table<V>, objects: set<object>, b: nat, i: nat)
    reads objects
  {
    Link(t, b, i) != null ==>
      && Link(t, b, i) in objects && Link(t, b, i).next == Link(t, b, i + 1)
      && t.chains[b][i] in t.data && Link(t, b, i).data == t.data[t.chains[b][i]]
  }

  ghost predicate HeadsShown<V>(t: Table<V>, bkts: array<Entry?<V>>)
    reads bkts
  {
    bkts.Length == |t.chains| && forall b: nat :: HeadShown(t, bkts, b)
  }

  ghost predicate LinksShown<V>(t: Table<V>, objects: set<object>)
    reads objects
  {
    forall b: nat, i: nat :: LinkShown(t, objects, b, i)
  }

  /** What Link is in a table with one entry more in front. */
  lemma LinkPushed<V>(t: Table<V>, hash: Key -> nat, b: nat, k: Key, e: Entry<V>, v: V, c: nat, i: nat)
    requires Wf(t, hash) && k !in t.at && b < |t.chains|
    ensures Link(Pushed(t, b, k, e, v), c, i) ==
            if c != b then Link(t, c, i) else if i == 0 then e else Link(t, b, i - 1)
  {
    assert PlaceOk(t, hash, c, i) && (i > 0 ==> PlaceOk(t, hash, c, i - 1));
  }

  /** A new entry in front of its chain. */
  method Push<V>(bkts: array<Entry?<V>>, b: nat, hk: nat, key: Key, data: V, ghost t: Table<V>, ghost hash: Key -> nat,
                 ghost objects: set<object>)
    returns (e: Entry<V>)
    requires Wf(t, hash) && HeadsShown(t, bkts) && LinksShown(t, objects)
    requires key !in t.at && hk == hash(key) && b == Home(hk, |t.chains|) && bkts !in objects
    modifies bkts
    ensures fresh(e) && e.key == key && e.hk == hk
    ensures HeadsShown(Pushed(t, b, key, e, data), bkts) && LinksShown(Pushed(t, b, key, e, data), objects + {e})
  {
    assert HeadShown(t, bkts, b);
    e := new Entry(hk, key, data, bkts[b]);
    bkts[b] := e;
    ghost var p, more := Pushed(t, b, key, e, data), objects + {e};
    forall c: nat ensures HeadShown(p, bkts, c) {
      assert old(HeadShown(t, bkts, c));
      LinkPushed(t, hash, b, key, e, data, c, 0);
    }
    forall c: nat, i: nat ensures LinkShown(p, more, c, i) {
      LinkPushed(t, hash, b, key, e, data, c, i);
      LinkPushed(t, hash, b, key, e, data, c, i + 1);
      assert old(LinkShown(t, objects, c, i)) && (i > 0 ==> old(LinkShown(t, objects, c, i - 1)));
      assert PlaceOk(t, hash, c, i) && (i > 0 ==> PlaceOk(t, hash, c, i - 1));
    }
  }

  /** Other data in one entry. */
  method Replace<V>(bkts: array<Entry?<V>>, e: Entry<V>, data: V, ghost b: nat, ghost i: nat, ghost t: Table<V>,
                    ghost hash: Key -> nat, ghost objects: set<object>)
    requires Wf(t, hash) && HeadsShown(t, bkts) && LinksShown(t, objects) && e == Link(t, b, i)
    modifies e
    ensures HeadsShown(t.(data := t.data[e.key := data]), bkts)
            && LinksShown(t.(data := t.data[e.key := data]), objects)
  {
    e.data := data;
    ghost var p := t.(data := t.data[e.key := data]);
    assert PlaceOk(t, hash, b, i) && KeyOk(t, hash, t.chains[b][i]);
    forall c: nat ensures HeadShown(p, bkts, c) { assert old(HeadShown(t, bkts, c)); }
    forall c: nat, j: nat ensures LinkShown(p, objects, c, j) {
      assert old(LinkShown(t, objects, c, j)) && PlaceOk(t, hash, c, j);
      assert Link(p, c, j) == Link(t, c, j) && Link(p, c, j + 1) == Link(t, c, j + 1);
      if Link(t, c, j) != null { assert KeyOk(t, hash, t.chains[c][j]); }
    }
  }

  /** What Link is in a table with one entry less. */
  lemma LinkUnlinked<V>(t: Table<V>, hash: Key -> nat, b: nat, i: nat, c: nat, j: nat)
    requires Wf(t, hash) && b < |t.chains| && i < |t.chains[b]|
    ensures Link(Unlinked(t, b, i), c, j) == if c != b || j < i then Link(t, c, j) else Link(t, b, j + 1)
  {
    var n := if j < i then j else j + 1;
    assert PlaceOk(t, hash, c, j) && PlaceOk(t, hash, c, n) && PlaceOk(t, hash, b, i);
    assert Once(t, b, n, i) && Once(t, b, i, n);
  }

  /** An entry leaves its chain: its link, in the bucket or in the entry before, skips it. */
  method Unlink<V>(bkts: array<Entry?<V>>, prev: Entry?<V>, e: Entry<V>, b: nat, ghost i: nat, ghost t: Table<V>,
                   ghost hash: Key -> nat, ghost objects: set<object>)
    requires Wf(t, hash) && HeadsShown(t, bkts) && LinksShown(t, objects) && bkts !in objects
    requires b < |t.chains| && i < |t.chains[b]| && e == Link(t, b, i)
    requires prev == if i == 0 then null else Link(t, b, i - 1)
    modifies bkts, if prev == null then {} else {prev}
    ensures HeadsShown(Unlinked(t, b, i), bkts) && LinksShown(Unlinked(t, b, i), objects)
  {
    assert PlaceOk(t, hash, b, i) && (i > 0 ==> PlaceOk(t, hash, b, i - 1) && LinkShown(t, objects, b, i - 1));
    assert LinkShown(t, objects, b, i);
    if prev == null {
      bkts[b] := e.next;
    } else {
      prev.next := e.next;
    }
    ghost var u := Unlinked(t, b, i);
    forall c: nat ensures HeadShown(u, bkts, c) {
      assert old(HeadShown(t, bkts, c));
      LinkUnlinked(t, hash, b, i, c, 0);
    }
    forall c: nat, j: nat ensures LinkShown(u, objects, c, j) {
      LinkUnlinked(t, hash, b, i, c, j);
      LinkUnlinked(t, hash, b, i, c, j + 1);
      UnlinkedLink(t, hash, b, i, c, j);
      assert old(LinkShown(t, objects, c, j)) && old(LinkShown(t, objects, c, j + 1));
    }
  }

  /** No other entry is the one before `i`, or the one that goes. */
  lemma UnlinkedLink<V>(t: Table<V>, hash: Key -> nat, b: nat, i: nat, c: nat, j: nat)
    requires Wf(t, hash) && b < |t.chains| && i < |t.chains[b]|
    ensures var u := Unlinked(t, b, i);
            Link(u, c, j) != null ==>
              && (i > 0 ==> (Link(u, c, j) == Link(t, b, i - 1) <==> c == b && j == i - 1))
              && u.chains[c][j] != t.chains[b][i]
              && u.chains[c][j] == t.chains[c][if c == b && j >= i then j + 1 else j]
  {
    var u, n := Unlinked(t, b, i), if c == b && j >= i then j + 1 else j;
    LinkUnlinked(t, hash, b, i, c, j);
    assert PlaceOk(t, hash, c, n) && PlaceOk(t, hash, b, i) && (i > 0 ==> PlaceOk(t, hash, b, i - 1));
    if Link(u, c, j) != null {
      assert KeyOk(t, hash, t.chains[c][n]) && Once(t, b, n, i) && Once(t, b, i, n);
      if i > 0 {
        assert KeyOk(t, hash, t.chains[b][i - 1]) && Once(t, b, n, i - 1) && Once(t, b, i - 1, n);
      }
    }
  }

  // ----- resizing -----

  /** The keys in the buckets before `b`, and the first `j` of bucket `b`. */
  ghost predicate Before<V>(t: Table<V>, hash: Key -> nat, b: nat, j: nat, k: Key)
    requires |t.chains| > 0
  {
    && k in t.at
    && var c := Home(hash(k), |t.chains|);
       c < b || (c == b < |t.chains| && j <= |t.chains[b]| && k in t.chains[b][..j])
  }

  ghost predicate Moved<V>(s: Table<V>, t: Table<V>, hash: Key -> nat, b: nat, j: nat, k: Key)
    requires |t.chains| > 0
  {
    && (k in s.data <==> Before(t, hash, b, j, k))
    && (k in s.data && k in t.data ==> s.data[k] == t.data[k])
  }

  /** So far the new table `s` holds what comes before. */
  ghost predicate Copied<V>(s: Table<V>, t: Table<V>, hash: Key -> nat, b: nat, j: nat) {
    Wf(s, hash) && Wf(t, hash) && forall k :: Moved(s, t, hash, b, j, k)
  }

  ghost function Empty<V>(n: nat): Table<V> { Table(seq(n, _ => []), map[], map[]) }

  lemma EmptyIsWf<V>(hash: Key -> nat, n: nat, t: Table<V>)
    requires n > 0 && t == Empty(n)
    ensures Wf(t, hash)
  {
    assert forall k :: KeyOk(t, hash, k);
    assert forall b: nat, i: nat :: PlaceOk(t, hash, b, i);
    assert forall b: nat, i: nat, j: nat :: Once(t, b, i, j);
  }

  lemma CopiedNothing<V>(s: Table<V>, t: Table<V>, hash: Key -> nat, n: nat)
    requires Wf(t, hash) && n > 0 && s == Empty(n)
    ensures Copied(s, t, hash, 0, 0)
  {
    EmptyIsWf(hash, n, s);
    assert forall k :: Moved(s, t, hash, 0, 0, k);
  }

  /** The next entry is not in the new table yet, so there is room for it. */
  lemma NextIsNew<V>(s: Table<V>, t: Table<V>, hash: Key -> nat, b: nat, j: nat)
    requires Copied(s, t, hash, b, j) && b < |t.chains| && j < |t.chains[b]|
    ensures t.chains[b][j] !in s.at && t.chains[b][j] in t.at && |s.at| < |t.at|
  {
    var k := t.chains[b][j];
    assert PlaceOk(t, hash, b, j) && Moved(s, t, hash, b, j, k);
    forall i: nat | i < j ensures t.chains[b][i] != k { assert Once(t, b, i, j); }
    forall x | x in s.at.Keys ensures x in t.at.Keys - {k} { assert Moved(s, t, hash, b, j, x); }
    SubsetSize(s.at.Keys, t.at.Keys - {k});
    assert |t.at.Keys - {k}| == |t.at.Keys| - 1;
  }

  lemma CopiedOne<V>(s: Table<V>, t: Table<V>, hash: Key -> nat, b: nat, j: nat, e: Entry<V>)
    requires Copied(s, t, hash, b, j) && b < |t.chains| && j < |t.chains[b]|
    requires e.key == t.chains[b][j] && e.hk == hash(e.key) && e.key in t.data
    ensures var r := Pushed(s, Home(e.hk, |s.chains|), e.key, e, t.data[e.key]);
            Copied(r, t, hash, b, j + 1) && |r.at| == |s.at| + 1 && |r.chains| == |s.chains|
  {
    var k := t.chains[b][j];
    var r := Pushed(s, Home(e.hk, |s.chains|), k, e, t.data[k]);
    NextIsNew(s, t, hash, b, j);
    PushedIsWf(s, hash, Home(e.hk, |s.chains|), k, e, t.data[k]);
    assert PlaceOk(t, hash, b, j);
    assert t.chains[b][..j + 1] == t.chains[b][..j] + [k];
    var next := j + 1;
    forall x ensures Moved(r, t, hash, b, next, x) {
      assert Moved(s, t, hash, b, j, x);
    }
    assert r.at.Keys == s.at.Keys + {k};
  }

  lemma CopiedBucket<V>(s: Table<V>, t: Table<V>, hash: Key -> nat, b: nat)
    requires b < |t.chains| && Copied(s, t, hash, b, |t.chains[b]|)
    ensures Copied(s, t, hash, b + 1, 0)
  {
    var c, next := t.chains[b], b + 1;
    assert c[..|c|] == c;
    forall k ensures Moved(s, t, hash, next, 0, k) {
      assert Moved(s, t, hash, b, |c|, k) && KeyOk(t, hash, k);
    }
  }

  lemma CopiedAll<V>(s: Table<V>, t: Table<V>, hash: Key -> nat)
    requires Copied(s, t, hash, |t.chains|, 0)
    ensures s.data == t.data && |s.at| == |t.at|
  {
    forall k ensures k in s.data <==> k in t.data {
      assert Moved(s, t, hash, |t.chains|, 0, k) && KeyOk(t, hash, k);
    }
    forall k | k in s.data ensures s.data[k] == t.data[k] { assert Moved(s, t, hash, |t.chains|, 0, k); }
    assert s.at.Keys == t.at.Keys;
  }

  /** The state of resize: the new table holds what comes before, in as many entries. */
  ghost predicate Resizing<V>(bkts: array<Entry?<V>>, ents: array<Entry?<V>>, n: nat, s: Table<V>, news: set<object>,
                              t: Table<V>, hash: Key -> nat, b: nat, j: nat)
    reads bkts, news
  {
    && Copied(s, t, hash, b, j) && n == |s.at| && |s.chains| == bkts.Length
    && HeadsShown(s, bkts) && LinksShown(s, news) && bkts !in news && ents !in news && ents != bkts
  }

  /** One round of the inner loop of resize: `e`, the `j`-th of its chain, is copied in front
      of its new chain; the copy is the `n`-th of the entries set aside. */
  method MoveOne<V>(e: Entry<V>, nmsk: nat, bkts: array<Entry?<V>>, ents: array<Entry?<V>>, n: nat, ghost s0: Table<V>,
                    ghost news0: set<object>,
                    ghost b: nat, ghost j: nat, ghost t: Table<V>, ghost hash: Key -> nat, ghost objects: set<object>)
    returns (next: Entry?<V>, ghost s: Table<V>, ghost news: set<object>)
    requires LinksShown(t, objects) && b < |t.chains| && e == Link(t, b, j) && ents.Length == |t.at|
    requires Resizing(bkts, ents, n, s0, news0, t, hash, b, j) && nmsk == bkts.Length - 1
    requires bkts !in objects && ents !in objects
    modifies bkts, ents
    ensures next == Link(t, b, j + 1) && j < |t.chains[b]| && fresh(news - news0)
    ensures Resizing(bkts, ents, n + 1, s, news, t, hash, b, j + 1)
  {
    assert LinkShown(t, objects, b, j) && KeyOk(t, hash, t.chains[b][j]);
    NextIsNew(s0, t, hash, b, j);
    next := e.next;
    var ne := Push(bkts, And(e.hk, nmsk), e.hk, e.key, e.data, s0, hash, news0);
    ents[n] := ne;
    CopiedOne(s0, t, hash, b, j, ne);
    s, news := Pushed(s0, Home(ne.hk, |s0.chains|), ne.key, ne, t.data[ne.key]), news0 + {ne};
  }

  /** The inner loop of resize. */
  method MoveChain<V>(head: Entry?<V>, bkts: array<Entry?<V>>, ents: array<Entry?<V>>, n0: nat, ghost s0: Table<V>,
                      ghost news0: set<object>,
                      ghost b: nat, ghost t: Table<V>, ghost hash: Key -> nat, ghost objects: set<object>)
    returns (n: nat, ghost s: Table<V>, ghost news: set<object>)
    requires LinksShown(t, objects) && b < |t.chains| && head == Link(t, b, 0) && ents.Length == |t.at|
    requires Resizing(bkts, ents, n0, s0, news0, t, hash, b, 0)
    requires bkts !in objects && ents !in objects
    modifies bkts, ents
    ensures fresh(news - news0) && LinksShown(t, objects)
    ensures Resizing(bkts, ents, n, s, news, t, hash, b + 1, 0)
  {
    var e := head;
    ghost var j: nat := 0;
    n, s, news := n0, s0, news0;
    while e != null
      invariant j <= |t.chains[b]| && e == Link(t, b, j) && LinksShown(t, objects)
      invariant Resizing(bkts, ents, n, s, news, t, hash, b, j) && fresh(news - news0)
      decreases |t.chains[b]| - j
    {
      e, s, news := MoveOne(e, bkts.Length - 1, bkts, ents, n, s, news, b, j, t, hash, objects);
      j, n := j + 1, n + 1;
    }
    assert PlaceOk(t, hash, b, j);
    CopiedBucket(s, t, hash, b);
  }

  /** The new buckets of resize, and the entries set aside for what is in the table. */
  method SetAside<V>(nsz: nat, used: nat, ghost t: Table<V>, ghost hash: Key -> nat)
    returns (bkts: array<Entry?<V>>, ents: array<Entry?<V>>, ghost s: Table<V>)
    requires Wf(t, hash) && nsz > 0
    ensures fresh(bkts) && fresh(ents) && bkts.Length == nsz && ents.Length == used
    ensures Resizing(bkts, ents, 0, s, {}, t, hash, 0, 0)
  {
    bkts := new Entry?<V>[nsz](_ => null);
    ents := new Entry?<V>[used](_ => null);
    s := Empty(nsz);
    CopiedNothing(s, t, hash, nsz);
    assert forall b: nat :: HeadShown(s, bkts, b);
    ghost var none := {};
    assert forall b: nat, i: nat :: LinkShown(s, none, b, i);
  }

  /** The loops of resize. */
  method Redistribute<V>(from: array<Entry?<V>>, nsz: nat, used: nat, ghost t: Table<V>, ghost hash: Key -> nat,
                         ghost objects: set<object>)
    returns (bkts: array<Entry?<V>>, n: nat, ghost s: Table<V>, ghost news: set<object>)
    requires Wf(t, hash) && HeadsShown(t, from) && LinksShown(t, objects) && used == |t.at| && nsz > 0
    ensures fresh(bkts) && bkts.Length == nsz == |s.chains| && fresh(news) && bkts !in news
    ensures Wf(s, hash) && HeadsShown(s, bkts) && LinksShown(s, news)
    ensures s.data == t.data && |s.at| == |t.at| && n == used
  {
    var ents;
    bkts, ents, s := SetAside(nsz, used, t, hash);
    news, n := {}, 0;
    for b := 0 to from.Length
      invariant Resizing(bkts, ents, n, s, news, t, hash, b, 0) && fresh(news)
      invariant HeadsShown(t, from) && LinksShown(t, objects)
    {
      assert HeadShown(t, from, b);
      n, s, news := MoveChain(from[b], bkts, ents, n, s, news, b, t, hash, objects);
    }
    CopiedAll(s, t, hash);
  }

  // ----- comparing keys -----

  /** The word of `n` bytes at `i`, read with the first byte lowest. */
  function Word(k: Key, i: nat, n: nat): nat
    requires i + n <= |k|
    decreases n
  {
    if n == 0 then 0 else k[i] as nat + BYTE_VALUES * Word(k, i + 1, n - 1)
  }

  lemma {:induction false} EqualWords(a: Key, b: Key, i: nat, n: nat)
    requires i + n <= |a| == |b|
    ensures Word(a, i, n) == Word(b, i, n) <==> a[i..i + n] == b[i..i + n]
    decreases n
  {
    if n > 0 {
      EqualWords(a, b, i + 1, n - 1);
      assert a[i..i + n] == [a[i]] + a[i + 1..i + n] && b[i..i + n] == [b[i]] + b[i + 1..i + n];
      assert a[i..i + n][0] == a[i] && b[i..i + n][0] == b[i];
      assert a[i..i + n][1..] == a[i + 1..i + n] && b[i..i + n][1..] == b[i + 1..i + n];
    }
  }

  lemma EqualSoFar(a: Key, b: Key, i: nat, n: nat)
    requires i + n <= |a| == |b| && a[..i] == b[..i]
    ensures Word(a, i, n) == Word(b, i, n) <==> a[..i + n] == b[..i + n]
    ensures Word(a, i, n) != Word(b, i, n) ==> a != b
  {
    EqualWords(a, b, i, n);
    assert a[..i + n] == a[..i] + a[i..i + n] && b[..i + n] == b[..i] + b[i..i + n];
    if a[..i + n] == b[..i + n] { assert a[i..i + n] == a[..i + n][i..] && b[i..i + n] == b[..i + n][i..]; }
  }

  /** The comparison of Get: eight bytes at a time, then four, then one. */
  method SameKey(key: Key, ekey: Key) returns (same: bool)
    ensures same == (key == ekey)
  {
    var i: nat, klen: nat := 0, |key|;
    if klen != |ekey| {
      return false;
    }
    while klen >= 8
      invariant i + klen == |key| && key[..i] == ekey[..i]
    {
      EqualSoFar(key, ekey, i, 8);
      if Word(key, i, 8) != Word(ekey, i, 8) {
        return false;
      }
      i, klen := i + 8, klen - 8;
    }
    FourIsSet(klen);
    if And(klen, 4) > 0 {
      EqualSoFar(key, ekey, i, 4);
      if Word(key, i, 4) != Word(ekey, i, 4) {
        return false;
      }
      i := i + 4;
    }
    while i < |key|
      invariant i <= |key| && key[..i] == ekey[..i]
    {
      if key[i] != ekey[i] {
        return false;
      }
      assert key[..i + 1] == key[..i] + [key[i]] && ekey[..i + 1] == ekey[..i] + [ekey[i]];
      i := i + 1;
    }
    assert key[..i] == key && ekey[..i] == ekey;
    return true;
  }

  // ----- the map -----

  class HashMap<V> {
    const hash: Key -> nat
    var bkts: array<Entry?<V>>
    var msk: nat
    var used: nat
    var rsz: bool
    ghost var table: Table<V>
    ghost var objects: set<object>
    ghost var calls: seq<L.Call>   // what has been done since New
    ghost var copied: nat          // the entries copied by resizing
    ghost var tidy: bool           // made by New, and never told to RemoveRandom

    constructor Make(bkts: array<Entry?<V>>, hash: Key -> nat)
      requires bkts.Length > 0 && PowerOfTwo(bkts.Length) && forall b :: 0 <= b < bkts.Length ==> bkts[b] == null
      ensures this.bkts == bkts && this.hash == hash && rsz && objects == {} && table.data == map[]
      ensures tidy == (bkts.Length == L.BSZ) && calls == []
      ensures Valid()
    {
      this.bkts, this.hash, msk, used, rsz := bkts, hash, bkts.Length - 1, 0, true;
      table, objects := Empty(bkts.Length), {};
      calls, copied, tidy := [], 0, bkts.Length == L.BSZ;
      new;
      EmptyIsWf(hash, bkts.Length, table);
      assert forall b: nat :: HeadShown(table, bkts, b);
      assert forall b: nat, i: nat :: LinkShown(table, objects, b, i);
    }

    /** The contents, as a finite map. */
    ghost function Contents(): map<Key, V>
      reads this
    {
      table.data
    }

    ghost predicate Core()
      reads this, bkts, objects
    {
      && this !in objects && bkts !in objects
      && Wf(table, hash) && HeadsShown(table, bkts) && LinksShown(table, objects)
      && PowerOfTwo(bkts.Length) && msk == bkts.Length - 1 && used == |table.at|
    }

    /** The size and the copies made are those of the calls. */
    ghost predicate Accounted()
      reads this
    {
      tidy ==> rsz && L.Size(bkts.Length, used, copied) == L.After(calls)
    }

    ghost predicate Valid()
      reads this, bkts, objects
    {
      Core() && Accounted()
    }

    /** The walk along a chain: the entry with the key and the one before it. */
    method Locate(key: Key, b: nat) returns (prev: Entry?<V>, e: Entry?<V>, ghost i: nat)
      requires Core() && b == Home(hash(key), |table.chains|)
      ensures e == Link(table, b, i) && (e != null <==> key in table.at)
      ensures e != null ==> i < |table.chains[b]| && table.chains[b][i] == key
      ensures e != null ==> prev == if i == 0 then null else Link(table, b, i - 1)
    {
      assert HeadShown(table, bkts, b) && KeyOk(table, hash, key);
      prev, e, i := null, bkts[b], 0;
      while e != null
        invariant i <= |table.chains[b]| && e == Link(table, b, i)
        invariant prev == if i == 0 then null else Link(table, b, i - 1)
        invariant key !in table.chains[b][..i]
        decreases |table.chains[b]| - i
      {
        assert LinkShown(table, objects, b, i) && PlaceOk(table, hash, b, i) && KeyOk(table, hash, table.chains[b][i]);
        if |key| == |e.key| && key == e.key {
          return;
        }
        assert table.chains[b][..i + 1] == table.chains[b][..i] + [e.key];
        prev, e, i := e, e.next, i + 1;
      }
      assert PlaceOk(table, hash, b, i);
      assert i == |table.chains[b]| && table.chains[b][..i] == table.chains[b];
    }

    /** resize. */
    method Resize(nsz: nat)
      requires Core() && PowerOfTwo(nsz)
      modifies this
      ensures Contents() == old(Contents()) && used == old(used) && bkts.Length == nsz && copied == old(copied) + used
      ensures fresh(bkts) && fresh(objects) && rsz == old(rsz) && tidy == old(tidy) && calls == old(calls)
      ensures Core()
    {
      var newBkts, n, s, news := Redistribute(bkts, nsz, used, table, hash, objects);
      Adopt(newBkts, nsz - 1, n, s, news);
    }

    method Adopt(bkts: array<Entry?<V>>, msk: nat, ghost n: nat, ghost s: Table<V>, ghost news: set<object>)
      requires this !in news && bkts !in news
      requires Wf(s, hash) && HeadsShown(s, bkts) && LinksShown(s, news)
      requires PowerOfTwo(bkts.Length) && msk == bkts.Length - 1 && used == |s.at|
      modifies this`bkts, this`msk, this`table, this`objects, this`copied
      ensures this.bkts == bkts && table == s && objects == news && copied == old(copied) + n
      ensures Core()
    {
      this.bkts, this.msk := bkts, msk;
      table, objects, copied := s, news, copied + n;
    }

    method Settle(n: nat, ghost s: Table<V>, ghost news: set<object>)
      requires this !in news && bkts !in news
      requires Wf(s, hash) && HeadsShown(s, bkts) && LinksShown(s, news)
      requires PowerOfTwo(bkts.Length) && msk == bkts.Length - 1 && n == |s.at|
      modifies this`used, this`table, this`objects
      ensures used == n && table == s && objects == news
      ensures Core()
    {
      used := n;
      table, objects := s, news;
    }

    method Grow()
      requires Core()
      modifies this
      ensures Contents() == old(Contents()) && used == old(used)
      ensures rsz == old(rsz) && tidy == old(tidy) && calls == old(calls)
      ensures (bkts == old(bkts) && objects == old(objects)) || (fresh(bkts) && fresh(objects))
      ensures if old(bkts.Length) >= L.MAX_BKT_SIZE then bkts.Length == old(bkts.Length) && copied == old(copied)
              else bkts.Length == 2 * old(bkts.Length) && copied == old(copied) + used
      ensures Core()
    {
      // cannot grow beyond the largest int for now
      if bkts.Length >= L.MAX_BKT_SIZE {
        return;
      }
      Doubled(bkts.Length);
      Resize(2 * bkts.Length);
    }

    method Shrink()
      requires Core()
      modifies this
      ensures Contents() == old(Contents()) && used == old(used)
      ensures rsz == old(rsz) && tidy == old(tidy) && calls == old(calls)
      ensures (bkts == old(bkts) && objects == old(objects)) || (fresh(bkts) && fresh(objects))
      ensures if old(bkts.Length) <= L.BSZ then bkts.Length == old(bkts.Length) && copied == old(copied)
              else bkts.Length == old(bkts.Length) / 2 && copied == old(copied) + used
      ensures Core()
    {
      if bkts.Length <= L.BSZ {
        return;
      }
      L.Halves(bkts.Length);
      Resize(bkts.Length / 2);
    }

    /** A key that is there gets other data. */
    method Overwrite(e: Entry<V>, data: V, ghost key: Key, ghost b: nat, ghost i: nat)
      requires Core() && e == Link(table, b, i) && key in table.at && e == table.at[key]
      modifies this`table, this`objects, this`used, objects
      ensures used == old(used)
      ensures Contents() == old(Contents())[key := data]
      ensures objects == old(objects)
      ensures Core()
    {
      assert PlaceOk(table, hash, b, i) && KeyOk(table, hash, key) && LinkShown(table, objects, b, i);
      ghost var t := table;
      Replace(bkts, e, data, b, i, t, hash, objects);
      DataIsFree(t, hash, key, data);
      Settle(used, t.(data := t.data[key := data]), objects);
    }

    /** A key that is not there gets an entry. */
    method Enter(b: nat, hk: nat, key: Key, data: V)
      requires Core() && key !in table.at && hk == hash(key) && b == Home(hk, |table.chains|)
      modifies this`table, this`objects, this`used, bkts
      ensures Contents() == old(Contents())[key := data] && used == old(used) + 1
      ensures fresh(objects - old(objects))
      ensures Core()
    {
      ghost var t, objs := table, objects;
      var e := Push(bkts, b, hk, key, data, t, hash, objs);
      PushedIsWf(t, hash, b, key, e, data);
      ghost var p := Pushed(t, b, key, e, data);
      assert p.at.Keys == t.at.Keys + {key};
      Settle(used + 1, p, objs + {e});
    }

    /** An entry that is there goes. */
    method Leave(prev: Entry?<V>, e: Entry<V>, b: nat, ghost i: nat)
      requires Core() && b < |table.chains| && i < |table.chains[b]| && e == Link(table, b, i)
      requires prev == if i == 0 then null else Link(table, b, i - 1)
      modifies this`table, this`objects, this`used, bkts, objects
      ensures Contents() == old(Contents()) - {old(table).chains[b][i]} && used + 1 == old(used)
      ensures objects == old(objects) && bkts == old(bkts)
      ensures unchanged(this`msk, this`rsz, this`copied, this`calls, this`tidy)
      ensures Core()
    {
      ghost var t := table;
      UnlinkedIsWf(t, hash, b, i);
      if i > 0 { assert PlaceOk(t, hash, b, i - 1) && LinkShown(t, objects, b, i - 1); }
      Unlink(bkts, prev, e, b, i, t, hash, objects);
      ghost var k := t.chains[b][i];
      ghost var u := Unlinked(t, b, i);
      assert u.at.Keys == t.at.Keys - {k} && |t.at.Keys - {k}| == |t.at.Keys| - 1;
      Settle(used - 1, u, objects);
    }

    // ----- the operations -----

    /** Set. */
    method Set(key: Key, data: V)
      requires Valid()
      modifies this, bkts, objects
      ensures Contents() == old(Contents())[key := data]
      ensures calls == old(calls) + [if key in old(Contents()) then L.Replaced else L.Added] && tidy == old(tidy)
      ensures fresh(objects - old(objects)) && (bkts == old(bkts) || fresh(bkts))
      ensures Valid()
    {
      var hk := hash(key);
      var b := And(hk, msk);
      var prev, e, i := Locate(key, b);
      if e != null {
        Found(key, b, i);
        Overwrite(e, data, key, b, i);
        Note(L.Replaced, L.Size(bkts.Length, used, copied));
      } else {
        SetNew(b, hk, key, data);
      }
    }

    /** Set, from where there is a new entry. */
    method SetNew(b: nat, hk: nat, key: Key, data: V)
      requires Valid() && key !in table.at && hk == hash(key) && b == Home(hk, |table.chains|)
      modifies this, bkts
      ensures Contents() == old(Contents())[key := data] && calls == old(calls) + [L.Added] && tidy == old(tidy)
      ensures fresh(objects - old(objects)) && (bkts == old(bkts) || fresh(bkts))
      ensures Valid()
    {
      ghost var was := L.Size(bkts.Length, used, copied);
      Enter(b, hk, key, data);
      // check for resizing
      if rsz && used > bkts.Length {
        Grow();
      }
      Note(L.Added, was);
    }

    /** Where Locate has found the key. */
    lemma Found(key: Key, b: nat, i: nat)
      requires Core() && key in table.at && b == Home(hash(key), |table.chains|)
      requires i < |table.chains[b]| && table.chains[b][i] == key
      ensures Link(table, b, i) == table.at[key]
    {
    }

    /** The call is written down; what it did to the size is what Step says. */
    ghost method Note(c: L.Call, was: L.Size)
      requires Core() && (tidy ==> rsz && was == L.After(calls) && L.Size(bkts.Length, used, copied) == L.Step(was, c))
      modifies this`calls
      ensures calls == old(calls) + [c]
      ensures Valid()
    {
      hide Wf, HeadsShown, LinksShown, PowerOfTwo, L.Step, L.After;
      L.AfterSnoc(calls, c);
      calls := calls + [c];
    }

    /** Get. */
    method Get(key: Key) returns (r: Option<V>)
      requires Valid()
      ensures r == if key in Contents() then Some(Contents()[key]) else None
    {
      var hk := hash(key);
      var b := And(hk, msk);
      assert HeadShown(table, bkts, b) && KeyOk(table, hash, key);
      var e := bkts[b];
      ghost var i: nat := 0;
      while e != null
        invariant i <= |table.chains[b]| && e == Link(table, b, i)
        invariant key !in table.chains[b][..i]
        decreases |table.chains[b]| - i
      {
        assert LinkShown(table, objects, b, i) && PlaceOk(table, hash, b, i) && KeyOk(table, hash, table.chains[b][i]);
        var same := SameKey(key, e.key);
        if same {
          return Some(e.data);
        }
        assert table.chains[b][..i + 1] == table.chains[b][..i] + [e.key];
        e, i := e.next, i + 1;
      }
      assert PlaceOk(table, hash, b, i);
      assert i == |table.chains[b]| && table.chains[b][..i] == table.chains[b];
      return None;
    }

    /** Remove. */
    method Remove(key: Key)
      requires Valid()
      modifies this, bkts, objects
      ensures Contents() == old(Contents()) - {key}
      ensures calls == old(calls) + [if key in old(Contents()) then L.Dropped else L.Missed] && tidy == old(tidy)
      ensures fresh(objects - old(objects)) && (bkts == old(bkts) || fresh(bkts))
      ensures Valid()
    {
      var hk := hash(key);
      var b := And(hk, msk);
      var prev, e, i := Locate(key, b);
      if e == null {
        assert Contents() == Contents() - {key};
        Note(L.Missed, L.Size(bkts.Length, used, copied));
      } else {
        RemoveOld(prev, e, b, i);
      }
    }

    /** Remove, from where the entry is found. */
    method RemoveOld(prev: Entry?<V>, e: Entry<V>, b: nat, ghost i: nat)
      requires Valid() && b < |table.chains| && i < |table.chains[b]| && e == Link(table, b, i)
      requires prev == if i == 0 then null else Link(table, b, i - 1)
      modifies this, bkts, objects
      ensures Contents() == old(Contents()) - {old(table).chains[b][i]}
      ensures calls == old(calls) + [L.Dropped] && tidy == old(tidy)
      ensures fresh(objects - old(objects)) && (bkts == old(bkts) || fresh(bkts))
      ensures Valid()
    {
      ghost var was := L.Size(bkts.Length, used, copied);
      Leave(prev, e, b, i);
      CheckShrink(was);
    }

    /** The check for resizing of Remove. */
    method CheckShrink(ghost was: L.Size)
      requires Core() && was == L.Size(bkts.Length, used + 1, copied) && (tidy ==> rsz && was == L.After(calls))
      modifies this
      ensures Contents() == old(Contents()) && calls == old(calls) + [L.Dropped] && tidy == old(tidy)
      ensures (bkts == old(bkts) && objects == old(objects)) || (fresh(bkts) && fresh(objects))
      ensures Valid()
    {
      var lbkts := bkts.Length;
      if rsz && lbkts > L.BSZ && used < lbkts / 4 {
        Shrink();
      }
      Note(L.Dropped, was);
    }

    /** RemoveRandom, for any random number: exactly one binding goes, if there is one; the
        panic at the end is not reached. */
    method RemoveRandom(random: nat) returns (ghost gone: Key)
      requires Valid()
      modifies this, bkts, objects
      ensures Contents() == old(Contents()) - {gone} && (old(Contents()) != map[] ==> gone in old(Contents()))
      ensures objects == old(objects) && bkts == old(bkts)
      ensures Valid()
    {
      Spoil();
      if used == 0 {
        assert table.at.Keys == {};
        gone := [];
        assert Contents() == Contents() - {gone};
        return;
      }
      var i := FullBucket(And(random, msk));
      gone := DropHead(i);
    }

    /** The two walks of RemoveRandom: forward to the end, then backward. */
    method FullBucket(index: nat) returns (b: nat)
      requires Core() && used > 0 && index < bkts.Length
      ensures b < bkts.Length && bkts[b] != null
    {
      ghost var full := SomeBucket();
      for i := index to bkts.Length
        invariant forall j :: index <= j < i ==> bkts[j] == null
      {
        if bkts[i] != null {
          return i;
        }
      }
      for i := index + 1 downto 0
        invariant forall j :: i <= j < bkts.Length ==> bkts[j] == null
      {
        if bkts[i] != null {
          return i;
        }
      }
      assert false;
    }

    /** From here on the load is not accounted for: RemoveRandom does not shrink. */
    ghost method Spoil()
      requires Valid()
      modifies this`tidy
      ensures !tidy && Valid()
    {
      tidy := false;
    }

    /** A table that is not empty has a bucket that is not. */
    lemma SomeBucket() returns (b: nat)
      requires Core() && used > 0
      ensures b < bkts.Length && bkts[b] != null
    {
      assert table.at.Keys != {};
      var k :| k in table.at;
      b := Home(hash(k), |table.chains|);
      assert KeyOk(table, hash, k) && HeadShown(table, bkts, b) && PlaceOk(table, hash, b, 0);
    }

    /** The first entry of a bucket goes. */
    method DropHead(b: nat) returns (ghost gone: Key)
      requires Valid() && !tidy && b < bkts.Length && bkts[b] != null
      modifies this`table, this`objects, this`used, bkts, objects
      ensures gone in old(Contents()) && Contents() == old(Contents()) - {gone}
      ensures objects == old(objects) && bkts == old(bkts)
      ensures Valid()
    {
      assert HeadShown(table, bkts, b) && PlaceOk(table, hash, b, 0);
      gone := table.chains[b][0];
      Leave(null, bkts[b], b, 0);
    }

    function Count(): nat
      reads this
    {
      used
    }

    lemma CountIsSize()
      requires Valid()
      ensures Count() == |Contents()|
    {
      assert |table.at| == |table.at.Keys| && |table.data| == |table.data.Keys|;
    }

    /** What resizing has cost a table made by New, and how full it is. */
    lemma Amortised()
      requires Valid() && tidy
      ensures copied <= 3 * |calls| + 4
      ensures bkts.Length >= L.BSZ && PowerOfTwo(bkts.Length)
      ensures bkts.Length < L.MAX_BKT_SIZE ==> used <= bkts.Length
      ensures bkts.Length > L.BSZ ==> used >= bkts.Length / 4
    {
      L.RunIsBalanced(calls);
    }

    /** AllKeys. */
    method AllKeys() returns (all: seq<Key>)
      requires Valid()
      ensures all == Flat(table.chains, |table.chains|)
    {
      all := [];
      for b := 0 to bkts.Length
        invariant all == Flat(table.chains, b)
      {
        assert HeadShown(table, bkts, b);
        var e := bkts[b];
        ghost var i: nat := 0;
        while e != null
          invariant i <= |table.chains[b]| && e == Link(table, b, i)
          invariant all == Flat(table.chains, b) + table.chains[b][..i]
          decreases |table.chains[b]| - i
        {
          assert LinkShown(table, objects, b, i) && PlaceOk(table, hash, b, i)
              && KeyOk(table, hash, table.chains[b][i]);
          assert table.chains[b][..i + 1] == table.chains[b][..i] + [e.key];
          all := all + [e.key];
          e, i := e.next, i + 1;
        }
        assert PlaceOk(table, hash, b, i);
        assert table.chains[b][..i] == table.chains[b];
      }
    }

    /** All: the data of all keys, in the order of AllKeys. */
    method All() returns (all: seq<V>)
      requires Valid()
      ensures AreData(all, table.data, Flat(table.chains, |table.chains|))
    {
      all := [];
      for b := 0 to bkts.Length
        invariant AreData(all, table.data, Flat(table.chains, b))
      {
        assert HeadShown(table, bkts, b);
        var e := bkts[b];
        ghost var i: nat := 0;
        while e != null
          invariant i <= |table.chains[b]| && e == Link(table, b, i)
          invariant AreData(all, table.data, Flat(table.chains, b) + table.chains[b][..i])
          decreases |table.chains[b]| - i
        {
          assert LinkShown(table, objects, b, i) && PlaceOk(table, hash, b, i)
              && KeyOk(table, hash, table.chains[b][i]);
          assert table.chains[b][..i + 1] == table.chains[b][..i] + [e.key];
          assert Flat(table.chains, b) + table.chains[b][..i + 1]
              == Flat(table.chains, b) + table.chains[b][..i] + [e.key];
          all := all + [e.data];
          e, i := e.next, i + 1;
        }
        assert PlaceOk(table, hash, b, i);
        assert table.chains[b][..i] == table.chains[b];
      }
    }
  }

  /** NewWithBkts, on buckets without entries. */
  method NewWithBkts<V>(bkts: array<Entry?<V>>, hash: Key -> nat) returns (h: Option<HashMap<V>>)
    requires forall b :: 0 <= b < bkts.Length ==> bkts[b] == null
    ensures h.Some? <==> bkts.Length > 0 && PowerOfTwo(bkts.Length)
    ensures h.Some? ==>
              fresh(h.value) && h.value.Valid() && h.value.bkts == bkts && h.value.Contents() == map[]
                  && h.value.objects == {}
    ensures h.Some? && bkts.Length == L.BSZ ==> h.value.tidy && h.value.calls == []
  {
    var l := bkts.Length;
    if l > 0 { PowerOfTwoTest(l); }
    if l == 0 || And(l, l - 1) != 0 {
      return None;
    }
    var m := new HashMap<V>.Make(bkts, hash);
    return Some(m);
  }

  /** New. */
  method New<V>(hash: Key -> nat) returns (h: HashMap<V>)
    ensures fresh(h) && fresh(h.bkts) && h.objects == {} && h.Valid() && h.tidy && h.calls == []
            && h.Contents() == map[]
  {
    var bkts := new Entry?<V>[L.BSZ](_ => null);
    assert PowerOfTwo(L.BSZ) by { assert PowerOfTwo(2) && PowerOfTwo(4); }
    var m := NewWithBkts(bkts, hash);
    h := m.value;
  }

  ghost predicate AreData<V>(all: seq<V>, data: map<Key, V>, keys: seq<Key>) {
    |all| == |keys| && forall i :: 0 <= i < |keys| ==> keys[i] in data && all[i] == data[keys[i]]
  }

  /** The keys of the first `n` chains, one after the other. */
  ghost function Flat(chains: seq<seq<Key>>, n: nat): seq<Key>
    requires n <= |chains|
  {
    if n == 0 then [] else Flat(chains, n - 1) + chains[n - 1]
  }

  /** What AllKeys returns is every key, once. */
  lemma FlatIsKeys<V>(t: Table<V>, hash: Key -> nat)
    requires Wf(t, hash)
    ensures forall k :: k in Flat(t.chains, |t.chains|) <==> k in t.data
    ensures forall i, j :: 0 <= i < j < |Flat(t.chains, |t.chains|)| ==>
              Flat(t.chains, |t.chains|)[i] != Flat(t.chains, |t.chains|)[j]
  {
    var n := |t.chains|;
    FlatBelow(t, hash, n);
    forall k ensures k in Flat(t.chains, n) <==> k in t.data { assert Below(t, hash, n, k) && KeyOk(t, hash, k); }
  }

  ghost predicate Below<V>(t: Table<V>, hash: Key -> nat, n: nat, k: Key)
    requires |t.chains| > 0 && n <= |t.chains|
  {
    k in Flat(t.chains, n) <==> k in t.at && Home(hash(k), |t.chains|) < n
  }

  lemma {:induction false} FlatBelow<V>(t: Table<V>, hash: Key -> nat, n: nat)
    requires Wf(t, hash) && n <= |t.chains|
    ensures forall k :: Below(t, hash, n, k)
    ensures forall i, j :: 0 <= i < j < |Flat(t.chains, n)| ==> Flat(t.chains, n)[i] != Flat(t.chains, n)[j]
  {
    if n > 0 {
      FlatBelow(t, hash, n - 1);
      var c, m, before := t.chains[n - 1], n - 1, Flat(t.chains, n - 1);
      forall k ensures Below(t, hash, n, k) {
        assert Below(t, hash, m, k) && KeyOk(t, hash, k);
        if k in c {
          var i: nat :| i < |c| && c[i] == k;
          assert PlaceOk(t, hash, m, i);
        }
      }
      forall i, j | 0 <= i < j < |before + c| ensures (before + c)[i] != (before + c)[j] {
        if i >= |before| {
          assert Once(t, m, i - |before|, j - |before|);
        } else if j >= |before| {
          assert PlaceOk(t, hash, m, j - |before|) && Below(t, hash, m, c[j - |before|]) && before[i] in before;
        }
      }
    }
  }

  lemma DataIsFree<V>(t: Table<V>, hash: Key -> nat, k: Key, v: V)
    requires Wf(t, hash) && k in t.at
    ensures Wf(t.(data := t.data[k := v]), hash)
  {
    var u := t.(data := t.data[k := v]);
    assert u.at.Keys == u.data.Keys;
    forall j ensures KeyOk(u, hash, j) { assert KeyOk(t, hash, j); }
    forall b: nat, i: nat ensures PlaceOk(u, hash, b, i) { assert PlaceOk(t, hash, b, i); }
    forall b: nat, i: nat, j: nat ensures Once(u, b, i, j) { assert Once(t, b, i, j); }
  }
}
