/** The result cache in front of the trie (sublist/sublist.go:153-239): result slices that are
    handed to callers while the cache keeps the same backing arrays and appends to them. */
module ResultCache {
  import opened Base
  import opened Subject
  import opened Index
  import opened SubSlices
  import H = HashMap

  type Views = map<SubSlice, seq<SubId>>

  /** `made` is every slice ever made, with what it shows, and `held` what is cached.  No two
      subjects share an array, and no slice is longer than the cached one on the same array:
      appending to the cached one never writes below what others can see. */
  ghost predicate Apart(slots: map<Bytes, SubSlice>, held: map<Bytes, seq<SubId>>, made: Views) {
    && held.Keys == slots.Keys
    && (forall k :: Cached(slots, held, made, k))
    && (forall k, j :: OwnArray(slots, k, j))
    && (forall r, k {:trigger NoLonger(slots, made, r, k)} :: r in made ==> NoLonger(slots, made, r, k))
  }

  ghost predicate Cached(slots: map<Bytes, SubSlice>, held: map<Bytes, seq<SubId>>, made: Views, k: Bytes) {
    k in slots ==> k in held && slots[k] in made && made[slots[k]] == held[k]
  }

  ghost predicate OwnArray(slots: map<Bytes, SubSlice>, k: Bytes, j: Bytes) {
    k in slots && j in slots && slots[k].arr == slots[j].arr ==> k == j
  }

  ghost predicate NoLonger(slots: map<Bytes, SubSlice>, made: Views, r: SubSlice, k: Bytes) {
    k in slots && slots[k].arr == r.arr ==> r.len <= slots[k].len
  }

  /** No slice was made on this array. */
  ghost predicate Unused(made: Views, arr: array<SubId>) { forall r :: r in made ==> r.arr != arr }

  lemma ApartAfterAppend(slots: map<Bytes, SubSlice>, held: map<Bytes, seq<SubId>>, made: Views, k: Bytes, s: SubSlice,
                         v: seq<SubId>)
    requires Apart(slots, held, made) && k in slots
    requires s.arr == slots[k].arr || Unused(made, s.arr)
    requires s.len == slots[k].len + 1
    ensures s !in made && Apart(slots[k := s], held[k := v], made[s := v])
  {
    assert Cached(slots, held, made, k);
    assert s in made ==> NoLonger(slots, made, s, k);
    ApartAfterTake(slots, held, made, k, s, v);
  }

  lemma ApartAfterFill(slots: map<Bytes, SubSlice>, held: map<Bytes, seq<SubId>>, made: Views, k: Bytes, s: SubSlice,
                       v: seq<SubId>)
    requires Apart(slots, held, made) && Unused(made, s.arr)
    ensures s !in made && Apart(slots[k := s], held[k := v], made[s := v])
  {
    ApartAfterTake(slots, held, made, k, s, v);
  }

  lemma ApartAfterTake(slots: map<Bytes, SubSlice>, held: map<Bytes, seq<SubId>>, made: Views, k: Bytes, s: SubSlice,
                       v: seq<SubId>)
    requires Apart(slots, held, made) && s !in made
    requires Unused(made, s.arr) || (k in slots && s.arr == slots[k].arr && slots[k].len < s.len)
    ensures Apart(slots[k := s], held[k := v], made[s := v])
  {
    var sl, h, m := slots[k := s], held[k := v], made[s := v];
    forall j ensures Cached(sl, h, m, j) { assert Cached(slots, held, made, j); }
    forall i, j ensures OwnArray(sl, i, j) {
      assert OwnArray(slots, i, j) && OwnArray(slots, k, i) && OwnArray(slots, k, j);
      assert Cached(slots, held, made, i) && Cached(slots, held, made, j);
    }
    forall r, j | r in m ensures NoLonger(sl, m, r, j) {
      assert r in made ==> NoLonger(slots, made, r, j) && NoLonger(slots, made, r, k);
      assert OwnArray(slots, k, j) && Cached(slots, held, made, j);
    }
  }

  lemma ApartAfterRemove(slots: map<Bytes, SubSlice>, held: map<Bytes, seq<SubId>>, made: Views, k: Bytes)
    requires Apart(slots, held, made)
    ensures Apart(slots - {k}, held - {k}, made)
  {
    var sl, h := slots - {k}, held - {k};
    forall j ensures Cached(sl, h, made, j) { assert Cached(slots, held, made, j); }
    forall i, j ensures OwnArray(sl, i, j) { assert OwnArray(slots, i, j); }
    forall r, j | r in made ensures NoLonger(sl, made, r, j) { assert NoLonger(slots, made, r, j); }
  }

  /** Every slice made earlier still shows what it showed. */
  ghost predicate Extends(made: Views, before: Views) {
    forall r {:trigger Lasts(made, before, r)} :: r in before ==> Lasts(made, before, r)
  }

  ghost predicate Lasts(made: Views, before: Views, r: SubSlice) {
    r in before ==> r in made && made[r] == before[r]
  }

  lemma ExtendsItself(made: Views)
    ensures Extends(made, made)
  {
  }

  lemma ExtendsFurther(made: Views, between: Views, before: Views)
    requires Extends(made, between) && Extends(between, before)
    ensures Extends(made, before)
  {
    forall r | r in before ensures Lasts(made, before, r) {
      assert Lasts(between, before, r) && Lasts(made, between, r);
    }
  }

  // ----- the loops over the cache -----

  type Held = map<Bytes, seq<SubId>>

  /** Every cached result whose literal is among `done` and matches has the new subscriber;
      nothing else has changed. */
  ghost predicate AddedTo(now: Held, before: Held, subject: Bytes, sub: SubId, done: seq<Bytes>) {
    now.Keys == before.Keys && forall k :: AddedAt(now, before, subject, sub, done, k)
  }

  ghost predicate AddedAt(now: Held, before: Held, subject: Bytes, sub: SubId, done: seq<Bytes>, k: Bytes) {
    k in before && k in now ==> now[k] == if k in done && ByteMatch(k, subject) then before[k] + [sub] else before[k]
  }

  /** Every cached result whose literal is among `done` and matches is gone; nothing else has changed. */
  ghost predicate SparedBy(now: Held, before: Held, subject: Bytes, done: seq<Bytes>) {
    forall k :: SparedAt(now, before, subject, done, k)
  }

  ghost predicate SparedAt(now: Held, before: Held, subject: Bytes, done: seq<Bytes>, k: Bytes) {
    && (k in now <==> k in before && !(k in done && ByteMatch(k, subject)))
    && (k in now && k in before ==> now[k] == before[k])
  }

  /** addToCache as a relation between the cache before and after. */
  ghost predicate Added(now: Held, before: Held, subject: Bytes, sub: SubId) {
    exists all :: AllOf(all, before) && AddedTo(now, before, subject, sub, all)
  }

  /** removeFromCache as a relation. */
  ghost predicate Spared(now: Held, before: Held, subject: Bytes) {
    exists all :: AllOf(all, before) && SparedBy(now, before, subject, all)
  }

  /** Every key once. */
  ghost predicate AllOf(all: seq<Bytes>, held: Held) {
    (forall k :: k in all <==> k in held) && forall i, j :: 0 <= i < j < |all| ==> all[i] != all[j]
  }

  lemma NoKeys(held: Held)
    requires |held| == 0
    ensures AllOf([], held)
  {
    assert held.Keys == {};
  }

  lemma SparedNothing(held: Held, subject: Bytes)
    ensures SparedBy(held, held, subject, [])
  {
    forall k ensures SparedAt(held, held, subject, [], k) { }
  }

  lemma AddedNothing(held: Held, subject: Bytes, sub: SubId)
    ensures AddedTo(held, held, subject, sub, [])
  {
    forall k ensures AddedAt(held, held, subject, sub, [], k) { }
  }

  lemma AddedFurther(now: Held, was: Held, before: Held, subject: Bytes, sub: SubId, all: seq<Bytes>, i: nat)
    requires AllOf(all, before) && i < |all| && AddedTo(was, before, subject, sub, all[..i])
    requires now == if ByteMatch(all[i], subject) then was[all[i] := was[all[i]] + [sub]] else was
    ensures AddedTo(now, before, subject, sub, all[..i + 1])
  {
    var done, more := all[..i], all[..i + 1];
    assert more == done + [all[i]] && all[i] !in done && all[i] in before;
    forall k ensures AddedAt(now, before, subject, sub, more, k) { assert AddedAt(was, before, subject, sub, done, k); }
  }

  lemma SparedFurther(now: Held, was: Held, before: Held, subject: Bytes, all: seq<Bytes>, i: nat)
    requires i < |all| && SparedBy(was, before, subject, all[..i])
    requires now == if ByteMatch(all[i], subject) then was - {all[i]} else was
    ensures SparedBy(now, before, subject, all[..i + 1])
  {
    var done, more := all[..i], all[..i + 1];
    assert more == done + [all[i]];
    forall k ensures SparedAt(now, before, subject, more, k) { assert SparedAt(was, before, subject, done, k); }
  }

  ghost predicate Shows(r: SubSlice, v: seq<SubId>)
    reads r.arr
  {
    r.len <= r.arr.Length && r.Val() == v
  }

  class Cache {
    const table: H.HashMap<SubSlice>
    ghost var held: map<Bytes, seq<SubId>>
    ghost var made: Views
    ghost var arrays: set<array<SubId>>

    constructor (hash: Bytes -> nat)
      ensures Valid() && held == map[] && made == map[] && fresh(Heap()) && this !in Heap()
    {
      hide H.HashMap.Valid;
      var h := H.New(hash);
      table := h;
      held, made, arrays := map[], map[], {};
    }

    /** The slices cached, by literal. */
    ghost function Slots(): map<Bytes, SubSlice>
      reads this, table
    {
      table.Contents()
    }

    /** Whatever the cache may write to. */
    ghost function Heap(): set<object>
      reads this, table
    {
      Inner() + arrays
    }

    ghost function Inner(): set<object>
      reads this, table
    {
      {table, table.bkts} + table.objects
    }

    /** The hash table and the arrays of the results do not overlap. */
    ghost predicate Own()
      reads this, table
    {
      this !in Heap() && forall a :: a in arrays ==> a !in Inner()
    }

    /** Only new objects have come. */
    twostate predicate Grown()
      reads this, table
    {
      && fresh(arrays - old(arrays)) && fresh(table.objects - old(table.objects))
      && (table.bkts == old(table.bkts) || fresh(table.bkts))
    }

    ghost predicate Shown()
      reads this`made, this`arrays, arrays
    {
      forall r {:trigger InView(r)} :: r in made ==> InView(r)
    }

    ghost predicate InView(r: SubSlice)
      reads this`made, this`arrays, arrays
    {
      r in made ==> r.arr in arrays && Shows(r, made[r])
    }

    ghost predicate Valid()
      reads this, Heap()
    {
      Own() && table.Valid() && Apart(Slots(), held, made) && Shown()
    }

    /** One round of addToCache. */
    method AppendAt(k: Bytes, x: SubId)
      requires Valid() && k in held
      modifies this, Heap()
      ensures Grown() && Extends(made, old(made))
      ensures held == old(held)[k := old(held)[k] + [x]]
      ensures Valid()
    {
      hide H.HashMap.Valid;
      ghost var v := held[k] + [x];
      assert Cached(Slots(), held, made, k) && InView(Slots()[k]);
      var r := table.Get(k);
      var s := Append(r.value, x);
      StillShown(k);
      assert Unused(made, s.arr) || s.arr == Slots()[k].arr;
      ApartAfterAppend(Slots(), held, made, k, s, v);
      Take(k, s, v);
    }

    /** Appending to a cached slice leaves all slices as they are. */
    twostate lemma StillShown(k: Bytes)
      requires old(Valid()) && unchanged(this) && unchanged(table) && k in Slots()
      requires Slots()[k].len <= Slots()[k].arr.Length
      requires forall a :: a in arrays && a != Slots()[k].arr ==> a[..] == old(a[..])
      requires forall i :: 0 <= i < Slots()[k].len ==> Slots()[k].arr[i] == old(Slots()[k].arr[i])
      ensures Shown() && forall r :: r in made ==> r.arr in arrays
    {
      ghost var s := Slots()[k];
      forall q | q in made ensures InView(q) && q.arr in arrays {
        assert old(InView(q)) && NoLonger(Slots(), made, q, k);
        if q.arr == s.arr {
          assert q.Val() == old(q.Val());
        } else {
          assert q.Val() == q.arr[..][..q.len] && old(q.Val()) == old(q.arr[..][..q.len]);
        }
      }
    }

    /** A slice is put under `k`. */
    method Take(k: Bytes, s: SubSlice, ghost v: seq<SubId>)
      requires Own() && table.Valid() && Shown() && Shows(s, v) && s !in made && s.arr !in Inner()
      requires Apart(Slots()[k := s], held[k := v], made[s := v])
      modifies this`held, this`made, this`arrays, Inner()
      ensures Slots() == old(Slots())[k := s] && held == old(held)[k := v]
      ensures made == old(made)[s := v] && Extends(made, old(made)) && arrays == old(arrays) + {s.arr}
      ensures fresh(table.objects - old(table.objects)) && (table.bkts == old(table.bkts) || fresh(table.bkts))
      ensures Valid()
    {
      hide H.HashMap.Valid;
      table.Set(k, s);
      Enter(k, s, v);
    }

    /** The slice is written down. */
    ghost method Enter(k: Bytes, s: SubSlice, v: seq<SubId>)
      requires Own() && table.Valid() && Shown() && Shows(s, v) && s !in made && s.arr !in Inner()
      requires Apart(Slots(), held[k := v], made[s := v])
      modifies this`held, this`made, this`arrays
      ensures held == old(held)[k := v] && made == old(made)[s := v] && Extends(made, old(made))
      ensures arrays == old(arrays) + {s.arr}
      ensures Valid()
    {
      hide H.HashMap.Valid;
      ghost var before := made;
      held := held[k := v];
      made := made[s := v];
      arrays := arrays + {s.arr};
      forall r | r in made ensures InView(r) {
        if r != s { assert old(InView(r)); }
      }
      forall r | r in before ensures Lasts(made, before, r) { }
    }

    /** The cache fill of Match: `items` under `k`, and the slice returned to the caller. */
    method Fill(k: Bytes, items: seq<SubId>) returns (r: SubSlice)
      requires Valid()
      modifies this`held, this`made, this`arrays, Inner()
      ensures Grown() && Extends(made, old(made))
      ensures r in made && made[r] == items && held == old(held)[k := items]
      ensures Valid()
    {
      hide H.HashMap.Valid;
      r := Collect(items);
      forall q | q in made ensures q.arr != r.arr { assert InView(q); }
      ApartAfterFill(Slots(), held, made, k, r, items);
      Take(k, r, items);
    }

    /** The cache probe of Match. */
    method Probe(k: Bytes) returns (r: Option<SubSlice>)
      requires Valid()
      ensures r.Some? <==> k in held
      ensures r.Some? ==> r.value in made && made[r.value] == held[k]
    {
      hide H.HashMap.Valid;
      assert Cached(Slots(), held, made, k);
      r := table.Get(k);
    }

    method Count() returns (n: nat)
      requires Valid()
      ensures n == |held|
      ensures Valid()
    {
      table.CountIsSize();
      assert |held.Keys| == |Slots().Keys|;
      n := table.Count();
    }

    /** Snapshot stability: as long as the slices made only become more, a slice shows to its
        holder what it showed when it was made. */
    twostate lemma SnapshotStable(r: SubSlice)
      requires old(Valid()) && Valid() && Extends(made, old(made)) && r in old(made)
      ensures r.len <= r.arr.Length && r.Val() == old(r.Val()) == old(made)[r]
    {
      assert old(InView(r)) && Lasts(made, old(made), r) && InView(r);
    }

    /** AllKeys: every key once. */
    method AllKeys() returns (all: seq<Bytes>)
      requires Valid()
      ensures AllOf(all, held)
      ensures Valid()
    {
      all := table.AllKeys();
      H.FlatIsKeys(table.table, table.hash);
    }

    /** addToCache. */
    method AddToCache(subject: Bytes, sub: SubId)
      requires Valid()
      modifies this, Heap()
      ensures Grown() && Extends(made, old(made))
      ensures Added(held, old(held), subject, sub)
      ensures Valid()
    {
      hide Valid, AllOf, AddedTo, Extends;
      var n := Count();
      var all: seq<Bytes> := [];
      if n == 0 {
        NoKeys(held);
        AddedNothing(held, subject, sub);
        ExtendsItself(made);
      } else {
        all := AllKeys();
        AddToAll(all, subject, sub);
      }
      assert AllOf(all, old(held)) && AddedTo(held, old(held), subject, sub, all);
    }

    /** The loop of addToCache. */
    method AddToAll(all: seq<Bytes>, subject: Bytes, sub: SubId)
      requires Valid() && AllOf(all, held)
      modifies this, Heap()
      ensures Grown() && Extends(made, old(made)) && AddedTo(held, old(held), subject, sub, all)
      ensures Valid()
    {
      AddedNothing(held, subject, sub);
      ExtendsItself(made);
      assert all[..0] == [] && all[..|all|] == all;
      hide Valid, AddedTo, AllOf, Extends;
      for i := 0 to |all|
        invariant Valid() && Grown() && Extends(made, old(made)) && AddedTo(held, old(held), subject, sub, all[..i])
      {
        AddRound(all[i], subject, sub, old(made), old(held), all, i);
      }
    }

    /** The loop body of addToCache. */
    method AddRound(k: Bytes, subject: Bytes, sub: SubId, ghost before: Views, ghost h: Held, ghost all: seq<Bytes>,
                    ghost i: nat)
      requires Valid() && Extends(made, before) && AllOf(all, h) && i < |all| && k == all[i]
      requires AddedTo(held, h, subject, sub, all[..i])
      modifies this, Heap()
      ensures Grown() && Extends(made, before)
      ensures AddedTo(held, h, subject, sub, all[..i + 1])
      ensures Valid()
    {
      hide Apart, Shown, H.HashMap.Valid;
      var m := MatchLiteral(k, subject);
      if m {
        AppendAt(k, sub);
        ExtendsFurther(made, old(made), before);
      }
      AddedFurther(held, old(held), h, subject, sub, all, i);
    }

    /** removeFromCache. */
    method RemoveFromCache(subject: Bytes)
      requires Valid()
      modifies this`held, Inner()
      ensures Grown() && Spared(held, old(held), subject)
      ensures Valid()
    {
      hide Valid, AllOf, SparedBy;
      var n := Count();
      var all: seq<Bytes> := [];
      if n == 0 {
        NoKeys(held);
        SparedNothing(held, subject);
      } else {
        all := AllKeys();
        RemoveFromAll(all, subject);
      }
      assert AllOf(all, old(held)) && SparedBy(held, old(held), subject, all);
    }

    /** The loop of removeFromCache. */
    method RemoveFromAll(all: seq<Bytes>, subject: Bytes)
      requires Valid()
      modifies this`held, Inner()
      ensures Grown() && SparedBy(held, old(held), subject, all)
      ensures Valid()
    {
      assert SparedBy(held, held, subject, all[..0]) by { SparedNothing(held, subject); }
      hide Valid, SparedBy;
      for i := 0 to |all|
        invariant Valid() && Grown() && SparedBy(held, old(held), subject, all[..i])
      {
        RemoveRound(subject, old(held), all, i);
      }
      assert all[..|all|] == all;
    }

    /** The loop body of removeFromCache. */
    method RemoveRound(subject: Bytes, ghost h: Held, all: seq<Bytes>, i: nat)
      requires Valid() && i < |all| && SparedBy(held, h, subject, all[..i])
      modifies this`held, Inner()
      ensures Grown() && SparedBy(held, h, subject, all[..i + 1])
      ensures Valid()
    {
      var m := MatchLiteral(all[i], subject);
      if m {
        Remove(all[i]);
      }
      SparedFurther(held, old(held), h, subject, all, i);
    }

    method Remove(k: Bytes)
      requires Valid()
      modifies this`held, Inner()
      ensures Grown() && held == old(held) - {k}
      ensures Valid()
    {
      hide H.HashMap.Valid;
      ApartAfterRemove(Slots(), held, made, k);
      table.Remove(k);
      held := held - {k};
    }

    /** RemoveRandom: some entry goes, whichever it is. */
    method RemoveRandom(random: nat) returns (ghost gone: Bytes)
      requires Valid()
      modifies this`held, Inner()
      ensures Grown() && held == old(held) - {gone} && (old(held) != map[] ==> gone in old(held))
      ensures Valid()
    {
      hide H.HashMap.Valid;
      ghost var was := Slots();
      gone := table.RemoveRandom(random);
      ApartAfterRemove(was, held, made, gone);
      held := held - {gone};
    }
  }
}
