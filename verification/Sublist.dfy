/** The Sublist of sublist/sublist.go: the trie with the result cache in front.  Each method is
    one region under the lock; Match is two, Probe and Miss, between which others may come. */
module Sublist {
  import opened Base
  import opened Subject
  import opened Index
  import T = Trie
  import opened SubSlices
  import opened ResultCache

  /** Literals on which the two matchers agree: no empty token at the end. */
  predicate Plain(literal: Bytes) { var lt := Split(literal); lt[|lt| - 1] != [] }

  ghost predicate FreshAt(held: Held, live: Live, k: Bytes) {
    k in held && Plain(k) ==> multiset(held[k]) == multiset(MatchList(live, Split(k)))
  }

  /** Every cached result is what a walk of the trie would collect now. */
  ghost predicate Fresh(held: Held, live: Live) { forall k :: FreshAt(held, live, k) }

  lemma LiteralMatches(k: Bytes, subject: Bytes)
    requires Plain(k) && WellFormed(Split(subject))
    ensures ByteMatch(k, subject) == Matches(PathOf(subject), Split(k))
  {
    DottedOfSplit(k);
    DottedOfSplit(subject);
    MatchersAgree(Split(k), Split(subject));
  }

  lemma FreshAfterAdd(now: Held, held: Held, live: Live, subject: Bytes, sub: SubId)
    requires Fresh(held, live) && WellFormed(Split(subject)) && Added(now, held, subject, sub)
    ensures Fresh(now, live + [Entry(PathOf(subject), sub)])
  {
    var e := Entry(PathOf(subject), sub);
    var more := live + [e];
    var all :| AllOf(all, held) && AddedTo(now, held, subject, sub, all);
    forall k ensures FreshAt(now, more, k) {
      assert FreshAt(held, live, k) && AddedAt(now, held, subject, sub, all, k);
      if k in held && Plain(k) {
        LiteralMatches(k, subject);
        SelectStep(live, e, Matching(Split(k)));
      }
    }
  }

  lemma FreshAfterRemove(now: Held, held: Held, live: Live, subject: Bytes, sub: SubId)
    requires Fresh(held, live) && WellFormed(Split(subject)) && Spared(now, held, subject)
    ensures Fresh(now, RemoveFirst(live, Entry(PathOf(subject), sub)))
  {
    var e := Entry(PathOf(subject), sub);
    var less := RemoveFirst(live, e);
    var all :| AllOf(all, held) && SparedBy(now, held, subject, all);
    forall k ensures FreshAt(now, less, k) {
      assert FreshAt(held, live, k) && SparedAt(now, held, subject, all, k);
      if k in now && Plain(k) {
        LiteralMatches(k, subject);
        SelectRemove(live, e, Matching(Split(k)));
      }
    }
  }

  lemma FreshAfterMiss(held: Held, live: Live, gone: set<Bytes>, k: Bytes, items: seq<SubId>)
    requires Fresh(held, live) && multiset(items) == multiset(MatchList(live, Split(k)))
    ensures Fresh((held - gone)[k := items], live)
  {
    var now := (held - gone)[k := items];
    forall j ensures FreshAt(now, live, j) { assert FreshAt(held, live, j); }
  }

  lemma SparedIsNoLarger(now: Held, held: Held, subject: Bytes)
    requires Spared(now, held, subject)
    ensures |now| <= |held|
  {
    var all :| AllOf(all, held) && SparedBy(now, held, subject, all);
    forall k | k in now.Keys ensures k in held.Keys { assert SparedAt(now, held, subject, all, k); }
    SubsetSize(now.Keys, held.Keys);
  }

  lemma AddedIsNoLarger(now: Held, held: Held, subject: Bytes, sub: SubId)
    requires Added(now, held, subject, sub)
    ensures |now| <= |held|
  {
    assert now.Keys == held.Keys;
  }

  class Sublist {
    const trie: T.Trie
    const cache: Cache
    const cmax: nat
    /** All subjects filed and removed so far were well formed. */
    ghost var tame: bool

    constructor (cmax: nat, hash: Bytes -> nat)
      ensures Valid() && tame && trie.live == [] && cache.made == map[] && this.cmax == cmax
    {
      hide T.Trie.Valid, Cache.Valid;
      trie := new T.Trie();
      cache := new Cache(hash);
      this.cmax := cmax;
      tame := true;
    }

    ghost predicate Disjoint()
      reads this, trie, cache, cache.table
    {
      && this !in trie.objects && cache !in trie.objects
      && this !in cache.Heap() && trie !in cache.Heap() && cache !in cache.Heap()
      && cache.Heap() !! trie.objects
    }

    ghost predicate Parts()
      reads this, trie, trie.objects, cache, cache.Heap()
    {
      Disjoint() && trie.Valid() && cache.Valid()
    }

    ghost predicate Valid()
      reads this, trie, trie.objects, cache, cache.Heap()
    {
      && Parts()
      && |cache.held| <= Limit()
      && (tame ==> Fresh(cache.held, trie.live))
    }

    function Limit(): nat { if cmax == 0 then 1 else cmax }

    // ----- the trie changes, the cache does not -----

    method File(subject: Bytes, sub: SubId) returns (ok: bool)
      requires Parts()
      modifies trie, trie.objects
      ensures fresh(trie.objects - old(trie.objects))
      ensures ok <==> Subject.Valid(Split(subject))
      ensures trie.live == if ok then old(trie.live) + [Entry(PathOf(subject), sub)] else old(trie.live)
      ensures ok && old(NoDead(trie.store, trie.live)) ==> NoDead(trie.store, trie.live)
      ensures Parts()
    {
      hide T.Trie.Valid, Cache.Valid;
      ok := trie.Insert(subject, sub);
    }

    method Unfile(subject: Bytes, sub: SubId) returns (r: T.Removal)
      requires Parts()
      modifies trie, trie.objects
      ensures trie.objects == old(trie.objects)
      ensures r == T.Removed <==> Subject.Valid(Split(subject)) && Entry(PathOf(subject), sub) in old(trie.live)
      ensures r == T.Invalid <==> T.Fault(old(trie.store), [], Split(subject), false) == Some(T.Invalid)
      ensures trie.live == if r == T.Removed then RemoveFirst(old(trie.live), Entry(PathOf(subject), sub))
              else old(trie.live)
      ensures old(NoDead(trie.store, trie.live)) ==> NoDead(trie.store, trie.live)
      ensures Parts()
    {
      hide T.Trie.Valid, Cache.Valid;
      r := trie.Remove(subject, sub);
    }

    // ----- the cache changes, the trie does not -----

    method AddToCache(subject: Bytes, sub: SubId, ghost live: Live)
      requires Parts()
      modifies cache, cache.Heap()
      ensures cache.Grown() && Extends(cache.made, old(cache.made))
      ensures |cache.held| <= old(|cache.held|)
      ensures Fresh(old(cache.held), live) && WellFormed(Split(subject)) ==>
                Fresh(cache.held, live + [Entry(PathOf(subject), sub)])
      ensures Parts()
    {
      hide T.Trie.Valid, Cache.Valid;
      ghost var h := cache.held;
      cache.AddToCache(subject, sub);
      AddedIsNoLarger(cache.held, h, subject, sub);
      if Fresh(h, live) && WellFormed(Split(subject)) { FreshAfterAdd(cache.held, h, live, subject, sub); }
    }

    method RemoveFromCache(subject: Bytes, ghost sub: SubId, ghost live: Live)
      requires Parts()
      modifies cache`held, cache.Inner()
      ensures cache.Grown() && cache.made == old(cache.made)
      ensures |cache.held| <= old(|cache.held|)
      ensures Fresh(old(cache.held), live) && WellFormed(Split(subject)) ==>
                Fresh(cache.held, RemoveFirst(live, Entry(PathOf(subject), sub)))
      ensures Parts()
    {
      hide T.Trie.Valid, Cache.Valid;
      ghost var h := cache.held;
      cache.RemoveFromCache(subject);
      SparedIsNoLarger(cache.held, h, subject);
      if Fresh(h, live) && WellFormed(Split(subject)) { FreshAfterRemove(cache.held, h, live, subject, sub); }
    }

    /** Evict if the cache is full, then fill. */
    method Fill(subject: Bytes, found: seq<SubId>, random: nat) returns (r: SubSlice, ghost gone: set<Bytes>)
      requires Parts() && |cache.held| <= Limit()
      modifies cache, cache.Inner()
      ensures cache.Grown() && Extends(cache.made, old(cache.made))
      ensures r in cache.made && cache.made[r] == found && cache.held == (old(cache.held) - gone)[subject := found]
      ensures |cache.held| <= Limit()
      ensures Parts()
    {
      hide T.Trie.Valid, Cache.Valid;
      gone := Evict(random);
      r := cache.Fill(subject, found);
    }

    method Evict(random: nat) returns (ghost gone: set<Bytes>)
      requires Parts() && |cache.held| <= Limit()
      modifies cache`held, cache.Inner()
      ensures cache.Grown() && cache.made == old(cache.made)
      ensures cache.held == old(cache.held) - gone && |cache.held| < Limit()
      ensures Parts()
    {
      hide T.Trie.Valid, Cache.Valid;
      gone := {};
      assert cache.held == cache.held - gone;
      var n := cache.Count();
      if n >= cmax {
        ghost var h := cache.held;
        ghost var k := cache.RemoveRandom(random);
        gone := {k};
        if h.Keys != {} { assert cache.held.Keys == h.Keys - {k}; }
      }
    }

    ghost method Note(subject: Bytes)
      requires Parts()
      modifies this`tame
      ensures tame == (old(tame) && WellFormed(Split(subject)))
      ensures Parts()
    {
      hide T.Trie.Valid, Cache.Valid;
      tame := tame && WellFormed(Split(subject));
    }

    // ----- the operations -----

    method Insert(subject: Bytes, sub: SubId) returns (ok: bool)
      requires Valid()
      modifies this`tame, trie, trie.objects, cache, cache.Heap()
      ensures Fresher() && Extends(cache.made, old(cache.made))
      ensures ok <==> Subject.Valid(Split(subject))
      ensures trie.live == if ok then old(trie.live) + [Entry(PathOf(subject), sub)] else old(trie.live)
      ensures tame == (old(tame) && (ok ==> WellFormed(Split(subject))))
      ensures ok && old(NoDead(trie.store, trie.live)) ==> NoDead(trie.store, trie.live)
      ensures Valid()
    {
      hide T.Trie.Valid, Cache.Valid, Fresh, NoDead, WellFormed, Subject.Valid;
      ok := File(subject, sub);
      if ok {
        AddToCache(subject, sub, old(trie.live));
        Note(subject);
      } else {
        ExtendsItself(cache.made);
      }
    }

    method Remove(subject: Bytes, sub: SubId) returns (r: T.Removal)
      requires Valid()
      modifies this`tame, trie, trie.objects, cache, cache.Inner()
      ensures Fresher() && cache.made == old(cache.made)
      ensures r == T.Removed <==> Subject.Valid(Split(subject)) && Entry(PathOf(subject), sub) in old(trie.live)
      ensures r == T.Invalid <==> T.Fault(old(trie.store), [], Split(subject), false) == Some(T.Invalid)
      ensures trie.live == if r == T.Removed then RemoveFirst(old(trie.live), Entry(PathOf(subject), sub))
              else old(trie.live)
      ensures tame == (old(tame) && (r == T.Removed ==> WellFormed(Split(subject))))
      ensures old(NoDead(trie.store, trie.live)) ==> NoDead(trie.store, trie.live)
      ensures Valid()
    {
      hide T.Trie.Valid, Cache.Valid, Fresh, NoDead, WellFormed, Subject.Valid;
      r := Unfile(subject, sub);
      if r == T.Removed {
        RemoveFromCache(subject, sub, old(trie.live));
        Note(subject);
      }
    }

    /** The first phase of Match: the cache probe. */
    method Probe(subject: Bytes) returns (r: Option<SubSlice>)
      requires Valid()
      ensures r.Some? <==> subject in cache.held
      ensures r.Some? ==> r.value in cache.made
      ensures r.Some? && tame && Plain(subject) ==>
                multiset(cache.made[r.value]) == multiset(MatchList(trie.live, Split(subject)))
    {
      r := cache.Probe(subject);
      assert tame ==> FreshAt(cache.held, trie.live, subject);
    }

    /** The second phase, in whatever state the others have left: walk, evict, fill. */
    method Miss(subject: Bytes, random: nat) returns (r: SubSlice)
      requires Valid()
      modifies cache, cache.Inner()
      ensures Fresher() && Extends(cache.made, old(cache.made))
      ensures r in cache.made && multiset(cache.made[r]) == multiset(MatchList(trie.live, Split(subject)))
      ensures Valid()
    {
      hide T.Trie.Valid, Cache.Valid, Fresh, NoDead;
      var found := trie.Lookup(subject);
      ghost var h := cache.held;
      ghost var gone;
      r, gone := Fill(subject, found, random);
      if tame { FreshAfterMiss(h, trie.live, gone, subject, found); }
    }

    /** Match when nobody comes between its phases. */
    method Match(subject: Bytes, random: nat) returns (r: SubSlice)
      requires Valid()
      modifies cache, cache.Inner()
      ensures Fresher() && Extends(cache.made, old(cache.made)) && r in cache.made
      ensures (tame && Plain(subject)) || subject !in old(cache.held) ==>
                multiset(cache.made[r]) == multiset(MatchList(trie.live, Split(subject)))
      ensures Valid()
    {
      hide T.Trie.Valid, Cache.Valid, Fresh, NoDead, WellFormed, Subject.Valid;
      var cached := Probe(subject);
      if cached.Some? {
        ExtendsItself(cache.made);
        return cached.value;
      }
      r := Miss(subject, random);
    }

    twostate predicate Fresher()
      reads trie, cache, cache.table
    {
      fresh(trie.objects - old(trie.objects)) && cache.Grown()
    }
  }
}
