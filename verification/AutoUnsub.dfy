/** Auto-unsubscribe (deliverMsg, processUnsub and unsubscribe of server/client.go).  Each step
    is one region under the client's lock: a delivery and the removal it may ask for are two,
    and others may come between. */
module AutoUnsub {
  import opened Base
  import opened Args

  /** One subscription: whether the client's table and the index still have it, the messages
      counted, the limit (0 for none), whether the connection is open, the messages written,
      and the calls of unsubscribe that wait for the lock. */
  datatype State = State(known: bool, filed: bool, nm: nat, max: nat, open: bool, sent: nat, calls: nat)

  datatype Event = Deliver | Unsubscribe | Unsub(max: int) | Close

  function Step(s: State, e: Event): State {
    match e
    case Deliver =>
      var t := s.(nm := s.nm + 1);
      if s.max > 0 && t.nm > s.max then t.(calls := s.calls + 1)
      else t.(calls := if t.nm == s.max then s.calls + 1 else s.calls, sent := if s.open then s.sent + 1 else s.sent)
    case Unsubscribe =>
      if s.calls == 0 then s
      else if s.max > 0 && s.nm < s.max then s.(calls := s.calls - 1)
      else s.(calls := s.calls - 1, known := false, filed := false)
    case Unsub(m) =>
      if !s.known then s else s.(max := if m > 0 then m else 0, calls := s.calls + 1)
    case Close => s.(open := false, filed := false)
  }

  function Run(s: State, es: seq<Event>): State
    decreases |es|
  {
    if es == [] then s else Run(Step(s, es[0]), es[1..])
  }

  function Max(a: nat, b: nat): nat { if a < b then b else a }

  predicate NoUnsub(es: seq<Event>) { forall k :: 0 <= k < |es| ==> !es[k].Unsub? }

  // ----- how many are delivered -----

  /** With the limit `m` set when `k` messages had been counted. */
  predicate Within(s: State, k: nat, m: nat) {
    s.max == m > 0 && k <= s.nm && s.sent <= if s.nm <= m then s.nm else Max(k, m)
  }

  lemma {:induction false} StaysWithin(s: State, es: seq<Event>, k: nat, m: nat)
    requires Within(s, k, m) && NoUnsub(es)
    ensures Within(Run(s, es), k, m)
    decreases |es|
  {
    if es != [] {
      assert !es[0].Unsub?;
      StaysWithin(Step(s, es[0]), es[1..], k, m);
    }
  }

  lemma {:induction false} SentIsCounted(s: State, es: seq<Event>)
    requires s.sent <= s.nm
    ensures Run(s, es).sent <= Run(s, es).nm
    decreases |es|
  {
    if es != [] { SentIsCounted(Step(s, es[0]), es[1..]); }
  }

  /** A limit that is set on a live subscription and not overridden bounds the deliveries of the
      whole run by itself, or by what had been counted when it was set. */
  lemma LimitBounds(s: State, before: seq<Event>, m: int, after: seq<Event>)
    requires s.sent <= s.nm && m > 0 && NoUnsub(after)
    requires Run(s, before).known
    ensures var t := Run(s, before); Run(Step(t, Unsub(m)), after).sent <= Max(t.nm, m)
  {
    var t := Run(s, before);
    SentIsCounted(s, before);
    StaysWithin(Step(t, Unsub(m)), after, t.nm, m);
  }

  function Count(es: seq<Event>): nat {
    if es == [] then 0 else (if es[0].Deliver? then 1 else 0) + Count(es[1..])
  }

  /** On an open connection exactly the messages up to the limit are delivered. */
  lemma {:induction false} LimitIsExact(s: State, es: seq<Event>)
    requires s.open && s.max > 0 && forall k :: 0 <= k < |es| ==> es[k].Deliver? || es[k].Unsubscribe?
    ensures var left := if s.nm < s.max then s.max - s.nm else 0;
            Run(s, es).sent == s.sent + if Count(es) < left then Count(es) else left
    decreases |es|
  {
    if es != [] {
      assert es[0].Deliver? || es[0].Unsubscribe?;
      LimitIsExact(Step(s, es[0]), es[1..]);
    }
  }

  predicate OnlyDeliveries(es: seq<Event>) { forall k :: 0 <= k < |es| ==> es[k].Deliver? || es[k].Unsubscribe? }

  /** Without a limit an open connection gets every message. */
  lemma {:induction false} UnlimitedGetsAll(s: State, es: seq<Event>)
    requires s.open && s.max == 0 && OnlyDeliveries(es)
    ensures Run(s, es).sent == s.sent + Count(es)
    decreases |es|
  {
    if es != [] {
      assert es[0].Deliver? || es[0].Unsubscribe?;
      UnlimitedGetsAll(Step(s, es[0]), es[1..]);
    }
  }

  /** A closed connection gets nothing any more, and the index has nothing of it. */
  lemma {:induction false} ClosedGetsNothing(s: State, es: seq<Event>)
    requires !s.open && !s.filed
    ensures var t := Run(s, es); t.sent == s.sent && !t.open && !t.filed
    decreases |es|
  {
    if es != [] { ClosedGetsNothing(Step(s, es[0]), es[1..]); }
  }

  lemma CloseEndsDelivery(s: State, es: seq<Event>)
    ensures var t := Run(Step(s, Close), es); t.sent == s.sent && !t.open && !t.filed
  {
    ClosedGetsNothing(Step(s, Close), es);
  }

  // ----- and then it is gone -----

  predicate HasUnsubscribe(es: seq<Event>) { exists k :: 0 <= k < |es| && es[k].Unsubscribe? }

  /** Gone, or without a limit and about to go. */
  predicate Leaving(s: State, es: seq<Event>) {
    (!s.known && !s.filed) || (s.max == 0 && s.calls > 0 && HasUnsubscribe(es))
  }

  lemma {:induction false} LeavingGoes(s: State, es: seq<Event>)
    requires Leaving(s, es) && NoUnsub(es)
    ensures var t := Run(s, es); !t.known && !t.filed
    decreases |es|
  {
    if es != [] {
      assert !es[0].Unsub?;
      if !es[0].Unsubscribe? && HasUnsubscribe(es) {
        var k :| 0 <= k < |es| && es[k].Unsubscribe?;
        assert es[1..][k - 1].Unsubscribe?;
      }
      LeavingGoes(Step(s, es[0]), es[1..]);
    }
  }

  /** An UNSUB without a limit removes the subscription, whatever limit it had: with the first call of
      unsubscribe in any run it leaves table and index, and does not come back. */
  lemma UnsubRemoves(s: State, m: int, es: seq<Event>)
    requires s.known && m <= 0 && NoUnsub(es) && HasUnsubscribe(es)
    ensures var t := Run(Step(s, Unsub(m)), es); !t.known && !t.filed
  {
    LeavingGoes(Step(s, Unsub(m)), es);
  }

  /** Nobody removes a subscription without a limit for which no UNSUB has come. */
  lemma {:induction false} UnlimitedStays(s: State, es: seq<Event>)
    requires s.known && s.max == 0 && s.calls == 0 && OnlyDeliveries(es)
    ensures Run(s, es).known && Run(s, es).filed == s.filed
    decreases |es|
  {
    if es != [] {
      assert es[0].Deliver? || es[0].Unsubscribe?;
      UnlimitedStays(Step(s, es[0]), es[1..]);
    }
  }

  function WithoutUnsubs(es: seq<Event>): seq<Event> {
    if es == [] then [] else (if es[0].Unsub? then [] else [es[0]]) + WithoutUnsubs(es[1..])
  }

  /** Once the table has lost it, no UNSUB for its sid does anything to it, and it does not come back. */
  lemma {:induction false} GoneForGood(s: State, es: seq<Event>)
    requires !s.known
    ensures !Run(s, es).known && Run(s, es) == Run(s, WithoutUnsubs(es))
    decreases |es|
  {
    if es != [] {
      GoneForGood(Step(s, es[0]), es[1..]);
      var rest := WithoutUnsubs(es[1..]);
      if es[0].Unsub? {
        assert [] + rest == rest;
      } else {
        assert ([es[0]] + rest)[0] == es[0] && ([es[0]] + rest)[1..] == rest;
      }
    }
  }

  /** Once the count has reached the limit, the subscription is gone or about to go. */
  predicate Going(s: State) {
    s.max > 0 && s.nm >= s.max ==> s.calls > 0 || (!s.known && !s.filed)
  }

  /** In every run: when the limit is reached and no call of unsubscribe waits, neither the
      table nor the index has the subscription. */
  lemma {:induction false} GoneAtLimit(s: State, es: seq<Event>)
    requires Going(s)
    ensures Going(Run(s, es))
    decreases |es|
  {
    if es != [] { GoneAtLimit(Step(s, es[0]), es[1..]); }
  }

  /** Before the limit is reached the subscription stays. */
  lemma {:induction false} StaysBelowLimit(s: State, es: seq<Event>)
    requires s.known && s.max > 0 && s.nm + Count(es) < s.max
    requires forall k :: 0 <= k < |es| ==> es[k].Deliver? || es[k].Unsubscribe?
    ensures Run(s, es).known && Run(s, es).filed == s.filed
    decreases |es|
  {
    if es != [] {
      assert es[0].Deliver? || es[0].Unsubscribe?;
      StaysBelowLimit(Step(s, es[0]), es[1..]);
    }
  }

  // ----- the objects -----

  class Subscription {
    const sid: Bytes
    var nm: nat
    var max: nat
    ghost var sent: nat
    ghost var calls: nat

    constructor (sid: Bytes)
      ensures this.sid == sid && nm == 0 && max == 0 && sent == 0 && calls == 0
    {
      this.sid, nm, max, sent, calls := sid, 0, 0, 0, 0;
    }
  }

  class Client {
    var subs: map<Bytes, Subscription>
    var index: set<Subscription>   // the server's
    var open: bool
    var out: seq<Bytes>

    constructor ()
      ensures subs == map[] && index == {} && open && out == []
    {
      subs, index, open, out := map[], {}, true, [];
    }

    ghost function View(sub: Subscription): State
      reads this, sub
    {
      State(sub.sid in subs && subs[sub.sid] == sub, sub in index, sub.nm, sub.max, open, sub.sent, sub.calls)
    }

    /** No sid is used again: what the table has under the sid of `sub`, if anything, is `sub`. */
    ghost predicate FreshSid(sub: Subscription)
      reads this
    {
      sub.sid in subs ==> subs[sub.sid] == sub
    }

    /** The locked region of deliverMsg, and whether a call of unsubscribe follows. */
    method DeliverLocked(sub: Subscription, mh: Bytes, msg: Bytes) returns (unsub: bool)
      modifies this`out, sub
      ensures View(sub) == Step(old(View(sub)), Deliver)
      ensures sub.nm == old(sub.nm) + 1 && sub.max == old(sub.max)
      ensures out == if old(open) && (sub.max == 0 || old(sub.nm) < sub.max) then old(out) + [mh, msg] else old(out)
      ensures unsub <==> sub.max > 0 && sub.nm >= sub.max
      ensures unsub <==> sub.calls == old(sub.calls) + 1
      ensures out == old(out) + if sub.sent > old(sub.sent) then [mh, msg] else []
    {
      unsub := false;
      sub.nm := sub.nm + 1;
      if sub.max > 0 {
        if sub.nm == sub.max {
          unsub := true;
          sub.calls := sub.calls + 1;
        } else if sub.nm > sub.max {
          unsub := true;
          sub.calls := sub.calls + 1;
          return;
        }
      }
      if !open {
        return;
      }
      out := out + [mh];
      out := out + [msg];
      sub.sent := sub.sent + 1;
    }

    /** unsubscribe. */
    method Unsubscribe(sub: Subscription)
      requires sub.calls > 0 && FreshSid(sub)
      modifies this`subs, this`index, sub`calls
      ensures View(sub) == Step(old(View(sub)), Event.Unsubscribe)
      ensures var stays := sub.max > 0 && sub.nm < sub.max;
              && subs == (if stays then old(subs) else old(subs) - {sub.sid})
              && index == (if stays then old(index) else old(index) - {sub})
      ensures subs == if View(sub).known == old(View(sub)).known then old(subs) else old(subs) - {sub.sid}
      ensures index == if View(sub).filed == old(View(sub)).filed then old(index) else old(index) - {sub}
    {
      sub.calls := sub.calls - 1;
      if sub.max > 0 && sub.nm < sub.max {
        return;
      }
      if sub.sid !in subs { assert subs == subs - {sub.sid}; }
      if sub !in index { assert index == index - {sub}; }
      subs := subs - {sub.sid};
      index := index - {sub};
    }

    /** deliverMsg, when nobody comes between its two regions. */
    method DeliverMsg(sub: Subscription, mh: Bytes, msg: Bytes)
      requires FreshSid(sub)
      modifies this`out, this`subs, this`index, sub
      ensures out == if old(open) && (old(sub.max) == 0 || old(sub.nm) < old(sub.max)) then old(out) + [mh, msg]
                     else old(out)
      ensures var goes := old(sub.max) > 0 && old(sub.nm) + 1 >= old(sub.max);
              && subs == (if goes then old(subs) - {sub.sid} else old(subs))
              && index == (if goes then old(index) - {sub} else old(index))
      ensures View(sub) == var s := Step(old(View(sub)), Deliver);
                           if s.calls > old(sub.calls) then Step(s, Event.Unsubscribe) else s
    {
      var unsub := DeliverLocked(sub, mh, msg);
      if unsub {
        Unsubscribe(sub);
      }
    }

    /** processUnsub, up to its call of unsubscribe. */
    method ProcessUnsub(arg: Bytes) returns (ok: bool, sub: Option<Subscription>)
      requires forall k :: k in subs ==> subs[k].sid == k
      modifies subs.Values
      ensures ok <==> 1 <= |Fields(arg)| <= 2
      ensures sub == if ok && Fields(arg)[0] in old(subs) then Some(old(subs)[Fields(arg)[0]]) else None
      ensures sub.Some? && |Fields(arg)| == 1 ==> sub.value.max == 0
      ensures sub.Some? && |Fields(arg)| == 2 ==>
                var m := ParseSize(Fields(arg)[1]); sub.value.max == if m > 0 then m else 0
      ensures sub.Some? ==> sub.value.nm == old(sub.value.nm) && sub.value.calls == old(sub.value.calls) + 1
      ensures forall s :: s in subs.Values && sub != Some(s) ==> s.max == old(s.max) && s.nm == old(s.nm)
      ensures ok && Fields(arg)[0] in old(subs) ==>
                View(old(subs)[Fields(arg)[0]]) ==
                Step(old(View(subs[Fields(arg)[0]])),
                     Unsub(if |Fields(arg)| == 2 then ParseSize(Fields(arg)[1]) else -1))
    {
      var args := Fields(arg);
      if |args| != 1 && |args| != 2 {
        return false, None;
      }
      var max := -1;
      if |args| == 2 {
        max := ParseSize(args[1]);
      }
      ok := true;
      sub := None;
      if args[0] in subs {
        var s := subs[args[0]];
        sub := Some(s);
        assert s in subs.Values;
        if max > 0 {
          s.max := max;
        } else {
          s.max := 0;
        }
        s.calls := s.calls + 1;
      }
    }
  }
}
