/** When the lexer of conf/lex.go stops.  A state function for the inside of a key, of a quoted
    string or of a block asks for another rune at the end of the input too, for ever. */
module LexStops {
  import opened Base
  import opened ConfParser
  import opened LexShape
  import opened LexSteps

  /** The state functions that do not look for the end of the input. */
  predicate Endless(s: LexState) {
    match s
    case OfKey(k) => !k.KeyStart?
    case OfMap(m) => m.MapQuotedKey? || m.MapDubQuotedKey? || m.MapKey?
    case OfValue(v) => v.QuotedString? || v.DubQuotedString? || v.Block?
    case _ => false
  }

  /** At the end of the input, inside a key, a quoted string or a block. */
  predicate Stuck(input: Bytes, x: Lx) { x.pos >= |input| && Endless(x.state) }

  lemma StuckStep(input: Bytes, x: Lx)
    requires Stuck(input, x)
    ensures LexStep(input, x) == x
  {
  }

  lemma {:induction false} StuckStays(input: Bytes, x: Lx, n: nat)
    requires Stuck(input, x)
    ensures Lex(input, x, n) == x
    decreases n
  {
    if n > 0 {
      StuckStep(input, x);
      StuckStays(input, x, n - 1);
    }
  }

  // ----- everywhere else it comes closer to the end -----

  /** How many steps a state is away, at most, from one that reads on or goes back: what it pushes
      counted in. */
  function Rank(s: LexState, end: bool): nat {
    if s.Skip? then Steps(s.next, end) + 1 else Steps(s, end)
  }

  function Steps(s: LexState, end: bool): nat {
    match s
    case Done => 0
    case OfTop(t) => if t.TopValueEnd? then 2 else if end then 1 else 13
    case OfKey(k) => if k.KeyStart? then 9 else if k.PlainKey? then 8 else 1
    case OfValue(v) => if v.KeyEnd? then 7 else if v.AnyValue? then 2 else 1
    case OfArray(a) => if a.ArrayValue? then 6 else if a.ArrayValueEnd? then 2 else 1
    case OfMap(m) => if m.MapKeyStart? then 9 else if m.MapKey? then 8 else if m.MapValueEnd? then 2 else 1
    case OfKeyed(d) => if d.MapKeyEnd? then 7 else 6
    case OfComment(c) => if c.CommentStart? then 2 else 1
    case Skip(_) => 0
  }

  function Weight(stack: seq<LexState>, end: bool): nat {
    if stack == [] then 0 else Weight(Front(stack), end) + Rank(Last(stack), end) + 1
  }

  lemma WeightPush(stack: seq<LexState>, s: LexState, end: bool)
    ensures Weight(stack + [s], end) == Weight(stack, end) + Rank(s, end) + 1
  {
    assert Front(stack + [s]) == stack && Last(stack + [s]) == s;
  }

  /** At the end of the input everything weighs less. */
  lemma {:induction false} WeightAtEnd(stack: seq<LexState>)
    ensures Weight(stack, true) <= Weight(stack, false)
    decreases |stack|
  {
    if stack != [] { WeightAtEnd(Front(stack)); }
  }

  /** The steps left, at most. */
  function Left(input: Bytes, x: Lx): nat {
    var end := x.pos >= |input|;
    (if end then 0 else 32 * (|input| - x.pos)) + Rank(x.state, end) + Weight(x.stack, end)
  }

  /** A step from `x` to `y` either stays and lowers what is left to do here, or reads on. */
  predicate Falls(input: Bytes, x: Lx, y: Lx) {
    var end, atEnd := x.pos >= |input|, y.pos >= |input|;
    && y.pos <= |input|
    && (y.pos == x.pos ==> Rank(y.state, end) + Weight(y.stack, end) < Rank(x.state, end) + Weight(x.stack, end))
    && (y.pos != x.pos ==> x.pos < y.pos && Rank(y.state, atEnd) + Weight(y.stack, atEnd) < 32 + Weight(x.stack, atEnd))
  }

  lemma FallsIsLess(input: Bytes, x: Lx, y: Lx)
    requires x.pos <= |input| && Falls(input, x, y)
    ensures Left(input, y) < Left(input, x)
  {
    WeightAtEnd(x.stack);
  }

  lemma PopFalls(input: Bytes, x: Lx, z: Lx)
    requires x.pos <= z.pos <= |input| && z.stack == x.stack && Rank(x.state, x.pos >= |input|) > 0
    ensures Falls(input, x, Popped(input, z)) && Falls(input, x, Erred(input, z))
  {
  }

  lemma EndFalls(input: Bytes, x: Lx, z: Lx, typ: ItemType, quoted: bool)
    requires x.pos <= z.pos <= |input| && z.stack == x.stack && Rank(x.state, x.pos >= |input|) > 0
    ensures Falls(input, x, Ended(input, z, typ, quoted))
  {
    var e := Emitted(input, z, typ);
    var p := if quoted then Beyond(input, e.pos) else e.pos;
    PopFalls(input, x, e.(start := p, pos := p));
  }

  lemma CommentFalls(input: Bytes, x: Lx, r: char, back: LexState)
    requires x.pos < |input| && Returns(back)
    ensures Falls(input, x, CommentOn(input, r, Past(input, x), back))
  {
    var y := CommentOn(input, r, Past(input, x), back);
    WeightPush(x.stack, back, y.pos >= |input|);
  }

  lemma InnerFalls(input: Bytes, x: Lx)
    requires x.pos <= |input|
    ensures x.state == OfArray(ArrayValue) ==> Falls(input, x, Inner(x, OfArray(ArrayValueEnd)))
    ensures x.state == OfKeyed(MapValue) ==> Falls(input, x, Inner(x, OfMap(MapValueEnd)))
  {
    WeightPush(x.stack, OfArray(ArrayValueEnd), x.pos >= |input|);
    WeightPush(x.stack, OfMap(MapValueEnd), x.pos >= |input|);
    hide Weight;
  }

  lemma TopFalls(input: Bytes, x: Lx)
    requires x.pos <= |input| && x.state == OfTop(Top)
    ensures Falls(input, x, TopStep(input, x))
  {
    hide Popped, Erred, CommentOn;
    var m := Past(input, x);
    PopFalls(input, x, m);
    if x.pos < |input| { CommentFalls(input, x, Rune(input, x.pos), OfTop(Top)); }
    WeightPush(x.stack, OfTop(TopValueEnd), x.pos >= |input|);
  }

  lemma TopValueEndFalls(input: Bytes, x: Lx)
    requires x.pos <= |input| && x.state == OfTop(TopValueEnd)
    ensures Falls(input, x, TopValueEndStep(input, x))
  {
    hide Popped, Erred, CommentOn;
    PopFalls(input, x, Past(input, x));
    if x.pos < |input| { CommentFalls(input, x, Rune(input, x.pos), OfTop(Top)); }
  }

  lemma KeyFalls(input: Bytes, x: Lx, k: KeyState)
    requires x.pos <= |input| && x.state == OfKey(k) && !Stuck(input, x)
    ensures Falls(input, x, KeyStateStep(input, x, k))
  {
    hide Popped, Erred;
    PopFalls(input, x, x);
  }

  lemma {:induction false} DateFalls(input: Bytes, x: Lx, z: Lx, i: nat)
    requires x.pos <= z.pos <= |input| && z.stack == x.stack && Rank(x.state, x.pos >= |input|) > 0
             && i <= |DATE_FORMAT|
    ensures Falls(input, x, DateStep(input, z, i))
    decreases |DATE_FORMAT| - i
  {
    hide Falls, Ended, Erred, Popped;
    EndFalls(input, x, z, ItemDatetime, false);
    PopFalls(input, x, Past(input, z));
    if i < |DATE_FORMAT| { DateFalls(input, x, Past(input, z), i + 1); }
  }

  lemma StringFalls(input: Bytes, x: Lx, v: ValueState)
    requires x.pos <= |input| && x.state == OfValue(v) && !Stuck(input, x)
    requires v.QuotedString? || v.DubQuotedString? || v.PlainString? || v.Block?
    ensures Falls(input, x, ValueStateStep(input, x, v))
  {
    hide Ended;
    EndFalls(input, x, x, ItemString, true);
    EndFalls(input, x, Past(input, x), ItemString, true);
    EndFalls(input, x, x, ItemString, false);
    EndFalls(input, x, x, ItemBool, false);
  }

  lemma EscapeFalls(input: Bytes, x: Lx, v: ValueState)
    requires x.pos <= |input| && x.state == OfValue(v)
    requires v.StringEscape? || v.StringBinary? || v.NumberOrDateStart? || v.NumberStart? || v.FloatStart?
    ensures Falls(input, x, ValueStateStep(input, x, v))
  {
    hide Erred, Popped, Weight;
    var m := Past(input, x);
    PopFalls(input, x, m);
    PopFalls(input, x, Past(input, m));
  }

  lemma NumberFalls(input: Bytes, x: Lx, v: ValueState)
    requires x.pos <= |input| && x.state == OfValue(v)
    requires v.NumberOrDate? || v.DateAfterYear? || v.Number? || v.FloatRest?
    ensures Falls(input, x, ValueStateStep(input, x, v))
  {
    hide Erred, Popped, Ended, DateStep;
    PopFalls(input, x, Past(input, x));
    EndFalls(input, x, x, ItemInteger, false);
    EndFalls(input, x, x, ItemFloat, false);
    DateFalls(input, x, x, 0);
  }

  lemma BeforeValueFalls(input: Bytes, x: Lx, v: ValueState)
    requires x.pos <= |input| && x.state == OfValue(v) && (v.KeyEnd? || v.AnyValue?)
    ensures Falls(input, x, ValueStateStep(input, x, v))
  {
    hide Erred, Popped, Weight;
    PopFalls(input, x, Past(input, x));
  }

  lemma ValueFalls(input: Bytes, x: Lx, v: ValueState)
    requires x.pos <= |input| && x.state == OfValue(v) && !Stuck(input, x)
    ensures Falls(input, x, ValueStateStep(input, x, v))
  {
    hide Falls;
    match v
    case KeyEnd => BeforeValueFalls(input, x, v);
    case AnyValue => BeforeValueFalls(input, x, v);
    case QuotedString => StringFalls(input, x, v);
    case DubQuotedString => StringFalls(input, x, v);
    case PlainString => StringFalls(input, x, v);
    case Block => StringFalls(input, x, v);
    case NumberOrDate => NumberFalls(input, x, v);
    case DateAfterYear => NumberFalls(input, x, v);
    case Number => NumberFalls(input, x, v);
    case FloatRest => NumberFalls(input, x, v);
    case _ => EscapeFalls(input, x, v);
  }

  lemma BracketFalls(input: Bytes, x: Lx)
    requires x.pos <= |input| && Rank(x.state, x.pos >= |input|) > 0
    ensures Falls(input, x, BracketEndStep(input, x))
  {
    PopFalls(input, x, Emitted(input, x.(start := x.pos), if x.state.OfArray? then ItemArrayEnd else ItemMapEnd));
  }

  lemma ArrayFalls(input: Bytes, x: Lx)
    requires x.pos <= |input| && x.state.OfArray?
    ensures Falls(input, x, LexStep(input, x))
  {
    hide Popped, Erred, CommentOn, Inner;
    PopFalls(input, x, Past(input, x));
    InnerFalls(input, x);
    BracketFalls(input, x);
    if x.pos < |input| {
      CommentFalls(input, x, Rune(input, x.pos), OfArray(ArrayValue));
      CommentFalls(input, x, Rune(input, x.pos), OfArray(ArrayValueEnd));
    }
  }

  lemma MapKeyStartFalls(input: Bytes, x: Lx)
    requires x.pos <= |input| && x.state == OfMap(MapKeyStart)
    ensures Falls(input, x, MapKeyStartStep(input, x))
  {
    hide Popped, Erred, CommentOn, Weight;
    PopFalls(input, x, x);
    if x.pos < |input| { CommentFalls(input, x, Rune(input, x.pos), OfMap(MapKeyStart)); }
  }

  lemma MapValueEndFalls(input: Bytes, x: Lx)
    requires x.pos <= |input| && x.state == OfMap(MapValueEnd)
    ensures Falls(input, x, MapValueEndStep(input, x))
  {
    hide Popped, Erred, CommentOn, Weight;
    PopFalls(input, x, Past(input, x));
    if x.pos < |input| { CommentFalls(input, x, Rune(input, x.pos), OfMap(MapValueEnd)); }
  }

  lemma MapKeyFalls(input: Bytes, x: Lx, s: MapState)
    requires x.pos <= |input| && x.state == OfMap(s) && !Stuck(input, x)
             && (s.MapQuotedKey? || s.MapDubQuotedKey? || s.MapKey?)
    ensures Falls(input, x, MapStateStep(input, x, s))
  {
  }

  lemma MapFalls(input: Bytes, x: Lx, s: MapState)
    requires x.pos <= |input| && x.state == OfMap(s) && !Stuck(input, x)
    ensures Falls(input, x, MapStateStep(input, x, s))
  {
    match s
    case MapKeyStart => MapKeyStartFalls(input, x);
    case MapValueEnd => MapValueEndFalls(input, x);
    case MapEnd => BracketFalls(input, x);
    case _ => MapKeyFalls(input, x, s);
  }

  lemma KeyedFalls(input: Bytes, x: Lx)
    requires x.pos <= |input| && x.state.OfKeyed?
    ensures Falls(input, x, LexStep(input, x))
  {
    hide Popped, Erred, Inner, Weight;
    PopFalls(input, x, Past(input, x));
    InnerFalls(input, x);
  }

  /** Every step but a stuck one brings the lexer closer to its end. */
  lemma StepFalls(input: Bytes, x: Lx)
    requires Tame(x) && x.pos <= |input| && !x.state.Done? && !Stuck(input, x)
    ensures Falls(input, x, LexStep(input, x))
  {
    match x.state
    case OfTop(Top) => TopFalls(input, x);
    case OfTop(TopValueEnd) => TopValueEndFalls(input, x);
    case OfKey(k) => KeyFalls(input, x, k);
    case OfValue(v) => ValueFalls(input, x, v);
    case OfArray(_) => ArrayFalls(input, x);
    case OfMap(s) => MapFalls(input, x, s);
    case OfKeyed(_) => KeyedFalls(input, x);
    case OfComment(_) => PopFalls(input, x, Emitted(input, x, ItemText));
    case Skip(_) =>
  }

  lemma {:induction false} Arrives(input: Bytes, x: Lx, n: nat)
    requires Tame(x) && x.pos <= |input| && n >= Left(input, x)
    ensures var y := Lex(input, x, n); y.state.Done? || Stuck(input, y)
    decreases n
  {
    if Stuck(input, x) {
      StuckStays(input, x, n);
    } else if !x.state.Done? {
      StepFalls(input, x);
      FallsIsLess(input, x, LexStep(input, x));
      StepIsAway(input, x);
      Arrives(input, LexStep(input, x), n - 1);
    }
  }

  // ----- the lexer on an input -----

  /** So many steps are enough for any input of this length. */
  function Enough(input: Bytes): nat { 32 * |input| + 13 }

  /** The lexer comes to its end. */
  ghost predicate Stops(input: Bytes) { exists n: nat :: StopsAfter(input, n) }

  predicate StopsAfter(input: Bytes, n: nat) { Lex(input, LEX_START, n).state.Done? }

  /** The lexer comes to the end of the input inside a key, a quoted string or a block. */
  ghost predicate EndsInside(input: Bytes) { exists n: nat :: InsideAfter(input, n) }

  predicate InsideAfter(input: Bytes, n: nat) { Stuck(input, Lex(input, LEX_START, n)) }

  /** The lexer stops, in a number of steps linear in its input, if and only if the input does not
      end inside a key, a quoted string or a block; otherwise it calls the same state function for
      ever. */
  lemma StopsExactly(input: Bytes)
    ensures Stops(input) <==> !EndsInside(input)
    ensures Stops(input) ==> StopsAfter(input, Enough(input))
    ensures EndsInside(input) ==> forall n: nat :: n >= Enough(input) ==> InsideAfter(input, n)
  {
    forall n: nat | n >= Enough(input) ensures StopsAfter(input, n) || InsideAfter(input, n) {
      Arrives(input, LEX_START, n);
    }
    assert StopsAfter(input, Enough(input)) || InsideAfter(input, Enough(input));
    forall n: nat, k: nat | StopsAfter(input, n) && InsideAfter(input, k) ensures false { NotBoth(input, n, k); }
  }

  lemma NotBoth(input: Bytes, n: nat, k: nat)
    requires StopsAfter(input, n)
    ensures !InsideAfter(input, k)
  {
    if n <= k {
      LexStays(input, LEX_START, n, k);
    } else if InsideAfter(input, k) {
      LexAdd(input, LEX_START, k, n - k);
      StuckStays(input, Lex(input, LEX_START, k), n - k);
    }
  }

  // ----- an input for which it does not stop -----

  lemma {:induction false} KeyToTheEnd(input: Bytes, x: Lx)
    requires x.state == OfKey(PlainKey) && x.pos <= |input| && IsKeyText(input)
    ensures Stuck(input, Lex(input, x, |input| - x.pos))
    decreases |input| - x.pos
  {
    if x.pos < |input| { KeyToTheEnd(input, LexStep(input, x)); }
  }

  /** A key with nothing behind it, such as "a": the lexer never stops. */
  lemma KeyAloneNeverStops(input: Bytes)
    requires input != [] && IsKeyText(input) && StartsKey(input[0])
    ensures !Stops(input)
  {
    var x, y := LEX_START, LEX_START.(state := OfKey(KeyStart), stack := [OfTop(TopValueEnd)]);
    var z := y.(state := OfKey(PlainKey), pos := 1);
    assert LexStep(input, x) == y by { assert [] + [OfTop(TopValueEnd)] == [OfTop(TopValueEnd)]; }
    assert LexStep(input, y) == z;
    assert Lex(input, z, 0) == z;
    assert Lex(input, y, 1) == z;
    assert Lex(input, x, 2) == z;
    LexAdd(input, x, 2, |input| - 1);
    KeyToTheEnd(input, z);
    assert InsideAfter(input, 2 + (|input| - 1));
    StopsExactly(input);
  }
}
