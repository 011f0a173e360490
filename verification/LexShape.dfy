/** The discipline between the two stack machines of conf/: what the items emitted so far leave
    open, and how the lexer's stack of continuations mirrors it. */
module LexShape {
  import opened Base
  import opened ConfParser

  datatype Bracket = InArray | InMap

  /** The brackets that are open, innermost first. */
  datatype Open = Root | Within(b: Bracket, outer: Open)

  /** What is open, and how many keys wait for a value. */
  datatype Outline = Outline(open: Open, keys: nat)

  /** A value is complete: in a map, and at the top, it takes a key. */
  function Valued(s: Outline): Option<Outline> {
    if s.open.Within? && s.open.b.InArray? then Some(s)
    else if s.keys == 0 then None
    else Some(s.(keys := s.keys - 1))
  }

  /** What an item does to the shape; None if the brackets are not well nested, or if the
      parser would find no context or no key. */
  function Follow(s: Outline, typ: ItemType): Option<Outline> {
    if typ == ItemKey then Some(s.(keys := s.keys + 1))
    else if typ == ItemArrayStart then Some(s.(open := Within(InArray, s.open)))
    else if typ == ItemMapStart then Some(s.(open := Within(InMap, s.open)))
    else if typ == ItemArrayEnd then
      (if s.open.Within? && s.open.b.InArray? then Valued(s.(open := s.open.outer)) else None)
    else if typ == ItemMapEnd then
      (if s.open.Within? && s.open.b.InMap? then Valued(s.(open := s.open.outer)) else None)
    else if IsScalar(typ) then Valued(s)
    else Some(s)
  }

  /** Following all items of the channel. */
  function FollowAll(s: Outline, its: seq<Item>): Option<Outline> {
    if its == [] then Some(s)
    else
      match FollowAll(s, Front(its))
      case None => None
      case Some(t) => Follow(t, Last(its).typ)
  }

  lemma FollowSnoc(s: Outline, its: seq<Item>, it: Item)
    ensures FollowAll(s, its + [it]) == match FollowAll(s, its) case None => None case Some(t) => Follow(t, it.typ)
  {
    assert Front(its + [it]) == its;
  }

  lemma {:induction false} FollowCons(s: Outline, its: seq<Item>)
    requires its != [] && FollowAll(s, its).Some?
    ensures Follow(s, its[0].typ).Some? && FollowAll(Follow(s, its[0].typ).value, its[1..]) == FollowAll(s, its)
    decreases |its|
  {
    if |its| == 1 {
      assert Front(its) == [] && its[1..] == [];
    } else {
      var f := Front(its);
      FollowCons(s, f);
      assert Front(its[1..]) == f[1..] && Last(its[1..]) == Last(its);
    }
  }

  function Kind(c: Context): Bracket { if c.MapCtx? then InMap else InArray }

  /** The root map, and a context for each open bracket. */
  ghost predicate HasContexts(ctxs: seq<Context>, open: Open)
    decreases open
  {
    match open
    case Root => |ctxs| == 1 && ctxs[0].MapCtx?
    case Within(b, outer) => |ctxs| > 1 && Kind(Last(ctxs)) == b && HasContexts(Front(ctxs), outer)
  }

  /** The parser's stacks have this shape. */
  ghost predicate HasShape(p: State, s: Outline) { HasContexts(p.ctxs, s.open) && |p.keys| == s.keys }

  lemma SameKinds(c: seq<Context>, d: seq<Context>, open: Open)
    requires HasContexts(c, open) && d != [] && Front(d) == Front(c) && Kind(Last(d)) == Kind(Last(c))
    ensures HasContexts(d, open)
  {
  }

  lemma ValuedIsSet(p: State, s: Outline, v: Value)
    requires HasShape(p, s) && Valued(s).Some?
    ensures SetValue(p, v).Ok? && HasShape(SetValue(p, v).value, Valued(s).value)
  {
    var q := SetValue(p, v).value;
    assert Front(q.ctxs) == Front(p.ctxs);
    SameKinds(p.ctxs, q.ctxs, s.open);
  }

  lemma OpenedHasShape(p: State, s: Outline, c: Context)
    requires HasShape(p, s)
    ensures HasShape(p.(ctxs := p.ctxs + [c]), s.(open := Within(Kind(c), s.open)))
  {
    assert Front(p.ctxs + [c]) == p.ctxs;
  }

  lemma ClosedIsSet(p: State, s: Outline)
    requires HasShape(p, s) && s.open.Within? && Valued(s.(open := s.open.outer)).Some?
    ensures |p.ctxs| >= 2
    ensures var r := SetValue(p.(ctxs := Front(p.ctxs)), Last(p.ctxs).Val());
            r.Ok? && HasShape(r.value, Valued(s.(open := s.open.outer)).value)
  {
    ValuedIsSet(p.(ctxs := Front(p.ctxs)), s.(open := s.open.outer), Last(p.ctxs).Val());
  }

  /** Where the shape can follow the item, the parser does not panic, and keeps the shape. */
  lemma ParserFollows(env: Env, p: State, s: Outline, it: Item)
    requires HasShape(p, s) && Follow(s, it.typ).Some?
    ensures Process(env, p, it) != Err(Panic)
    ensures Process(env, p, it).Ok? ==> HasShape(Process(env, p, it).value, Follow(s, it.typ).value)
  {
    hide HasContexts, SetValue, Scalar, Valued;
    if it.typ == ItemArrayEnd || it.typ == ItemMapEnd {
      ClosedIsSet(p, s);
    } else if it.typ == ItemArrayStart {
      OpenedHasShape(p, s, ArrCtx([]));
    } else if it.typ == ItemMapStart {
      OpenedHasShape(p, s, MapCtx(map[]));
    } else if IsScalar(it.typ) && Scalar(env, it).Some? {
      ValuedIsSet(p, s, Scalar(env, it).value);
    }
  }

  // ----- the lexer's states -----

  /** The state functions, by what they stand in: the top, a key of the top, a value, an array,
      a map before and after its key, a comment. */
  datatype TopState = Top | TopValueEnd

  datatype KeyState = KeyStart | DubQuotedKey | QuotedKey | PlainKey

  datatype ValueState =
    | KeyEnd | AnyValue | QuotedString | DubQuotedString | PlainString | Block | StringEscape | StringBinary
    | NumberOrDateStart | NumberOrDate | DateAfterYear | NumberStart | Number | FloatStart | FloatRest

  datatype ArrayState = ArrayValue | ArrayValueEnd | ArrayEnd

  datatype MapState = MapKeyStart | MapQuotedKey | MapDubQuotedKey | MapKey | MapValueEnd | MapEnd

  datatype KeyedState = MapKeyEnd | MapValue

  datatype CommentState = CommentStart | Comment

  datatype LexState =
    | Done | OfTop(t: TopState) | OfKey(k: KeyState) | OfValue(v: ValueState) | OfArray(a: ArrayState)
    | OfMap(m: MapState) | OfKeyed(d: KeyedState) | OfComment(c: CommentState) | Skip(next: LexState)

  datatype Place = Nowhere | AtTop | AtKey | AtValue | AtArray | AtMap | AtMapKeyed | AtComment

  function PlaceOf(s: LexState): Place {
    match s
    case Done => Nowhere
    case OfTop(_) => AtTop
    case OfKey(_) => AtKey
    case OfValue(_) => AtValue
    case OfArray(_) => AtArray
    case OfMap(_) => AtMap
    case OfKeyed(_) => AtMapKeyed
    case OfComment(_) => AtComment
    case Skip(n) => PlaceOf(n)
  }

  lemma SkipsSomewhere(s: LexState)
    ensures s.Skip? && !s.next.Skip? && !s.next.Done? ==> !PlaceOf(s).Nowhere?
  {
  }

  /** What comes behind a value in a bracket. */
  function ContOf(b: Bracket): LexState { if b.InArray? then OfArray(ArrayValueEnd) else OfMap(MapValueEnd) }

  /** The continuations a value inside all these brackets has behind it: the stack mirrors what
      is open. */
  function Conts(open: Open): seq<LexState> {
    match open
    case Root => [OfTop(TopValueEnd)]
    case Within(b, outer) => Conts(outer) + [ContOf(b)]
  }

  /** The keys that wait while a value inside all these brackets is read: one at the top, and one
      for each map. */
  function Waiting(open: Open): nat {
    match open case Root => 1 case Within(b, outer) => Waiting(outer) + if b.InMap? then 1 else 0
  }

  /** The states a comment can return to. */
  predicate Returns(s: LexState) { s.OfTop? || s.OfArray? || s.OfMap? }

  /** What must hold at a level, when `o` keys have been left without a value. */
  ghost predicate FitsAt(l: Place, stack: seq<LexState>, s: Outline, o: nat) {
    match l
    case Nowhere => true
    case AtTop => stack == [] && s.open.Root? && s.keys == o
    case AtKey => stack == Conts(s.open) && s.open.Root? && s.keys == o
    case AtValue => stack == Conts(s.open) && s.keys == Waiting(s.open) + o
    case AtArray => s.open.Within? && s.open.b.InArray? && stack == Conts(s.open.outer)
        && s.keys == Waiting(s.open.outer) + o
    case AtMap => s.open.Within? && s.open.b.InMap? && stack == Conts(s.open.outer)
        && s.keys == Waiting(s.open.outer) + o
    case AtMapKeyed => s.open.Within? && s.open.b.InMap? && stack == Conts(s.open.outer)
        && s.keys == Waiting(s.open) + o
    case AtComment => false
  }

  /** In a comment: the state to return to is on the stack, and fits without it. */
  ghost predicate FitsBehind(l: Place, stack: seq<LexState>, s: Outline, o: nat) {
    stack != [] && Returns(Last(stack)) && PlaceOf(Last(stack)) == l && FitsAt(l, Front(stack), s, o) && !l.Nowhere?
  }

  /** After these items nothing more is asked of the lexer. */
  predicate Final(typ: ItemType) { typ.ItemEOF? || typ.ItemError? }

  /** The channel: its items lead from the shape seen by the parser to that of the lexer.  When
      all is `over`, the last item of all is in it, unless the parser has it; it is no error
      only if nothing is open. */
  ghost predicate Kept(seen: Outline, items: seq<Item>, s: Outline, over: bool, ended: bool, o: nat) {
    && FollowAll(seen, items) == Some(s)
    && (over ==> ended || (items != [] && Final(Last(items).typ)
                           && (Last(items).typ == ItemEOF ==> s.open.Root? && s.keys == o)))
    && (forall k :: 0 <= k < |items| ==> Final(items[k].typ) ==> over && k == |items| - 1)
  }

  lemma KeptAfterEmit(seen: Outline, items: seq<Item>, s: Outline, ended: bool, it: Item, t: Outline, o: nat)
    requires Kept(seen, items, s, false, ended, o) && Follow(s, it.typ) == Some(t)
             && (it.typ == ItemEOF ==> s.open.Root? && s.keys == o)
    ensures Kept(seen, items + [it], t, Final(it.typ), ended, o)
  {
    FollowSnoc(seen, items, it);
    assert Last(items + [it]) == it;
  }

  lemma KeptAfterTake(seen: Outline, items: seq<Item>, s: Outline, over: bool, o: nat) returns (t: Outline)
    requires Kept(seen, items, s, over, false, o) && items != []
    ensures Follow(seen, items[0].typ) == Some(t)
    ensures Kept(t, items[1..], s, over, Final(items[0].typ), o)
    ensures items[0].typ == ItemEOF ==> t.open.Root? && t.keys == o && items[1..] == [] && over
  {
    FollowCons(seen, items);
    t := Follow(seen, items[0].typ).value;
    if Final(items[0].typ) {
      assert items[1..] == [];
    } else if over {
      assert Last(items[1..]) == Last(items);
    }
  }

  lemma KeptWithOrphan(seen: Outline, items: seq<Item>, s: Outline, ended: bool, o: nat)
    requires Kept(seen, items, s, false, ended, o)
    ensures Kept(seen, items, s, false, ended, o + 1)
  {
  }

  // ----- the lines -----

  function NewlinesBefore(input: Bytes, pos: nat): nat
    requires pos <= |input|
  {
    if pos == 0 then 0 else NewlinesBefore(input, pos - 1) + if input[pos - 1] == '\n' then 1 else 0
  }

  /** The line is one more than the newlines before the position. */
  ghost predicate OnLine(input: Bytes, pos: nat, line: int) {
    pos <= |input| && line == 1 + NewlinesBefore(input, pos)
  }

  lemma OnLineStep(input: Bytes, pos: nat, line: int)
    requires pos < |input|
    ensures OnLine(input, pos, line) <==> OnLine(input, pos + 1, if input[pos] == '\n' then line + 1 else line)
  {
  }

  // ----- the lexer between two steps -----

  /** The fields of the lexer, its ghost fields among them. */
  datatype Core = Core(start: nat, pos: nat, line: int, stack: seq<LexState>, items: seq<Item>,
                       seen: Outline, shape: Outline, over: bool, ended: bool, level: Place, orphans: nat)

  ghost predicate Sound(input: Bytes, c: Core) {
    && c.start <= c.pos && OnLine(input, c.pos, c.line) && Kept(c.seen, c.items, c.shape, c.over, c.ended, c.orphans)
    && (c.over <==> c.level.Nowhere?)
  }

  /** At level `l`, between two steps or within one. */
  ghost predicate HereAt(input: Bytes, c: Core, l: Place) {
    Sound(input, c) && c.level == l && FitsAt(l, c.stack, c.shape, c.orphans)
  }

  /** In a comment within level `l`. */
  ghost predicate CommentAt(input: Bytes, c: Core, l: Place) {
    Sound(input, c) && c.level == l && FitsBehind(l, c.stack, c.shape, c.orphans)
  }

  /** Ready for the state `s`; a block begins behind its parenthesis. */
  ghost predicate ReadyFor(input: Bytes, c: Core, s: LexState) {
    && (if s.OfComment? then CommentAt(input, c, c.level) else HereAt(input, c, PlaceOf(s)))
    && (s == OfValue(Block) ==> BehindParenthesis(input, c.start))
    && (s.Skip? ==> !s.next.Skip? && !s.next.Done? && !s.next.OfComment? && s.next != OfValue(Block))
  }

  predicate BehindParenthesis(input: Bytes, start: nat) { 0 < start <= |input| && input[start - 1] == '(' }

  lemma NowhereFits(stack: seq<LexState>, s: Outline, o: nat)
    ensures FitsAt(Nowhere, stack, s, o)
  {
  }

  lemma TopIsRoot(stack: seq<LexState>, s: Outline, o: nat)
    requires FitsAt(AtTop, stack, s, o)
    ensures s.open.Root? && s.keys == o
  {
  }

  // ----- the moves -----

  /** On returning, the state on top of the stack fits. */
  ghost predicate CanReturn(stack: seq<LexState>, s: Outline, o: nat) {
    stack != [] && Returns(Last(stack)) && FitsAt(PlaceOf(Last(stack)), Front(stack), s, o)
  }

  lemma ContsPop(open: Open)
    ensures Conts(open) != []
    ensures open.Root? ==> Last(Conts(open)) == OfTop(TopValueEnd) && Front(Conts(open)) == []
    ensures open.Within? ==> Last(Conts(open)) == ContOf(open.b)
    ensures open.Within? ==> Front(Conts(open)) == Conts(open.outer)
  {
  }

  /** A value complete: the parser has a key for it if it needs one, the stack is not empty, and
      the state on top of it fits what is open then. */
  lemma ValueEnds(stack: seq<LexState>, s: Outline, o: nat) returns (t: Outline)
    requires stack == Conts(s.open) && s.keys == Waiting(s.open) + o
    ensures Valued(s) == Some(t) && CanReturn(stack, t, o)
  {
    ContsPop(s.open);
    if s.open.Root? {
      t := s.(keys := s.keys - 1);
      assert PlaceOf(Last(stack)) == AtTop;
    } else if s.open.b.InArray? {
      t := s;
      assert PlaceOf(Last(stack)) == AtArray;
    } else {
      t := s.(keys := s.keys - 1);
      assert PlaceOf(Last(stack)) == AtMap;
    }
  }

  lemma ScalarEnds(stack: seq<LexState>, s: Outline, o: nat, typ: ItemType) returns (t: Outline)
    requires FitsAt(AtValue, stack, s, o) && IsScalar(typ)
    ensures Follow(s, typ) == Some(t) && CanReturn(stack, t, o)
  {
    t := ValueEnds(stack, s, o);
  }

  /** A bracket closed is a value complete. */
  lemma BracketEnds(isArray: bool, stack: seq<LexState>, s: Outline, o: nat) returns (t: Outline)
    requires FitsAt(if isArray then AtArray else AtMap, stack, s, o)
    ensures Follow(s, if isArray then ItemArrayEnd else ItemMapEnd) == Some(t) && CanReturn(stack, t, o)
  {
    t := ValueEnds(stack, s.(open := s.open.outer), o);
  }

  /** A bracket opened. */
  lemma BracketStarts(isArray: bool, stack: seq<LexState>, s: Outline, o: nat) returns (t: Outline)
    requires FitsAt(AtValue, stack, s, o)
    ensures Follow(s, if isArray then ItemArrayStart else ItemMapStart) == Some(t)
    ensures FitsAt(if isArray then AtArray else AtMap, stack, t, o)
  {
    t := s.(open := Within(if isArray then InArray else InMap, s.open));
  }

  /** Comments, their text and the end leave the shape as it is. */
  lemma PlainFollows(s: Outline, typ: ItemType)
    requires typ == ItemCommentStart || typ == ItemText || typ == ItemEOF || typ == ItemError
    ensures Follow(s, typ) == Some(s)
  {
  }

  /** On to a value inside a bracket: its continuation is pushed. */
  lemma InnerValueStarts(isArray: bool, stack: seq<LexState>, s: Outline, o: nat)
    requires FitsAt(if isArray then AtArray else AtMapKeyed, stack, s, o)
    ensures FitsAt(AtValue, stack + [ContOf(if isArray then InArray else InMap)], s, o)
  {
    assert s.open == Within(s.open.b, s.open.outer);
  }

  lemma TopValueStarts(stack: seq<LexState>, s: Outline, o: nat)
    requires FitsAt(AtTop, stack, s, o)
    ensures FitsAt(AtKey, stack + [OfTop(TopValueEnd)], s, o)
  {
  }

  lemma CommentStarts(back: LexState, l: Place, stack: seq<LexState>, s: Outline, o: nat)
    requires Returns(back) && PlaceOf(back) == l && FitsAt(l, stack, s, o)
    ensures FitsBehind(l, stack + [back], s, o)
  {
    assert Front(stack + [back]) == stack;
  }

  lemma CommentEnds(l: Place, stack: seq<LexState>, s: Outline, o: nat)
    requires FitsBehind(l, stack, s, o)
    ensures CanReturn(stack, s, o)
  {
  }

  /** A key complete, at the top or in a map. */
  lemma KeyEnds(top: bool, stack: seq<LexState>, s: Outline, o: nat) returns (t: Outline)
    requires FitsAt(if top then AtKey else AtMap, stack, s, o)
    ensures Follow(s, ItemKey) == Some(t) && FitsAt(if top then AtValue else AtMapKeyed, stack, t, o)
  {
    t := s.(keys := s.keys + 1);
  }

  /** A key without a value stays pending. */
  lemma KeyWithoutValue(stack: seq<LexState>, s: Outline, o: nat)
    requires FitsAt(AtMapKeyed, stack, s, o)
    ensures FitsAt(AtMap, stack, s, o + 1)
  {
  }
}
