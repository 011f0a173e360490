/** The lexer of conf/lex.go: a state machine with a stack of continuations, over bytes. */
module Lexer {
  import opened Base
  import opened ConfParser
  import opened LexShape
  import opened LexSteps
  import opened Flaws
  import opened LexStops

  class Lexer {
    const input: Bytes
    var start: nat
    var pos: nat
    var width: nat
    var line: int
    var state: LexState
    var stack: seq<LexState>
    var items: seq<Item>            // emitted and not yet taken
    ghost var seen: Outline           // what the items taken have left open
    ghost var shape: Outline          // what the items emitted have left open
    ghost var over: bool            // the last item of all is emitted
    ghost var ended: bool           // and taken
    ghost var level: Place          // what the state stands in
    ghost var taken: seq<Item>      // the items taken
    ghost var steps: nat            // the calls of state functions
    ghost var orphans: nat          // the map keys left without a value

    constructor (input: Bytes)
      ensures this.input == input && seen == Outline(Root, 0) && !ended && At(state)
      ensures Tracked() && taken == [] && steps == 0
    {
      this.input := input;
      start, pos, width, line := 0, 0, 0, 1;
      state, stack, items := OfTop(Top), [], [];
      seen, shape, over, ended, level := Outline(Root, 0), Outline(Root, 0), false, false, AtTop;
      taken, steps, orphans := [], 0, 0;
    }

    ghost predicate InInput()
      reads this`pos, this`line
    {
      OnLine(input, pos, line)
    }

    ghost predicate Counted()
      reads this`seen, this`items, this`shape, this`over, this`ended, this`orphans
    {
      Kept(seen, items, shape, over, ended, orphans)
    }

    ghost function Fields(): Core
      reads this
    {
      Core(start, pos, line, stack, items, seen, shape, over, ended, level, orphans)
    }

    /** The lexer as the state functions of LexSteps see it. */
    ghost function Now(s: LexState): Lx
      reads this`start, this`pos, this`stack, this`items
    {
      Lx(s, start, pos, stack, items)
    }

    /** The lexer is where its state functions lead, and has not stepped on at the end. */
    ghost predicate Tracked()
      reads this`state, this`start, this`pos, this`stack, this`items, this`taken, this`steps, this`orphans
    {
      && Lex(input, LEX_START, steps) == Behind(Now(state), taken)
      && (steps > 0 ==> !Lex(input, LEX_START, steps - 1).state.Done?)
      && orphans == Orphans(input, LEX_START, steps)
    }

    ghost predicate Here(l: Place)
      reads this
    {
      HereAt(input, Fields(), l)
    }

    ghost predicate InComment(l: Place)
      reads this
    {
      CommentAt(input, Fields(), l)
    }

    /** Ready for the state `s`. */
    ghost predicate At(s: LexState)
      reads this
    {
      ReadyFor(input, Fields(), s)
    }

    /** What being ready says: where the lexer is, and that it has a state to return to wherever
        it will pop one. */
    lemma Discipline(s: LexState)
      requires At(s)
      ensures start <= pos <= |input| && line == 1 + NewlinesBefore(input, pos)
      ensures s.OfValue? ==> stack == Conts(shape.open) && stack != [] && shape.keys == Waiting(shape.open) + orphans
      ensures s.OfArray? ==>
                shape.open.Within? && shape.open.b.InArray? && stack == Conts(shape.open.outer) && stack != []
      ensures s.OfMap? ==> shape.open.Within? && shape.open.b.InMap? && stack == Conts(shape.open.outer) && stack != []
      ensures s.OfTop? ==> stack == [] && shape.open.Root?
      ensures s.OfComment? ==> stack != []
    {
      if s.OfValue? { ContsPop(shape.open); }
      if s.OfArray? || s.OfMap? { ContsPop(shape.open.outer); }
    }

    // ----- the primitives -----

    method Next() returns (r: char)
      requires InInput()
      modifies this`pos, this`width, this`line
      ensures InInput()
      ensures r == Rune(input, old(pos)) && pos == Beyond(input, old(pos)) == old(pos) + width && width <= 1
    {
      if pos >= |input| {
        width := 0;
        return EOF;
      }
      OnLineStep(input, pos, line);
      if input[pos] == '\n' {
        line := line + 1;
      }
      r, width := input[pos], 1;
      pos := pos + width;
    }

    /** backup, after a next; twice only in a block. */
    method Backup()
      requires InInput() && width <= 1 && width <= pos && (width == 0 ==> pos == |input|)
      modifies this`pos, this`line
      ensures InInput() && pos == old(pos) - width
    {
      ghost var was := line;
      pos := pos - width;
      if pos < |input| && input[pos] == '\n' {
        line := line - 1;
      }
      if width == 1 { OnLineStep(input, pos, line); }
    }

    method Peek() returns (r: char)
      requires InInput()
      modifies this`pos, this`width, this`line
      ensures InInput() && pos == old(pos)
      ensures r == Rune(input, pos) && width == if pos < |input| then 1 else 0
    {
      r := Next();
      Backup();
    }

    method Ignore()
      modifies this`start
      ensures start == pos
    {
      start := pos;
    }

    method Emit(typ: ItemType, ghost next: Outline)
      requires start <= pos && InInput() && Counted() && !over && Follow(shape, typ) == Some(next) && typ != ItemEOF
      modifies this`items, this`start, this`shape, this`over
      ensures start == pos && Counted() && shape == next && over == Final(typ)
      ensures Now(Done) == Emitted(input, old(Now(Done)), typ)
    {
      hide FitsAt, Kept, Follow, NewlinesBefore;
      var it := Item(typ, input[start..pos], line);
      KeptAfterEmit(seen, items, shape, ended, it, next, orphans);
      items := items + [it];
      shape := next;
      over := Final(typ);
      start := pos;
    }

    /** Emit, for an item that leaves the shape as it is. */
    method EmitPlain(typ: ItemType)
      requires start <= pos && InInput() && Counted() && !over
      requires typ == ItemCommentStart || typ == ItemText
               || (typ == ItemEOF && shape.open.Root? && shape.keys == orphans)
      modifies this`items, this`start, this`over
      ensures start == pos && Counted() && over == Final(typ)
      ensures Now(Done) == Emitted(input, old(Now(Done)), typ)
    {
      hide FitsAt, Kept, Follow, NewlinesBefore;
      var it := Item(typ, input[start..pos], line);
      PlainFollows(shape, typ);
      KeptAfterEmit(seen, items, shape, ended, it, shape, orphans);
      items := items + [it];
      over := Final(typ);
      start := pos;
    }

    method Push(s: LexState)
      modifies this`stack
      ensures stack == old(stack) + [s]
    {
      stack := stack + [s];
    }

    /** pop; that it finds no state on an empty stack is an error of the lexer itself. */
    method Pop() returns (s: LexState)
      requires start <= pos && InInput() && Counted() && !over
      modifies this`stack, this`items, this`over, this`level
      ensures Counted() && s == if old(stack) == [] then Done else Last(old(stack))
      ensures old(stack) != [] ==> stack == Front(old(stack)) && items == old(items) && !over
      ensures old(stack) == [] ==> stack == [] && over
      ensures Now(s) == Popped(input, old(Now(Done)))
    {
      if |stack| == 0 {
        s := Errorf();
        return;
      }
      var li := |stack| - 1;
      s := stack[li];
      stack := stack[..li];
    }

    /** errorf, without the words of the message. */
    method Errorf() returns (s: LexState)
      requires start <= pos && InInput() && Counted() && !over
      modifies this`items, this`over, this`level
      ensures s == Done && At(Done) && Now(Done) == Erred(input, old(Now(Done)))
    {
      hide FitsAt, Kept, Follow, NewlinesBefore;
      var it := Item(ItemError, [], line);
      PlainFollows(shape, ItemError);
      KeptAfterEmit(seen, items, shape, ended, it, shape, orphans);
      items := items + [it];
      over, level := true, Nowhere;
      NowhereFits(stack, shape, orphans);
      s := Done;
    }

    /** The state on top of the stack. */
    method Return(ghost from: LexState) returns (s: LexState)
      requires start <= pos && InInput() && Counted() && !over && CanReturn(stack, shape, orphans)
      modifies this`stack, this`items, this`over, this`level
      ensures At(s) && Now(s) == Popped(input, old(Now(from)))
    {
      hide FitsAt, Kept, Follow, NewlinesBefore;
      s := Pop();
      level := PlaceOf(s);
    }

    /** A scalar is complete. */
    method Finish(typ: ItemType, ghost from: LexState)
      requires Here(AtValue) && IsScalar(typ)
      modifies this`items, this`start, this`shape, this`over
      ensures start == pos && InInput() && Counted() && !over && CanReturn(stack, shape, orphans)
      ensures Now(from) == Emitted(input, old(Now(from)), typ)
    {
      hide FitsAt, Kept, Follow, NewlinesBefore;
      ghost var next := ScalarEnds(stack, shape, orphans, typ);
      Emit(typ, next);
    }

    /** A scalar is complete: emit it and return to what comes behind a value; after a closing
        quote, past that. */
    method EndScalar(typ: ItemType, quoted: bool, ghost from: LexState) returns (s: LexState)
      requires Here(AtValue) && IsScalar(typ)
      modifies this`start, this`pos, this`width, this`line, this`stack, this`items, this`shape, this`over, this`level
      ensures At(s) && Now(s) == Ended(input, old(Now(from)), typ, quoted)
    {
      hide FitsAt, Kept, Follow, NewlinesBefore, Emitted, Popped;
      Finish(typ, from);
      if quoted {
        var _ := Next();
        Ignore();
      }
      s := Return(from);
    }

    /** A comment, if `r` and what follows begin one; `back` comes after it. */
    method TryComment(r: char, back: LexState, ghost l: Place) returns (s: Option<LexState>)
      requires Here(l) && PlaceOf(back) == l && Returns(back) && (r == '/' ==> start < pos)
      modifies this`pos, this`width, this`line, this`stack
      ensures s.Some? <==> IsComment(input, r, old(pos))
      ensures s.Some? ==> InComment(l) && Now(s.value) == CommentOn(input, r, old(Now(s.value)), back)
      ensures s.None? ==> Here(l) && Now(Done) == old(Now(Done)) && (r != '/' ==> width == old(width))
    {
      hide FitsAt, Kept, Follow, NewlinesBefore;
      var comment := r == '#';
      if r == '/' {
        comment := Slash();
      }
      if !comment {
        return None;
      }
      CommentStarts(back, l, stack, shape, orphans);
      Push(back);
      s := Some(OfComment(CommentStart));
    }

    /** After a slash: the second one, or the position is as it was. */
    method Slash() returns (comment: bool)
      requires InInput() && start < pos
      modifies this`pos, this`width, this`line
      ensures InInput() && start < pos && comment == (Rune(input, old(pos)) == '/')
      ensures pos == if comment then Beyond(input, old(pos)) else old(pos)
    {
      var rn := Next();
      comment := rn == '/';
      if !comment {
        Backup();
      }
    }

    /** One more byte, and on. */
    method Step(s: LexState)
      requires Here(PlaceOf(s)) && !s.Done? && !s.OfComment? && s != OfValue(Block)
      requires s.Skip? ==> !s.next.Skip? && !s.next.Done? && !s.next.OfComment? && s.next != OfValue(Block)
      modifies this`pos, this`width, this`line
      ensures At(s) && Now(s) == Past(input, old(Now(s)))
    {
      hide FitsAt, Kept, Follow, NewlinesBefore;
      var _ := Next();
    }

    // ----- the top -----

    method LexTop() returns (s: LexState)
      requires At(OfTop(Top))
      modifies this`start, this`pos, this`width, this`line, this`stack, this`items, this`shape, this`over, this`level
      ensures At(s) && Now(s) == TopStep(input, old(Now(OfTop(Top))))
    {
      hide FitsAt, Kept, Follow, NewlinesBefore;
      var r := Next();
      if IsWhitespace(r) || IsNL(r) {
        return Skip(OfTop(Top));
      }
      var comment := TryComment(r, OfTop(Top), AtTop);
      if comment.Some? {
        return comment.value;
      }
      if r == '/' || r == EOF {
        s := TopEnds();
        return;
      }
      // only a key can come
      Backup();
      s := TopKey();
    }

    /** The end of the input, or a slash, or a zero byte. */
    method TopEnds() returns (s: LexState)
      requires Here(AtTop)
      modifies this`start, this`pos, this`width, this`line, this`stack, this`items, this`shape, this`over, this`level
      ensures At(s) && Now(s) == old(if pos > start then Erred(input, Now(OfTop(Top)))
                                     else Emitted(input, Now(OfTop(Top)), ItemEOF).(state := Done))
    {
      hide FitsAt, Kept, Follow, NewlinesBefore;
      if pos > start {
        s := Errorf();
        return;
      }
      TopIsRoot(stack, shape, orphans);
      EmitPlain(ItemEOF);
      NowhereFits(stack, shape, orphans);
      level := Nowhere;
      s := Done;
    }

    method TopKey() returns (s: LexState)
      requires Here(AtTop)
      modifies this`stack, this`level
      ensures At(s) && Now(s) == old(Now(OfKey(KeyStart))).(stack := old(stack) + [OfTop(TopValueEnd)])
    {
      hide FitsAt, Kept, Follow, NewlinesBefore;
      TopValueStarts(stack, shape, orphans);
      Push(OfTop(TopValueEnd));
      level := AtKey;
      s := OfKey(KeyStart);
    }

    method LexTopValueEnd() returns (s: LexState)
      requires At(OfTop(TopValueEnd))
      modifies this`start, this`pos, this`width, this`line, this`stack, this`items, this`shape, this`over, this`level
      ensures At(s) && Now(s) == TopValueEndStep(input, old(Now(OfTop(TopValueEnd))))
    {
      hide FitsAt, Kept, Follow, NewlinesBefore;
      var r := Next();
      var comment := TryComment(r, OfTop(Top), AtTop);
      if comment.Some? {
        return comment.value;
      }
      if r == '/' || IsWhitespace(r) {
        return OfTop(TopValueEnd);
      }
      if IsNL(r) || r == EOF || r == ';' {
        Ignore();
        return OfTop(Top);
      }
      s := Errorf();
    }

    // ----- keys: at the top, and in maps -----

    method LexKeyStart() returns (s: LexState)
      requires At(OfKey(KeyStart))
      modifies this`start, this`pos, this`width, this`line, this`stack, this`items, this`shape, this`over, this`level
      ensures At(s) && Now(s) == KeyStartStep(input, old(Now(OfKey(KeyStart))))
    {
      hide FitsAt, Kept, Follow, NewlinesBefore;
      var r := Peek();
      if IsKeySeparator(r) {
        s := Errorf();
        return;
      }
      s := if IsWhitespace(r) || IsNL(r) then Skip(OfKey(KeyStart))
           else if r == '"' then Skip(OfKey(DubQuotedKey))
           else if r == '\'' then Skip(OfKey(QuotedKey))
           else OfKey(PlainKey);
      if s == OfKey(PlainKey) {
        Ignore();
      }
      Step(s);
    }

    /** The key is complete, at the top or in a map. */
    method EndKey(top: bool) returns (s: LexState)
      requires Here(if top then AtKey else AtMap)
      modifies this`items, this`start, this`shape, this`over, this`level
      ensures At(s) && Now(s) == Emitted(input, old(Now(Done)), ItemKey).(state := AfterKey(top))
    {
      hide FitsAt, Kept, Follow, NewlinesBefore;
      ghost var next := KeyEnds(top, stack, shape, orphans);
      Emit(ItemKey, next);
      level := if top then AtValue else AtMapKeyed;
      s := if top then OfValue(KeyEnd) else OfKeyed(MapKeyEnd);
    }

    /** lexDubQuotedKey, lexQuotedKey and their twins in maps: `here`, up to the quote. */
    method LexQuotedKey(here: LexState, quote: char) returns (s: LexState)
      requires here == OfKey(DubQuotedKey) || here == OfKey(QuotedKey) || here == OfMap(MapQuotedKey)
               || here == OfMap(MapDubQuotedKey)
      requires At(here)
      modifies this`start, this`pos, this`width, this`line, this`stack, this`items, this`shape, this`over, this`level
      ensures At(s) && Now(s) == QuotedKeyStep(input, old(Now(here)), quote)
    {
      hide FitsAt, Kept, Follow, NewlinesBefore;
      var r := Peek();
      s := here;
      if r == quote {
        var end := EndKey(here.OfKey?);
        s := Skip(end);
      }
      Step(s);
    }

    /** lexKey and lexMapKey. */
    method LexPlainKey(here: LexState) returns (s: LexState)
      requires here == OfKey(PlainKey) || here == OfMap(MapKey)
      requires At(here)
      modifies this`start, this`pos, this`width, this`line, this`stack, this`items, this`shape, this`over, this`level
      ensures At(s) && Now(s) == PlainKeyStep(input, old(Now(here)))
    {
      hide FitsAt, Kept, Follow, NewlinesBefore;
      var r := Peek();
      if IsWhitespace(r) || IsNL(r) || IsKeySeparator(r) {
        s := EndKey(here.OfKey?);
        return;
      }
      s := here;
      Step(s);
    }

    /** lexKeyEnd and lexMapKeyEnd. */
    method LexKeyEnd(here: LexState) returns (s: LexState)
      requires here == OfValue(KeyEnd) || here == OfKeyed(MapKeyEnd)
      requires At(here)
      modifies this`start, this`pos, this`width, this`line, this`stack, this`items, this`shape, this`over, this`level
      ensures At(s) && Now(s) == KeyEndStep(input, old(Now(here)))
    {
      hide FitsAt, Kept, Follow, NewlinesBefore;
      var value := if here == OfValue(KeyEnd) then OfValue(AnyValue) else OfKeyed(MapValue);
      var r := Next();
      s := if IsWhitespace(r) || IsNL(r) then Skip(here) else if IsKeySeparator(r) then Skip(value) else value;
      if s == value {
        Backup();
      }
    }

    // ----- values -----

    method LexValue() returns (s: LexState)
      requires At(OfValue(AnyValue))
      modifies this`start, this`pos, this`width, this`line, this`stack, this`items, this`shape, this`over, this`level
      ensures At(s) && Now(s) == ValueStep(input, old(Now(OfValue(AnyValue))))
    {
      hide FitsAt, Kept, Follow, NewlinesBefore;
      var r := Next();
      if IsWhitespace(r) {
        return Skip(OfValue(AnyValue));
      }
      if r == '[' || r == '{' {
        s := OpenBracket(r == '[');
        return;
      }
      if r == '.' || IsNL(r) {
        s := Errorf();
        return;
      }
      s := ScalarStart(r);
      if r == '\'' || r == '"' || r == '(' {
        Ignore();
      } else if s == OfValue(NumberOrDateStart) || s == OfValue(PlainString) {
        Backup();
      }
    }

    /** The state for a scalar that starts with `r`. */
    function ScalarStart(r: char): LexState {
      if r == '\'' then OfValue(QuotedString)
      else if r == '"' then OfValue(DubQuotedString)
      else if r == '-' then OfValue(NumberStart)
      else if r == '(' then OfValue(Block)
      else if IsDigit(r) then OfValue(NumberOrDateStart)
      else OfValue(PlainString)
    }

    method OpenBracket(isArray: bool) returns (s: LexState)
      requires Here(AtValue)
      modifies this`start, this`pos, this`width, this`line, this`stack, this`items, this`shape, this`over, this`level
      ensures At(s) && Now(s)
              == Emitted(input, old(Now(Done)).(start := old(pos)), if isArray then ItemArrayStart else ItemMapStart).(
                                   state := if isArray then OfArray(ArrayValue) else OfMap(MapKeyStart))
    {
      hide FitsAt, Kept, Follow, NewlinesBefore;
      Ignore();
      ghost var next := BracketStarts(isArray, stack, shape, orphans);
      Emit(if isArray then ItemArrayStart else ItemMapStart, next);
      level := if isArray then AtArray else AtMap;
      s := if isArray then OfArray(ArrayValue) else OfMap(MapKeyStart);
    }

    /** A value inside a bracket: what comes behind it is pushed. */
    method InnerValue(isArray: bool) returns (s: LexState)
      requires Here(if isArray then AtArray else AtMapKeyed)
      modifies this`stack, this`level
      ensures At(s) && Now(s) == Inner(old(Now(Done)), if isArray then OfArray(ArrayValueEnd) else OfMap(MapValueEnd))
    {
      hide FitsAt, Kept, Follow, NewlinesBefore;
      InnerValueStarts(isArray, stack, shape, orphans);
      Push(if isArray then OfArray(ArrayValueEnd) else OfMap(MapValueEnd));
      level := AtValue;
      s := OfValue(AnyValue);
    }

    method LexArrayValue() returns (s: LexState)
      requires At(OfArray(ArrayValue))
      modifies this`start, this`pos, this`width, this`line, this`stack, this`items, this`shape, this`over, this`level
      ensures At(s) && Now(s) == ArrayValueStep(input, old(Now(OfArray(ArrayValue))))
    {
      hide FitsAt, Kept, Follow, NewlinesBefore;
      var r := Next();
      if IsWhitespace(r) || IsNL(r) {
        return Skip(OfArray(ArrayValue));
      }
      var comment := TryComment(r, OfArray(ArrayValue), AtArray);
      if comment.Some? {
        return comment.value;
      }
      if r == '/' || r == ',' {
        s := Errorf();
        return;
      }
      if r == ']' {
        return OfArray(ArrayEnd);
      }
      Backup();
      s := InnerValue(true);
    }

    method LexArrayValueEnd() returns (s: LexState)
      requires At(OfArray(ArrayValueEnd))
      modifies this`start, this`pos, this`width, this`line, this`stack, this`items, this`shape, this`over, this`level
      ensures At(s) && Now(s) == ArrayValueEndStep(input, old(Now(OfArray(ArrayValueEnd))))
    {
      hide FitsAt, Kept, Follow, NewlinesBefore;
      var r := Next();
      if IsWhitespace(r) {
        return Skip(OfArray(ArrayValueEnd));
      }
      var comment := TryComment(r, OfArray(ArrayValueEnd), AtArray);
      if comment.Some? {
        return comment.value;
      }
      if r == '/' || r == ',' || IsNL(r) {
        return Skip(OfArray(ArrayValue));
      }
      if r == ']' {
        return OfArray(ArrayEnd);
      }
      s := Errorf();
    }

    /** lexArrayEnd and lexMapEnd. */
    method LexBracketEnd(here: LexState) returns (s: LexState)
      requires here == OfArray(ArrayEnd) || here == OfMap(MapEnd)
      requires At(here)
      modifies this`start, this`pos, this`width, this`line, this`stack, this`items, this`shape, this`over, this`level
      ensures At(s) && Now(s) == BracketEndStep(input, old(Now(here)))
    {
      hide FitsAt, Kept, Follow, NewlinesBefore;
      Ignore();
      ghost var next := BracketEnds(here == OfArray(ArrayEnd), stack, shape, orphans);
      Emit(if here == OfArray(ArrayEnd) then ItemArrayEnd else ItemMapEnd, next);
      s := Return(Done);
    }

    method LexMapKeyStart() returns (s: LexState)
      requires At(OfMap(MapKeyStart))
      modifies this`start, this`pos, this`width, this`line, this`stack, this`items, this`shape, this`over, this`level
      ensures At(s) && Now(s) == MapKeyStartStep(input, old(Now(OfMap(MapKeyStart))))
    {
      hide FitsAt, Kept, Follow, NewlinesBefore, CanReturn;
      var r := Peek();
      if IsKeySeparator(r) {
        s := Errorf();
        return;
      }
      if r == '#' || r == '/' {
        var _ := Next();
        var comment := TryComment(r, OfMap(MapKeyStart), AtMap);
        if comment.Some? {
          return comment.value;
        }
        Ignore();
        s := OfMap(MapKey);
      } else {
        s := if IsWhitespace(r) || IsNL(r) then Skip(OfMap(MapKeyStart))
             else if r == '}' then Skip(OfMap(MapEnd))
             else if r == '\'' then Skip(OfMap(MapQuotedKey))
             else if r == '"' then Skip(OfMap(MapDubQuotedKey))
             else OfMap(MapKey);
        if s == OfMap(MapKey) {
          Ignore();
        }
      }
      Step(s);
    }

    method LexMapValue() returns (s: LexState)
      requires At(OfKeyed(MapValue))
      modifies this`start, this`pos, this`width, this`line, this`stack, this`items, this`shape, this`over, this`level,
               this`orphans
      ensures orphans == old(orphans) + if Rune(input, old(pos)) == '}' then 1 else 0
      ensures At(s) && Now(s) == MapValueStep(input, old(Now(OfKeyed(MapValue))))
    {
      hide FitsAt, Kept, Follow, NewlinesBefore;
      var r := Next();
      if IsWhitespace(r) || IsNL(r) {
        return Skip(OfKeyed(MapValue));
      }
      if r == ',' {
        s := Errorf();
        return;
      }
      if r == '}' {
        // a key without a value: it stays pending
        KeyWithoutValue(stack, shape, orphans);
        KeptWithOrphan(seen, items, shape, ended, orphans);
        level, orphans := AtMap, orphans + 1;
        return Skip(OfMap(MapEnd));
      }
      Backup();
      s := InnerValue(false);
    }

    method LexMapValueEnd() returns (s: LexState)
      requires At(OfMap(MapValueEnd))
      modifies this`start, this`pos, this`width, this`line, this`stack, this`items, this`shape, this`over, this`level
      ensures At(s) && Now(s) == MapValueEndStep(input, old(Now(OfMap(MapValueEnd))))
    {
      hide FitsAt, Kept, Follow, NewlinesBefore;
      var r := Next();
      if IsWhitespace(r) {
        return Skip(OfMap(MapValueEnd));
      }
      var comment := TryComment(r, OfMap(MapValueEnd), AtMap);
      if comment.Some? {
        return comment.value;
      }
      if r == '/' || r == ';' || r == ',' || IsNL(r) {
        return Skip(OfMap(MapKeyStart));
      }
      if r == '}' {
        return Skip(OfMap(MapEnd));
      }
      s := Errorf();
    }

    // ----- strings -----

    /** lexQuotedString and lexDubQuotedString. */
    method LexQuotedString(here: LexState, quote: char) returns (s: LexState)
      requires here == OfValue(QuotedString) || here == OfValue(DubQuotedString)
      requires At(here) && quote != EOF
      modifies this`start, this`pos, this`width, this`line, this`stack, this`items, this`shape, this`over, this`level
      ensures At(s) && Now(s) == QuotedStringStep(input, old(Now(here)), quote)
    {
      hide FitsAt, Kept, Follow, NewlinesBefore, Ended, IsBoolText;
      var r := Next();
      if r == quote {
        Backup();
        s := EndScalar(ItemString, true, here);
        return;
      }
      s := here;
    }

    method IsBool() returns (b: bool)
      requires start <= pos <= |input|
      ensures b == IsBoolText(Text(input, start, pos))
    {
      var str := input[start..pos];
      b := str == "true" || str == "false" || str == "TRUE" || str == "FALSE";
    }

    method LexString() returns (s: LexState)
      requires At(OfValue(PlainString))
      modifies this`start, this`pos, this`width, this`line, this`stack, this`items, this`shape, this`over, this`level
      ensures At(s) && Now(s) == StringStep(input, old(Now(OfValue(PlainString))))
    {
      hide FitsAt, FitsBehind, Kept, Follow, NewlinesBefore, Ended, IsBoolText, Text;
      var r := Next();
      if r == '\\' {
        return OfValue(StringEscape);
      }
      if IsNL(r) || r == EOF || r == ';' || IsWhitespace(r) {
        Backup();
        var b := IsBool();
        s := EndScalar(if b then ItemBool else ItemString, false, OfValue(PlainString));
        return;
      }
      if r == '\'' {
        Backup();
        s := EndScalar(ItemString, true, OfValue(PlainString));
        return;
      }
      s := OfValue(PlainString);
    }

    /** lexBlock: the block ends at a parenthesis on a line by itself; at the very end of the
        input that parenthesis is taken into the string. */
    method LexBlock() returns (s: LexState)
      requires At(OfValue(Block))
      modifies this`start, this`pos, this`width, this`line, this`stack, this`items, this`shape, this`over, this`level
      ensures At(s) && Now(s) == BlockStep(input, old(Now(OfValue(Block))))
    {
      hide FitsAt, Kept, Follow, NewlinesBefore, Ended;
      s := OfValue(Block);
      var r := Next();
      if r == ')' {
        s := BlockParenthesis();
      }
    }

    /** Behind a parenthesis in a block: is it on a line by itself? */
    method BlockParenthesis() returns (s: LexState)
      requires At(OfValue(Block)) && 2 <= pos <= |input| && input[pos - 1] == ')' && width == 1
      modifies this`start, this`pos, this`width, this`line, this`stack, this`items, this`shape, this`over, this`level
      ensures At(s) && Now(s) == BlockStep(input, old(Now(OfValue(Block)).(pos := pos - 1)))
    {
      hide FitsAt, Kept, Follow, NewlinesBefore, Ended, OnLine;
      s := OfValue(Block);
      Backup();
      Backup();
      var before := Next();
      var _ := Next();
      if before == '\n' {
        s := BlockLineEnd();
      }
    }

    /** Behind a parenthesis that begins a line in a block: does the line end with it? */
    method BlockLineEnd() returns (s: LexState)
      requires At(OfValue(Block)) && 2 <= pos <= |input| && input[pos - 1] == ')' && input[pos - 2] == '\n'
      modifies this`start, this`pos, this`width, this`line, this`stack, this`items, this`shape, this`over, this`level
      ensures At(s) && Now(s) == BlockStep(input, old(Now(OfValue(Block)).(pos := pos - 1)))
    {
      hide FitsAt, Kept, Follow, NewlinesBefore, Ended, OnLine;
      s := OfValue(Block);
      var after := Next();
      if after == '\n' || after == EOF {
        Backup();
        Backup();
        s := EndScalar(ItemString, true, OfValue(Block));
        return;
      }
      Backup();
    }

    method LexStringEscape() returns (s: LexState)
      requires At(OfValue(StringEscape))
      modifies this`start, this`pos, this`width, this`line, this`stack, this`items, this`shape, this`over, this`level
      ensures At(s) && Now(s) == EscapeStep(input, old(Now(OfValue(StringEscape))))
    {
      hide FitsAt, Kept, Follow, NewlinesBefore;
      var r := Next();
      if r == 'x' {
        return OfValue(StringBinary);
      }
      if r == 't' || r == 'n' || r == 'r' || r == '"' || r == '\\' {
        return OfValue(PlainString);
      }
      s := Errorf();
    }

    method LexStringBinary() returns (s: LexState)
      requires At(OfValue(StringBinary))
      modifies this`start, this`pos, this`width, this`line, this`stack, this`items, this`shape, this`over, this`level
      ensures At(s) && Now(s) == BinaryStep(input, old(Now(OfValue(StringBinary))))
    {
      hide FitsAt, Kept, Follow, NewlinesBefore;
      var r := Next();
      if !IsHexadecimal(r) {
        s := Errorf();
        return;
      }
      r := Next();
      if !IsHexadecimal(r) {
        s := Errorf();
        return;
      }
      s := OfValue(PlainString);
    }

    // ----- numbers and dates -----

    /** lexNumberOrDateStart, lexNumberStart and lexFloatStart: a digit has to come. */
    method LexDigit(here: LexState, after: LexState) returns (s: LexState)
      requires here.OfValue? && after.OfValue? && after != OfValue(Block)
      requires At(here)
      modifies this`start, this`pos, this`width, this`line, this`stack, this`items, this`shape, this`over, this`level
      ensures At(s) && Now(s) == DigitStep(input, old(Now(here)), after)
    {
      hide FitsAt, Kept, Follow, NewlinesBefore;
      var r := Next();
      if !IsDigit(r) {
        s := Errorf();
        return;
      }
      s := after;
    }

    method LexNumberOrDate() returns (s: LexState)
      requires At(OfValue(NumberOrDate))
      modifies this`start, this`pos, this`width, this`line, this`stack, this`items, this`shape, this`over, this`level
      ensures At(s) && Now(s) == NumberOrDateStep(input, old(Now(OfValue(NumberOrDate))))
    {
      hide FitsAt, Kept, Follow, NewlinesBefore, Ended, IsBoolText;
      var r := Next();
      if r == '-' {
        if pos - start != 5 {
          s := Errorf();
          return;
        }
        return OfValue(DateAfterYear);
      }
      if IsDigit(r) {
        return OfValue(NumberOrDate);
      }
      if r == '.' {
        return OfValue(FloatStart);
      }
      Backup();
      s := EndScalar(ItemInteger, false, OfValue(NumberOrDate));
    }

    method LexDateAfterYear() returns (s: LexState)
      requires At(OfValue(DateAfterYear))
      modifies this`start, this`pos, this`width, this`line, this`stack, this`items, this`shape, this`over, this`level
      ensures At(s) && Now(s) == DateStep(input, old(Now(OfValue(DateAfterYear))), 0)
    {
      hide FitsAt, Kept, Follow, NewlinesBefore, Ended, IsBoolText;
      for i := 0 to |DATE_FORMAT|
        invariant At(OfValue(DateAfterYear))
        invariant DateStep(input, old(Now(OfValue(DateAfterYear))), 0)
                  == DateStep(input, Now(OfValue(DateAfterYear)), i)
      {
        var f := DATE_FORMAT[i];
        var r := Next();
        if f == '0' {
          if !IsDigit(r) {
            s := Errorf();
            return;
          }
        } else if f != r {
          s := Errorf();
          return;
        }
      }
      s := EndScalar(ItemDatetime, false, OfValue(DateAfterYear));
    }

    method LexNumber() returns (s: LexState)
      requires At(OfValue(Number))
      modifies this`start, this`pos, this`width, this`line, this`stack, this`items, this`shape, this`over, this`level
      ensures At(s) && Now(s) == NumberStep(input, old(Now(OfValue(Number))))
    {
      hide FitsAt, Kept, Follow, NewlinesBefore, Ended, IsBoolText;
      var r := Next();
      if IsDigit(r) {
        return OfValue(Number);
      }
      if r == '.' {
        return OfValue(FloatStart);
      }
      Backup();
      s := EndScalar(ItemInteger, false, OfValue(Number));
    }

    method LexFloat() returns (s: LexState)
      requires At(OfValue(FloatRest))
      modifies this`start, this`pos, this`width, this`line, this`stack, this`items, this`shape, this`over, this`level
      ensures At(s) && Now(s) == FloatStep(input, old(Now(OfValue(FloatRest))))
    {
      hide FitsAt, Kept, Follow, NewlinesBefore, Ended, IsBoolText;
      var r := Next();
      if IsDigit(r) {
        return OfValue(FloatRest);
      }
      Backup();
      s := EndScalar(ItemFloat, false, OfValue(FloatRest));
    }

    // ----- comments -----

    method LexCommentStart() returns (s: LexState)
      requires At(OfComment(CommentStart))
      modifies this`start, this`pos, this`width, this`line, this`stack, this`items, this`shape, this`over, this`level
      ensures At(s) && Now(s) == CommentStartStep(input, old(Now(OfComment(CommentStart))))
    {
      hide FitsAt, Kept, Follow, NewlinesBefore;
      Ignore();
      EmitPlain(ItemCommentStart);
      s := OfComment(Comment);
    }

    method LexComment() returns (s: LexState)
      requires At(OfComment(Comment))
      modifies this`start, this`pos, this`width, this`line, this`stack, this`items, this`shape, this`over, this`level
      ensures At(s) && Now(s) == CommentStep(input, old(Now(OfComment(Comment))))
    {
      hide FitsAt, Kept, Follow, NewlinesBefore;
      var r := Peek();
      if IsNL(r) || r == EOF {
        EmitPlain(ItemText);
        CommentEnds(level, stack, shape, orphans);
        s := Return(Done);
        return;
      }
      var _ := Next();
      s := OfComment(Comment);
    }

    // ----- the loop -----

    method LexSkip(next: LexState) returns (s: LexState)
      requires At(Skip(next))
      modifies this`start
      ensures At(s) && Now(s) == LexStep(input, old(Now(Skip(next))))
    {
      hide FitsAt, Kept, Follow, NewlinesBefore;
      Ignore();
      s := next;
    }

    /** The call of a state function. */
    method Call(st: LexState) returns (s: LexState)
      requires At(st) && !st.Done?
      modifies this`start, this`pos, this`width, this`line, this`stack, this`items, this`shape, this`over, this`level,
               this`orphans
      ensures orphans == old(orphans + if IsOrphan(input, Now(st)) then 1 else 0)
      ensures At(s) && Now(s) == LexStep(input, old(Now(st)))
    {
      hide FitsAt, Kept, Follow, NewlinesBefore;
      match st
      case OfTop(Top) => s := LexTop();
      case OfTop(TopValueEnd) => s := LexTopValueEnd();
      case OfKey(k) => s := CallKey(k);
      case OfValue(v) => s := CallValue(v);
      case OfArray(ArrayValue) => s := LexArrayValue();
      case OfArray(ArrayValueEnd) => s := LexArrayValueEnd();
      case OfArray(ArrayEnd) => s := LexBracketEnd(st);
      case OfMap(m) => s := CallMap(m);
      case OfKeyed(MapKeyEnd) => s := LexKeyEnd(st);
      case OfKeyed(MapValue) => s := LexMapValue();
      case OfComment(CommentStart) => s := LexCommentStart();
      case OfComment(Comment) => s := LexComment();
      case Skip(next) => s := LexSkip(next);
    }

    method CallKey(k: KeyState) returns (s: LexState)
      requires At(OfKey(k))
      modifies this`start, this`pos, this`width, this`line, this`stack, this`items, this`shape, this`over, this`level
      ensures At(s) && Now(s) == KeyStateStep(input, old(Now(OfKey(k))), k)
    {
      hide FitsAt, Kept, Follow, NewlinesBefore;
      match k
      case KeyStart => s := LexKeyStart();
      case DubQuotedKey => s := LexQuotedKey(OfKey(k), '"');
      case QuotedKey => s := LexQuotedKey(OfKey(k), '\'');
      case PlainKey => s := LexPlainKey(OfKey(k));
    }

    method CallMap(m: MapState) returns (s: LexState)
      requires At(OfMap(m))
      modifies this`start, this`pos, this`width, this`line, this`stack, this`items, this`shape, this`over, this`level
      ensures At(s) && Now(s) == MapStateStep(input, old(Now(OfMap(m))), m)
    {
      hide FitsAt, Kept, Follow, NewlinesBefore;
      match m
      case MapKeyStart => s := LexMapKeyStart();
      case MapQuotedKey => s := LexQuotedKey(OfMap(m), '\'');
      case MapDubQuotedKey => s := LexQuotedKey(OfMap(m), '"');
      case MapKey => s := LexPlainKey(OfMap(m));
      case MapValueEnd => s := LexMapValueEnd();
      case MapEnd => s := LexBracketEnd(OfMap(m));
    }

    method CallValue(v: ValueState) returns (s: LexState)
      requires At(OfValue(v))
      modifies this`start, this`pos, this`width, this`line, this`stack, this`items, this`shape, this`over, this`level
      ensures At(s) && Now(s) == ValueStateStep(input, old(Now(OfValue(v))), v)
    {
      hide FitsAt, Kept, Follow, NewlinesBefore;
      match v
      case KeyEnd => s := LexKeyEnd(OfValue(v));
      case AnyValue => s := LexValue();
      case QuotedString => s := LexQuotedString(OfValue(v), '\'');
      case DubQuotedString => s := LexQuotedString(OfValue(v), '"');
      case PlainString => s := LexString();
      case Block => s := LexBlock();
      case StringEscape => s := LexStringEscape();
      case StringBinary => s := LexStringBinary();
      case NumberOrDateStart => s := LexDigit(OfValue(v), OfValue(NumberOrDate));
      case NumberOrDate => s := LexNumberOrDate();
      case DateAfterYear => s := LexDateAfterYear();
      case NumberStart => s := LexDigit(OfValue(v), OfValue(Number));
      case Number => s := LexNumber();
      case FloatStart => s := LexDigit(OfValue(v), OfValue(FloatRest));
      case FloatRest => s := LexFloat();
    }

    /** nextItem, for at most `fuel` calls of state functions; None if there is no item yet.  As
        long as the parser has not had the last item, there is one, or a state to call. */
    method NextItem(fuel: nat) returns (it: Option<Item>, left: nat)
      requires At(state) && !ended && Tracked()
      modifies this
      ensures At(state) && Tracked() && left <= fuel && steps - old(steps) + left + |taken| - |old(taken)| == fuel
      ensures it.Some? ==> Follow(old(seen), it.value.typ) == Some(seen) && ended == Final(it.value.typ)
      ensures it.Some? ==> taken == old(taken) + [it.value] && left < fuel
      ensures it.Some? && it.value.typ == ItemEOF ==> seen.open.Root? && seen.keys == orphans && state.Done?
      ensures it.None? ==> seen == old(seen) && taken == old(taken) && !ended && left == 0
    {
      left := fuel;
      while left > 0
        invariant At(state) && !ended && seen == old(seen) && taken == old(taken) && Tracked()
        invariant left <= fuel && steps - old(steps) + left == fuel
      {
        left := left - 1;
        if items != [] {
          var i := Take();
          return Some(i), left;
        }
        SomethingLeft();
        NextStep();
      }
      it := None;
    }

    method NextStep()
      requires At(state) && !state.Done? && Tracked()
      modifies this`state, this`start, this`pos, this`width, this`line, this`stack, this`items, this`shape, this`over,
               this`level, this`steps, this`orphans
      ensures At(state) && Tracked() && steps == old(steps) + 1
    {
      hide FitsAt, Kept, Follow, NewlinesBefore, LexStep, ReadyFor, Orphans, Lex;
      ghost var x := Now(state);
      StepBehind(input, x, taken);
      LexNext(input, LEX_START, steps);
      OrphansNext(input, LEX_START, steps);
      state := Call(state);
      steps := steps + 1;
    }

    method Take() returns (it: Item)
      requires At(state) && !ended && items != [] && Tracked()
      modifies this`items, this`seen, this`ended, this`taken
      ensures At(state) && Follow(old(seen), it.typ) == Some(seen) && ended == Final(it.typ)
      ensures it.typ == ItemEOF ==> seen.open.Root? && seen.keys == orphans && state.Done?
      ensures Tracked() && taken == old(taken) + [it]
    {
      hide FitsAt, FitsBehind, Follow, NewlinesBefore, Lex, Orphans;
      it := items[0];
      ghost var t := KeptAfterTake(seen, items, shape, over, orphans);
      if over { OverIsDone(); }
      assert taken + items == (taken + [it]) + items[1..];
      taken := taken + [it];
      items := items[1..];
      seen, ended := t, Final(it.typ);
    }

    /** With all of `fuel` used up and the last item not taken, the lexer is not done in a third
        of it. */
    lemma NotYet(fuel: nat)
      requires At(state) && !ended && Tracked() && steps + |taken| == fuel
      ensures forall k: nat :: 3 * k <= fuel ==> !Lex(input, LEX_START, k).state.Done?
    {
      forall k: nat | 3 * k <= fuel ensures !Lex(input, LEX_START, k).state.Done? {
        if Lex(input, LEX_START, k).state.Done? {
          LexGrows(input, LEX_START, k);
          if steps <= k {
            LexStays(input, LEX_START, steps, k);
          } else {
            LexStays(input, LEX_START, k, steps - 1);
          }
          LastIsLeft();
          assert false;
        }
      }
    }

    lemma OverIsDone()
      requires At(state) && over
      ensures state.Done?
    {
      SkipsSomewhere(state);
    }

    lemma LastIsLeft()
      requires At(state) && !ended && state.Done?
      ensures items != []
    {
    }

    lemma SomethingLeft()
      requires At(state) && !ended && items == []
      ensures !state.Done?
    {
    }
  }

  // ----- parsing -----

  /** Between two items: the parser is where the items taken lead, and has their shape. */
  ghost predicate InStep(env: Env, p: Parser, lx: Lexer)
    reads p, lx
  {
    && p.Valid() && lx.At(lx.state) && lx.Tracked() && !lx.ended && HasShape(p.View(), lx.seen)
    && ProcessAll(env, START, lx.taken) == Ok(p.View()) && NoEOF(lx.taken)
  }

  /** parse: lexer and parser in step, for at most `fuel` calls of state functions and items.
      Neither of the parser's panics is reached, whatever the input; what is parsed is the root
      map, with no other context left, and it is what the items of the whole input come to.
      As many keys are left pending as there are map keys with a '}' where their value should
      begin, so none is if and only if there is no such key.  It is left unfinished only if the
      lexer needs more; with fuel for a number of steps linear in the input, only if the input ends
      inside a key, a quoted string or a block, where no fuel is enough.  It fails if and only if the
      lexer comes to something that cannot stand where it does, or a value does not convert. */
  method Parse(env: Env, data: Bytes, fuel: nat) returns (r: Outcome, p: Parser)
    ensures p.Valid() && (r.Parsed? ==> p.ctxs == [MapCtx(r.m)])
    ensures !r.Unfinished? ==> r == Consume(env, START, Lex(data, LEX_START, fuel).items)
    ensures r.Parsed? ==> |p.keys| == Danglings(data, LEX_START, fuel)
    ensures r.Parsed? ==> (p.keys == [] <==> forall k: nat :: k < fuel ==> !Dangles(data, LEX_START, k))
    ensures r.Unfinished? ==> forall k: nat :: 3 * k <= fuel ==> !Lex(data, LEX_START, k).state.Done?
    ensures r.Parsed? ==> Stops(data)
    ensures r.Unfinished? && 3 * Enough(data) <= fuel ==> EndsInside(data)
    ensures r.Failed? ==> Hits(data, fuel) || HasUnread(env, Lex(data, LEX_START, fuel).items)
    ensures r.Parsed? ==> !Hits(data, fuel) && !HasUnread(env, Lex(data, LEX_START, fuel).items)
  {
    hide Hits, HasUnread;
    p := new Parser();
    var lx := new Lexer(data);
    var left := fuel;
    while left > 0
      invariant fresh(lx) && fresh(p) && lx.input == data
      invariant InStep(env, p, lx) && lx.steps + |lx.taken| + left == fuel
    {
      r, left := ParseItem(env, p, lx, left, fuel);
      if !r.Unfinished? {
        NoneDangles(data, LEX_START, fuel);
        if r.Parsed? { ParsedMeetsNone(env, data, fuel); }
        return;
      }
    }
    lx.NotYet(fuel);
    StopsExactly(data);
    r := Unfinished;
  }

  /** One round of the loop of parse. */
  method ParseItem(env: Env, p: Parser, lx: Lexer, fuel: nat, ghost all: nat) returns (r: Outcome, left: nat)
    requires InStep(env, p, lx) && lx.steps + |lx.taken| + fuel == all && fuel > 0
    modifies p, lx
    ensures left < fuel && (r.Unfinished? ==> InStep(env, p, lx) && lx.steps + |lx.taken| + left == all)
    ensures p.Valid() && (r.Parsed? ==> p.ctxs == [MapCtx(r.m)])
    ensures !r.Unfinished? ==> r == Consume(env, START, Lex(lx.input, LEX_START, all).items)
    ensures r.Parsed? ==> |p.keys| == Danglings(lx.input, LEX_START, all) && StopsAfter(lx.input, all)
    ensures r.Failed? ==> Hits(lx.input, all) || HasUnread(env, Lex(lx.input, LEX_START, all).items)
  {
    hide Process, ProcessAll, Consume, Lex, LexStep, ReadyFor, HasContexts, Follow, NoEOF, Hits, HasUnread;
    ghost var before, taken, was := lx.seen, lx.taken, p.View();
    var it;
    it, left := lx.NextItem(fuel);
    if it.None? {
      return Unfinished, left;
    }
    RootFirst(was, before);
    ParserFollows(env, was, before, it.value);
    Outlook(env, was, lx, taken, it.value, all);
    if it.value.typ.ItemEOF? {
      OnlyRoot(was, before, lx.seen);
      KeysLeft(lx, all);
      return Parsed(p.ctxs[0].m), left;
    }
    var ok := p.ProcessItem(env, it.value);
    if !ok {
      RefusedFor(env, was, it.value, lx.input, all);
      return Failed, left;
    }
    OneMoreItem(env, taken, was, it.value);
    r := Unfinished;
  }

  lemma {:induction false} RootFirst(p: State, s: Outline)
    requires HasShape(p, s)
    ensures p.ctxs != [] && p.ctxs[0].MapCtx?
    decreases |p.ctxs|
  {
    if s.open.Within? {
      RootFirst(p.(ctxs := Front(p.ctxs)), s.(open := s.open.outer));
    }
  }

  /** At the end the keys left are those that dangle. */
  lemma KeysLeft(lx: Lexer, fuel: nat)
    requires lx.Tracked() && lx.state.Done? && lx.steps <= fuel
    ensures lx.orphans == Danglings(lx.input, LEX_START, fuel) && StopsAfter(lx.input, fuel)
  {
    hide LexStep, Lex, Orphans, Danglings;
    LexStays(lx.input, LEX_START, lx.steps, fuel);
    OrphansStay(lx.input, LEX_START, lx.steps, fuel);
    OrphansDangle(lx.input, fuel);
  }

  lemma OnlyRoot(p: State, before: Outline, seen: Outline)
    requires HasShape(p, before) && Follow(before, ItemEOF) == Some(seen) && seen.open.Root?
    ensures |p.ctxs| == 1 && p.ctxs[0].MapCtx? && |p.keys| == seen.keys
  {
  }

  lemma OneMoreItem(env: Env, taken: seq<Item>, p: State, it: Item)
    requires ProcessAll(env, START, taken) == Ok(p) && NoEOF(taken) && !it.typ.ItemEOF?
    ensures ProcessAll(env, START, taken + [it]) == Process(env, p, it) && NoEOF(taken + [it])
    ensures Process(env, p, it).Ok? ==> !Final(it.typ)
  {
    ProcessAppend(env, START, taken, [it]);
    ProcessOne(env, p, it);
  }

  /** An item is refused for a flaw, or because it does not convert. */
  lemma RefusedFor(env: Env, p: State, it: Item, input: Bytes, fuel: nat)
    requires Process(env, p, it).Err? && Process(env, p, it) != Err(Panic) && it in Lex(input, LEX_START, fuel).items
    ensures Hits(input, fuel) || HasUnread(env, Lex(input, LEX_START, fuel).items)
  {
    hide Lex, Hits, Scalar;
    ErrorsAreFlaws(input, fuel);
    var its := Lex(input, LEX_START, fuel).items;
    var k :| 0 <= k < |its| && its[k] == it;
    assert it.typ.ItemError? || Unread(env, its[k]);
  }

  lemma ParsedMeetsNone(env: Env, input: Bytes, fuel: nat)
    requires Consume(env, START, Lex(input, LEX_START, fuel).items).Parsed?
    ensures !Hits(input, fuel) && !HasUnread(env, Lex(input, LEX_START, fuel).items)
  {
    hide Lex, Hits, HasUnread;
    ErrorsAreFlaws(input, fuel);
    ParsedIsClean(env, START, Lex(input, LEX_START, fuel).items);
  }

  /** What the next item leads to is what all items lead to. */
  lemma Outlook(env: Env, p: State, lx: Lexer, taken: seq<Item>, it: Item, fuel: nat)
    requires ProcessAll(env, START, taken) == Ok(p) && p.ctxs != [] && p.ctxs[0].MapCtx? && NoEOF(taken)
    requires lx.Tracked() && lx.taken == taken + [it] && lx.steps <= fuel
    ensures it in Lex(lx.input, LEX_START, fuel).items
    ensures var c := Consume(env, START, Lex(lx.input, LEX_START, fuel).items);
            if it.typ.ItemEOF? then c == Parsed(p.ctxs[0].m) else Process(env, p, it).Err? ==> c == Failed
  {
    hide LexStep, Process;
    var all := Lex(lx.input, LEX_START, fuel).items;
    LexStays(lx.input, LEX_START, lx.steps, fuel);
    assert lx.taken <= all;
    var rest := all[|lx.taken|..];
    assert all == taken + ([it] + rest);
    ConsumeOn(env, START, taken, [it] + rest);
    assert ([it] + rest)[0] == it;
  }
}
