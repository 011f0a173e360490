/** Where the lexer of conf/lex.go finds an error, and that nothing else but a value that does not convert
    makes a configuration fail. */
module Flaws {
  import opened Base
  import opened ConfParser
  import opened LexShape
  import opened LexSteps
  import opened ConfText

  // ----- what cannot stand where it does -----

  predicate LoneSlash(input: Bytes, p: nat) { Rune(input, p) == '/' && Rune(input, p + 1) != '/' }

  /** One of the bytes, a blank or a newline. */
  predicate OneOf(c: char, bytes: Bytes) { c in bytes || IsWhitespace(c) || IsNL(c) }

  /** What is read next cannot stand here; in the state's own terms. */
  predicate Flawed(input: Bytes, x: Lx) {
    var r := Rune(input, x.pos);
    match x.state
    case OfTop(Top) => LoneSlash(input, x.pos) || (r == EOF && x.pos < |input|)
    case OfTop(TopValueEnd) => r != EOF && !OneOf(r, "#/;")
    case OfKey(KeyStart) => r == '=' || r == ':'
    case OfMap(MapKeyStart) => r == '=' || r == ':'
    case OfKeyed(MapValue) => r == ','
    case OfMap(MapValueEnd) => !OneOf(r, "#/;,}")
    case OfArray(ArrayValue) => LoneSlash(input, x.pos) || r == ','
    case OfArray(ArrayValueEnd) => !OneOf(r, "#/,]")
    case OfValue(v) => ValueFlawed(input, x, v)
    case _ => false
  }

  predicate ValueFlawed(input: Bytes, x: Lx, v: ValueState) {
    var r := Rune(input, x.pos);
    match v
    case AnyValue => r == '.' || IsNL(r)
    case StringEscape => r !in "xtnr\"\\"
    case StringBinary => !IsHexadecimal(r) || !IsHexadecimal(Rune(input, x.pos + 1))
    case NumberOrDateStart => !IsDigit(r)
    case NumberStart => !IsDigit(r)
    case FloatStart => !IsDigit(r)
    case NumberOrDate => r == '-' && x.pos != x.start + 4
    case DateAfterYear => exists k :: 0 <= k < |DATE_FORMAT| && !FormatAt(input, x.pos, k)
    case _ => false
  }

  // ----- the stack is never empty where it is popped -----

  function Under(st: LexState): LexState { if st.Skip? then st.next else st }

  /** The states that are pushed: those of the top at the bottom, and only there. */
  predicate Pushed(st: LexState, k: nat) {
    if k == 0 then st.OfTop?
    else
      || st == OfArray(ArrayValue) || st == OfArray(ArrayValueEnd)
      || st == OfMap(MapKeyStart) || st == OfMap(MapValueEnd)
  }

  predicate Stacked(x: Lx) {
    var st := Under(x.state);
    && (st.OfTop? ==> x.stack == []) && (st.OfTop? || st.Done? || x.stack != [])
    && (forall k :: 0 <= k < |x.stack| ==> Pushed(x.stack[k], k))
    && (x.state == OfTop(Top) ==> x.start == x.pos) && !st.Skip? && (x.state.Skip? ==> !st.Done?)
    && (x.state.Skip? && st.OfTop? ==> st == OfTop(Top))
  }

  lemma PoppedIsStacked(input: Bytes, x: Lx)
    requires x.stack != [] && x.start == x.pos && forall k :: 0 <= k < |x.stack| ==> Pushed(x.stack[k], k)
    ensures Popped(input, x) == x.(state := Last(x.stack), stack := Front(x.stack)) && Stacked(Popped(input, x))
  {
    assert Pushed(Last(x.stack), |x.stack| - 1);
  }

  /** What a step may do: report a flaw, or go on without an error. */
  predicate Agrees(input: Bytes, x: Lx, y: Lx) {
    && Stacked(y) && x.items <= y.items
    && if Flawed(input, x) then
         y.state.Done? && |y.items| == |x.items| + 1 && y.items[|x.items|].typ.ItemError?
       else
         && (forall k :: |x.items| <= k < |y.items| ==> !y.items[k].typ.ItemError?)
         && (forall k :: |x.items| <= k < |y.items| && y.items[k].typ.ItemEOF? ==> y.state.Done? && k == |y.items| - 1)
         && (y.state.Done? ==> x.state == OfTop(Top) && x.pos >= |input|)
  }

  lemma GoesOn(input: Bytes, x: Lx, y: Lx)
    requires Stacked(x) && !Flawed(input, x) && y.items == x.items && !y.state.Done? && Stacked(y)
    ensures Agrees(input, x, y)
  {
  }

  lemma TopAgrees(input: Bytes, x: Lx, t: TopState)
    requires Stacked(x) && x.state == OfTop(t)
    ensures Agrees(input, x, LexStep(input, x))
  {
    hide LineAt, Text;
    assert LexStep(input, x) == if t.Top? then TopStep(input, x) else TopValueEndStep(input, x);
  }

  lemma KeyAgrees(input: Bytes, x: Lx, k: KeyState)
    requires Stacked(x) && x.state == OfKey(k)
    ensures Agrees(input, x, LexStep(input, x))
  {
    hide LineAt, Text;
  }

  lemma ArrayAgrees(input: Bytes, x: Lx, a: ArrayState)
    requires Stacked(x) && x.state == OfArray(a)
    ensures Agrees(input, x, LexStep(input, x))
  {
    hide LineAt, Text;
    if a.ArrayEnd? { PoppedIsStacked(input, Emitted(input, x.(start := x.pos), ItemArrayEnd)); }
  }

  lemma MapAgrees(input: Bytes, x: Lx, m: MapState)
    requires Stacked(x) && x.state == OfMap(m)
    ensures Agrees(input, x, LexStep(input, x))
  {
    hide LineAt, Text;
    if m.MapEnd? { PoppedIsStacked(input, Emitted(input, x.(start := x.pos), ItemMapEnd)); }
  }

  lemma KeyedAgrees(input: Bytes, x: Lx, d: KeyedState)
    requires Stacked(x) && x.state == OfKeyed(d)
    ensures Agrees(input, x, LexStep(input, x))
  {
    hide LineAt, Text;
  }

  lemma CommentAgrees(input: Bytes, x: Lx, c: CommentState)
    requires Stacked(x) && x.state == OfComment(c)
    ensures Agrees(input, x, LexStep(input, x))
  {
    hide LineAt, Text;
    if c.Comment? { PoppedIsStacked(input, Emitted(input, x, ItemText)); }
  }

  lemma EndedAgrees(input: Bytes, x: Lx, z: Lx, typ: ItemType, quoted: bool)
    requires x.stack != [] && forall k :: 0 <= k < |x.stack| ==> Pushed(x.stack[k], k)
    requires !Flawed(input, x) && z.items == x.items && z.stack == x.stack && !typ.ItemError? && !typ.ItemEOF?
    ensures Agrees(input, x, Ended(input, z, typ, quoted))
  {
    hide LineAt, Text;
    var e := Emitted(input, z, typ);
    var p := if quoted then Beyond(input, e.pos) else e.pos;
    PoppedIsStacked(input, e.(start := p, pos := p));
  }

  /** States that end a value at some byte, and otherwise go on. */
  lemma TextAgrees(input: Bytes, x: Lx, v: ValueState)
    requires Stacked(x) && x.state == OfValue(v)
    requires v.QuotedString? || v.DubQuotedString? || v.PlainString? || v.Block?
    ensures Agrees(input, x, LexStep(input, x))
  {
    hide LineAt, Text, Ended, Agrees, IsBoolText;
    var y := LexStep(input, x);
    match v
    case QuotedString => QuotedAgrees(input, x, '\'');
    case DubQuotedString => QuotedAgrees(input, x, '"');
    case PlainString =>
      if y.items == x.items && y.stack == x.stack && y.state.OfValue? { GoesOn(input, x, y); } else {
        var r := Rune(input, x.pos);
        EndedAgrees(input, x, x, if r != '\'' && IsBoolText(Text(input, x.start, x.pos)) then ItemBool else ItemString,
                    r == '\'');
      }
    case Block =>
      var m := Past(input, x);
      if y == m { GoesOn(input, x, y); } else {
        EndedAgrees(input, x, if m.pos < |input| then x else m, ItemString, true);
      }
  }

  lemma QuotedAgrees(input: Bytes, x: Lx, quote: char)
    requires Stacked(x) && x.state == OfValue(if quote == '"' then DubQuotedString else QuotedString)
    requires quote == '"' || quote == '\''
    ensures Agrees(input, x, LexStep(input, x))
  {
    hide LineAt, Text, Ended, Agrees;
    assert LexStep(input, x) == QuotedStringStep(input, x, quote);
    if Rune(input, x.pos) == quote {
      EndedAgrees(input, x, x, ItemString, true);
    } else {
      GoesOn(input, x, Past(input, x));
    }
  }

  lemma NumberAgrees(input: Bytes, x: Lx, v: ValueState)
    requires Stacked(x) && x.state == OfValue(v) && (v.NumberOrDate? || v.Number? || v.FloatRest?)
    ensures Agrees(input, x, LexStep(input, x))
  {
    hide LineAt, Text, Ended;
    var r := Rune(input, x.pos);
    if !IsDigit(r) && (v.FloatRest? || r != '.') && !(v.NumberOrDate? && r == '-') {
      EndedAgrees(input, x, x, if v.FloatRest? then ItemFloat else ItemInteger, false);
    }
  }

  lemma PartAgrees(input: Bytes, x: Lx, v: ValueState)
    requires Stacked(x) && x.state == OfValue(v)
    requires v.KeyEnd? || v.AnyValue? || v.StringEscape? || v.StringBinary?
             || v.NumberOrDateStart? || v.NumberStart? || v.FloatStart?
    ensures Agrees(input, x, LexStep(input, x))
  {
    hide LineAt, Text;
  }

  lemma {:induction false} DateAgrees(input: Bytes, x: Lx, z: Lx, i: nat)
    requires Stacked(x) && x.state == OfValue(DateAfterYear)
    requires i <= |DATE_FORMAT| && z == x.(pos := x.pos + i) && forall k :: 0 <= k < i ==> FormatAt(input, x.pos, k)
    ensures Agrees(input, x, DateStep(input, z, i))
    decreases |DATE_FORMAT| - i
  {
    hide LineAt, Text, Ended, Agrees, Erred, FormatAt, Stacked, IsDigit;
    if i == |DATE_FORMAT| {
      WholeDate(input, x, z);
    } else if FormatAt(input, x.pos, i) {
      DateGoesOn(input, x, z, i);
      DateAgrees(input, x, z.(pos := z.pos + 1), i + 1);
    } else {
      DateBreaks(input, x, z, i);
    }
  }

  lemma WholeDate(input: Bytes, x: Lx, z: Lx)
    requires Stacked(x) && x.state == OfValue(DateAfterYear)
    requires z == x.(pos := x.pos + |DATE_FORMAT|) && forall k :: 0 <= k < |DATE_FORMAT| ==> FormatAt(input, x.pos, k)
    ensures Agrees(input, x, Ended(input, z, ItemDatetime, false))
  {
    hide Ended, Agrees, FormatAt;
    EndedAgrees(input, x, z, ItemDatetime, false);
  }

  lemma DateGoesOn(input: Bytes, x: Lx, z: Lx, i: nat)
    requires i < |DATE_FORMAT| && z == x.(pos := x.pos + i) && FormatAt(input, x.pos, i)
    ensures DateStep(input, z, i) == DateStep(input, z.(pos := z.pos + 1), i + 1)
  {
    hide Ended, Erred;
  }

  lemma DateBreaks(input: Bytes, x: Lx, z: Lx, i: nat)
    requires Stacked(x) && x.state == OfValue(DateAfterYear)
    requires i < |DATE_FORMAT| && z == x.(pos := x.pos + i) && !FormatAt(input, x.pos, i)
    ensures Agrees(input, x, DateStep(input, z, i))
  {
    hide Ended, LineAt;
    assert DateStep(input, z, i) == Erred(input, Past(input, z));
    assert ValueFlawed(input, x, DateAfterYear);
  }

  /** Each step: an error item, and the end, if and only if what is read cannot stand there; no other error,
      and no other end but that of the input. */
  lemma StepAgrees(input: Bytes, x: Lx)
    requires Stacked(x) && !x.state.Done?
    ensures Agrees(input, x, LexStep(input, x))
  {
    hide *;
    match x.state
    case OfTop(t) => TopAgrees(input, x, t);
    case OfKey(k) => KeyAgrees(input, x, k);
    case OfArray(a) => ArrayAgrees(input, x, a);
    case OfMap(m) => MapAgrees(input, x, m);
    case OfKeyed(d) => KeyedAgrees(input, x, d);
    case OfComment(c) => CommentAgrees(input, x, c);
    case Skip(_) => SkipAgrees(input, x);
    case OfValue(v) => ValueAgrees(input, x, v);
  }

  lemma SkipAgrees(input: Bytes, x: Lx)
    requires Stacked(x) && x.state.Skip?
    ensures Agrees(input, x, LexStep(input, x))
  {
    GoesOn(input, x, LexStep(input, x));
  }

  lemma ValueAgrees(input: Bytes, x: Lx, v: ValueState)
    requires Stacked(x) && x.state == OfValue(v)
    ensures Agrees(input, x, LexStep(input, x))
  {
    hide *;
    if v.QuotedString? || v.DubQuotedString? || v.PlainString? || v.Block? {
      TextAgrees(input, x, v);
    } else if v.NumberOrDate? || v.Number? || v.FloatRest? {
      NumberAgrees(input, x, v);
    } else if v.DateAfterYear? {
      DateIsStep(input, x);
      DateAgrees(input, x, x, 0);
    } else {
      PartAgrees(input, x, v);
    }
  }

  // ----- runs -----

  /** The lexer comes to something that cannot stand where it does. */
  ghost predicate Hits(input: Bytes, n: nat) { exists k: nat :: k < n && Flawed(input, Lex(input, LEX_START, k)) }

  predicate HasError(its: seq<Item>) { exists k :: 0 <= k < |its| && its[k].typ.ItemError? }

  /** Errors and ends come last. */
  predicate FinalLast(x: Lx) {
    forall k :: 0 <= k < |x.items| && Final(x.items[k].typ) ==> x.state.Done? && k == |x.items| - 1
  }

  /** In a run there is an error item if and only if the lexer came to a flaw. */
  lemma {:induction false} ErrorsAreFlaws(input: Bytes, n: nat)
    ensures var m := Lex(input, LEX_START, n);
            Stacked(m) && FinalLast(m) && (HasError(m.items) <==> Hits(input, n))
  {
    hide Lex, LexStep, Stacked, Flawed;
    if n == 0 {
      NoStep(input, LEX_START);
      assert Stacked(LEX_START) by { StartIsStacked(); }
    } else {
      var x := Lex(input, LEX_START, n - 1);
      ErrorsAreFlaws(input, n - 1);
      if x.state.Done? {
        LexStays(input, LEX_START, n - 1, n);
        assert !Flawed(input, x) by { DoneHasNone(input, x); }
      } else {
        LexNext(input, LEX_START, n - 1);
        StepAgrees(input, x);
      }
      assert Hits(input, n) <==> Hits(input, n - 1) || Flawed(input, x);
    }
  }

  lemma StartIsStacked()
    ensures Stacked(LEX_START)
  {
  }

  lemma DoneHasNone(input: Bytes, x: Lx)
    requires x.state.Done?
    ensures !Flawed(input, x)
  {
  }

  // ----- what parsing makes of it -----

  /** A value that does not convert. */
  predicate Unread(env: Env, it: Item) { IsScalar(it.typ) && Scalar(env, it).None? }

  predicate HasUnread(env: Env, its: seq<Item>) { exists k :: 0 <= k < |its| && Unread(env, its[k]) }

  lemma {:induction false} ParsedIsClean(env: Env, p: State, its: seq<Item>)
    requires its != [] && NoEOF(its[..|its| - 1]) && Consume(env, p, its).Parsed?
    ensures !HasError(its) && !HasUnread(env, its)
    decreases |its|
  {
    if |its| > 1 {
      assert its[..|its| - 1][0] == its[0] && its[1..][..|its| - 2] == its[..|its| - 1][1..];
      ParsedIsClean(env, Process(env, p, its[0]).value, its[1..]);
    }
  }
}
