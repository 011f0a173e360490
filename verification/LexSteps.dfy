/** The state functions of conf/lex.go as functions: what each makes of the position, of the
    stack and of the items. */
module LexSteps {
  import opened Base
  import opened ConfParser
  import opened LexShape

  /** What next gives at the end of the input; a zero byte looks the same. */
  const EOF := '\0'

  predicate IsKeySeparator(r: char) { r == '=' || r == ':' }
  predicate IsWhitespace(r: char) { r == '\t' || r == ' ' }
  predicate IsNL(r: char) { r == '\n' || r == '\r' }
  predicate IsHexadecimal(r: char) { '0' <= r <= '9' || 'a' <= r <= 'f' || 'A' <= r <= 'F' }

  /** Text that no key without quotes ends in. */
  predicate IsKeyText(t: Bytes) {
    forall k :: 0 <= k < |t| ==> !IsWhitespace(t[k]) && !IsNL(t[k]) && !IsKeySeparator(t[k])
  }

  /** The bytes a key without quotes can start with. */
  predicate StartsKey(r: char) { r != '#' && r != '/' && r != '"' && r != '\'' && r != EOF }

  /** The layout of a full date behind "YYYY-"; '0' stands for any digit. */
  const DATE_FORMAT := "00-00T00:00:00Z"

  /** The lexer between two steps, with all items it ever emitted and were not taken. */
  datatype Lx = Lx(state: LexState, start: nat, pos: nat, stack: seq<LexState>, items: seq<Item>)

  const LEX_START := Lx(OfTop(Top), 0, 0, [], [])

  function Rune(input: Bytes, p: nat): char { if p < |input| then input[p] else EOF }

  function Beyond(input: Bytes, p: nat): nat { if p < |input| then p + 1 else p }

  function Past(input: Bytes, x: Lx): Lx { x.(pos := Beyond(input, x.pos)) }

  function Text(input: Bytes, a: nat, b: nat): Bytes { if a <= b <= |input| then input[a..b] else [] }

  function LineAt(input: Bytes, p: nat): int { if p <= |input| then 1 + NewlinesBefore(input, p) else 0 }

  // ----- what the state functions do at their ends -----

  function Emitted(input: Bytes, x: Lx, typ: ItemType): Lx {
    x.(start := x.pos, items := x.items + [Item(typ, Text(input, x.start, x.pos), LineAt(input, x.pos))])
  }

  function Erred(input: Bytes, x: Lx): Lx {
    x.(state := Done, items := x.items + [Item(ItemError, [], LineAt(input, x.pos))])
  }

  function Popped(input: Bytes, x: Lx): Lx {
    if x.stack == [] then Erred(input, x) else x.(state := Last(x.stack), stack := Front(x.stack))
  }

  function Ended(input: Bytes, x: Lx, typ: ItemType, quoted: bool): Lx {
    var e := Emitted(input, x, typ);
    var p := if quoted then Beyond(input, e.pos) else e.pos;
    Popped(input, e.(start := p, pos := p))
  }

  predicate IsComment(input: Bytes, r: char, p: nat) { r == '#' || (r == '/' && Rune(input, p) == '/') }

  function CommentOn(input: Bytes, r: char, x: Lx, back: LexState): Lx {
    x.(state := OfComment(CommentStart), stack := x.stack + [back],
       pos := if r == '/' then Beyond(input, x.pos) else x.pos)
  }

  function Inner(x: Lx, behind: LexState): Lx { x.(state := OfValue(AnyValue), stack := x.stack + [behind]) }

  // ----- the state functions -----

  function TopStep(input: Bytes, x: Lx): Lx {
    var r, m := Rune(input, x.pos), Past(input, x);
    if IsWhitespace(r) || IsNL(r) then m.(state := Skip(OfTop(Top)))
    else if IsComment(input, r, m.pos) then CommentOn(input, r, m, OfTop(Top))
    else if r == '/' || r == EOF then
      if m.pos > m.start then Erred(input, m) else Emitted(input, m, ItemEOF).(state := Done)
    else x.(state := OfKey(KeyStart), stack := x.stack + [OfTop(TopValueEnd)])
  }

  function TopValueEndStep(input: Bytes, x: Lx): Lx {
    var r, m := Rune(input, x.pos), Past(input, x);
    if IsComment(input, r, m.pos) then CommentOn(input, r, m, OfTop(Top))
    else if r == '/' || IsWhitespace(r) then m.(state := OfTop(TopValueEnd))
    else if IsNL(r) || r == EOF || r == ';' then m.(state := OfTop(Top), start := m.pos)
    else Erred(input, m)
  }

  function KeyStartStep(input: Bytes, x: Lx): Lx {
    var r, m := Rune(input, x.pos), Past(input, x);
    if IsKeySeparator(r) then Erred(input, x)
    else if IsWhitespace(r) || IsNL(r) then m.(state := Skip(OfKey(KeyStart)))
    else if r == '"' then m.(state := Skip(OfKey(DubQuotedKey)))
    else if r == '\'' then m.(state := Skip(OfKey(QuotedKey)))
    else m.(state := OfKey(PlainKey), start := x.pos)
  }

  function AfterKey(top: bool): LexState { if top then OfValue(KeyEnd) else OfKeyed(MapKeyEnd) }

  function QuotedKeyStep(input: Bytes, x: Lx, quote: char): Lx {
    if Rune(input, x.pos) == quote then
      Past(input, Emitted(input, x, ItemKey)).(state := Skip(AfterKey(x.state.OfKey?)))
    else
      Past(input, x)
  }

  function PlainKeyStep(input: Bytes, x: Lx): Lx {
    var r := Rune(input, x.pos);
    if IsWhitespace(r) || IsNL(r) || IsKeySeparator(r) then
      Emitted(input, x, ItemKey).(state := AfterKey(x.state.OfKey?))
    else
      Past(input, x)
  }

  function KeyEndStep(input: Bytes, x: Lx): Lx {
    var r, m := Rune(input, x.pos), Past(input, x);
    var value := if x.state == OfValue(KeyEnd) then OfValue(AnyValue) else OfKeyed(MapValue);
    if IsWhitespace(r) || IsNL(r) then m.(state := Skip(x.state))
    else if IsKeySeparator(r) then m.(state := Skip(value))
    else x.(state := value)
  }

  function ValueStep(input: Bytes, x: Lx): Lx {
    var r, m := Rune(input, x.pos), Past(input, x);
    if IsWhitespace(r) then m.(state := Skip(OfValue(AnyValue)))
    else if r == '[' then Emitted(input, m.(start := m.pos), ItemArrayStart).(state := OfArray(ArrayValue))
    else if r == '{' then Emitted(input, m.(start := m.pos), ItemMapStart).(state := OfMap(MapKeyStart))
    else if r == '\'' then m.(state := OfValue(QuotedString), start := m.pos)
    else if r == '"' then m.(state := OfValue(DubQuotedString), start := m.pos)
    else if r == '-' then m.(state := OfValue(NumberStart))
    else if r == '(' then m.(state := OfValue(Block), start := m.pos)
    else if IsDigit(r) then x.(state := OfValue(NumberOrDateStart))
    else if r == '.' || IsNL(r) then Erred(input, m)
    else x.(state := OfValue(PlainString))
  }

  function ArrayValueStep(input: Bytes, x: Lx): Lx {
    var r, m := Rune(input, x.pos), Past(input, x);
    if IsWhitespace(r) || IsNL(r) then m.(state := Skip(OfArray(ArrayValue)))
    else if IsComment(input, r, m.pos) then CommentOn(input, r, m, OfArray(ArrayValue))
    else if r == '/' || r == ',' then Erred(input, m)
    else if r == ']' then m.(state := OfArray(ArrayEnd))
    else Inner(x, OfArray(ArrayValueEnd))
  }

  function ArrayValueEndStep(input: Bytes, x: Lx): Lx {
    var r, m := Rune(input, x.pos), Past(input, x);
    if IsWhitespace(r) then m.(state := Skip(OfArray(ArrayValueEnd)))
    else if IsComment(input, r, m.pos) then CommentOn(input, r, m, OfArray(ArrayValueEnd))
    else if r == '/' || r == ',' || IsNL(r) then m.(state := Skip(OfArray(ArrayValue)))
    else if r == ']' then m.(state := OfArray(ArrayEnd))
    else Erred(input, m)
  }

  function BracketEndStep(input: Bytes, x: Lx): Lx {
    Popped(input, Emitted(input, x.(start := x.pos), if x.state.OfArray? then ItemArrayEnd else ItemMapEnd))
  }

  function MapKeyStartStep(input: Bytes, x: Lx): Lx {
    var r, m := Rune(input, x.pos), Past(input, x);
    if IsKeySeparator(r) then Erred(input, x)
    else if IsWhitespace(r) || IsNL(r) then m.(state := Skip(OfMap(MapKeyStart)))
    else if r == '}' then m.(state := Skip(OfMap(MapEnd)))
    else if IsComment(input, r, m.pos) then CommentOn(input, r, m, OfMap(MapKeyStart))
    else if r == '/' then Past(input, m.(state := OfMap(MapKey), start := m.pos))
    else if r == '\'' then m.(state := Skip(OfMap(MapQuotedKey)))
    else if r == '"' then m.(state := Skip(OfMap(MapDubQuotedKey)))
    else m.(state := OfMap(MapKey), start := x.pos)
  }

  function MapValueStep(input: Bytes, x: Lx): Lx {
    var r, m := Rune(input, x.pos), Past(input, x);
    if IsWhitespace(r) || IsNL(r) then m.(state := Skip(OfKeyed(MapValue)))
    else if r == ',' then Erred(input, m)
    else if r == '}' then m.(state := Skip(OfMap(MapEnd)))
    else Inner(x, OfMap(MapValueEnd))
  }

  function MapValueEndStep(input: Bytes, x: Lx): Lx {
    var r, m := Rune(input, x.pos), Past(input, x);
    if IsWhitespace(r) then m.(state := Skip(OfMap(MapValueEnd)))
    else if IsComment(input, r, m.pos) then CommentOn(input, r, m, OfMap(MapValueEnd))
    else if r == '/' || r == ';' || r == ',' || IsNL(r) then m.(state := Skip(OfMap(MapKeyStart)))
    else if r == '}' then m.(state := Skip(OfMap(MapEnd)))
    else Erred(input, m)
  }

  function QuotedStringStep(input: Bytes, x: Lx, quote: char): Lx {
    if Rune(input, x.pos) == quote then Ended(input, x, ItemString, true) else Past(input, x)
  }

  predicate IsBoolText(t: Bytes) { t == "true" || t == "false" || t == "TRUE" || t == "FALSE" }

  function StringStep(input: Bytes, x: Lx): Lx {
    var r := Rune(input, x.pos);
    if r == '\\' then Past(input, x).(state := OfValue(StringEscape))
    else if IsNL(r) || r == EOF || r == ';' || IsWhitespace(r) then
      Ended(input, x, if IsBoolText(Text(input, x.start, x.pos)) then ItemBool else ItemString, false)
    else if r == '\'' then Ended(input, x, ItemString, true)
    else Past(input, x)
  }

  /** At the very end of the input the parenthesis is not given back. */
  function BlockStep(input: Bytes, x: Lx): Lx {
    var m := Past(input, x);
    if Rune(input, x.pos) != ')' || x.pos == 0 || Rune(input, x.pos - 1) != '\n' then m
    else
      var after := Rune(input, m.pos);
      if after == '\n' || after == EOF then Ended(input, if m.pos < |input| then x else m, ItemString, true) else m
  }

  function EscapeStep(input: Bytes, x: Lx): Lx {
    var r, m := Rune(input, x.pos), Past(input, x);
    if r == 'x' then m.(state := OfValue(StringBinary))
    else if r == 't' || r == 'n' || r == 'r' || r == '"' || r == '\\' then m.(state := OfValue(PlainString))
    else Erred(input, m)
  }

  function BinaryStep(input: Bytes, x: Lx): Lx {
    var m := Past(input, x);
    if !IsHexadecimal(Rune(input, x.pos)) then Erred(input, m)
    else if !IsHexadecimal(Rune(input, m.pos)) then Erred(input, Past(input, m))
    else Past(input, m).(state := OfValue(PlainString))
  }

  function DigitStep(input: Bytes, x: Lx, next: LexState): Lx {
    if IsDigit(Rune(input, x.pos)) then Past(input, x).(state := next) else Erred(input, Past(input, x))
  }

  function NumberOrDateStep(input: Bytes, x: Lx): Lx {
    var r, m := Rune(input, x.pos), Past(input, x);
    if r == '-' then if m.pos - m.start != 5 then Erred(input, m) else m.(state := OfValue(DateAfterYear))
    else if IsDigit(r) then m
    else if r == '.' then m.(state := OfValue(FloatStart))
    else Ended(input, x, ItemInteger, false)
  }

  function DateStep(input: Bytes, x: Lx, i: nat): Lx
    requires i <= |DATE_FORMAT|
    decreases |DATE_FORMAT| - i
  {
    if i == |DATE_FORMAT| then Ended(input, x, ItemDatetime, false)
    else
      var r, f := Rune(input, x.pos), DATE_FORMAT[i];
      if if f == '0' then IsDigit(r) else f == r then DateStep(input, Past(input, x), i + 1)
      else Erred(input, Past(input, x))
  }

  function NumberStep(input: Bytes, x: Lx): Lx {
    var r := Rune(input, x.pos);
    if IsDigit(r) then Past(input, x)
    else if r == '.' then Past(input, x).(state := OfValue(FloatStart))
    else Ended(input, x, ItemInteger, false)
  }

  function FloatStep(input: Bytes, x: Lx): Lx {
    if IsDigit(Rune(input, x.pos)) then Past(input, x) else Ended(input, x, ItemFloat, false)
  }

  function CommentStartStep(input: Bytes, x: Lx): Lx {
    Emitted(input, x.(start := x.pos), ItemCommentStart).(state := OfComment(Comment))
  }

  function CommentStep(input: Bytes, x: Lx): Lx {
    var r := Rune(input, x.pos);
    if IsNL(r) || r == EOF then Popped(input, Emitted(input, x, ItemText)) else Past(input, x)
  }

  function ValueStateStep(input: Bytes, x: Lx, v: ValueState): Lx {
    match v
    case KeyEnd => KeyEndStep(input, x)
    case AnyValue => ValueStep(input, x)
    case QuotedString => QuotedStringStep(input, x, '\'')
    case DubQuotedString => QuotedStringStep(input, x, '"')
    case PlainString => StringStep(input, x)
    case Block => BlockStep(input, x)
    case StringEscape => EscapeStep(input, x)
    case StringBinary => BinaryStep(input, x)
    case NumberOrDateStart => DigitStep(input, x, OfValue(NumberOrDate))
    case NumberOrDate => NumberOrDateStep(input, x)
    case DateAfterYear => DateStep(input, x, 0)
    case NumberStart => DigitStep(input, x, OfValue(Number))
    case Number => NumberStep(input, x)
    case FloatStart => DigitStep(input, x, OfValue(FloatRest))
    case FloatRest => FloatStep(input, x)
  }

  function KeyStateStep(input: Bytes, x: Lx, k: KeyState): Lx {
    match k
    case KeyStart => KeyStartStep(input, x)
    case DubQuotedKey => QuotedKeyStep(input, x, '"')
    case QuotedKey => QuotedKeyStep(input, x, '\'')
    case PlainKey => PlainKeyStep(input, x)
  }

  function MapStateStep(input: Bytes, x: Lx, m: MapState): Lx {
    match m
    case MapKeyStart => MapKeyStartStep(input, x)
    case MapQuotedKey => QuotedKeyStep(input, x, '\'')
    case MapDubQuotedKey => QuotedKeyStep(input, x, '"')
    case MapKey => PlainKeyStep(input, x)
    case MapValueEnd => MapValueEndStep(input, x)
    case MapEnd => BracketEndStep(input, x)
  }

  function LexStep(input: Bytes, x: Lx): Lx {
    match x.state
    case Done => x
    case OfTop(Top) => TopStep(input, x)
    case OfTop(TopValueEnd) => TopValueEndStep(input, x)
    case OfKey(k) => KeyStateStep(input, x, k)
    case OfValue(v) => ValueStateStep(input, x, v)
    case OfArray(ArrayValue) => ArrayValueStep(input, x)
    case OfArray(ArrayValueEnd) => ArrayValueEndStep(input, x)
    case OfArray(ArrayEnd) => BracketEndStep(input, x)
    case OfMap(m) => MapStateStep(input, x, m)
    case OfKeyed(MapKeyEnd) => KeyEndStep(input, x)
    case OfKeyed(MapValue) => MapValueStep(input, x)
    case OfComment(CommentStart) => CommentStartStep(input, x)
    case OfComment(Comment) => CommentStep(input, x)
    case Skip(next) => x.(state := next, start := x.pos)
  }

  /** At most `n` steps. */
  function Lex(input: Bytes, x: Lx, n: nat): Lx
    decreases n
  {
    if n == 0 || x.state.Done? then x else Lex(input, LexStep(input, x), n - 1)
  }

  lemma {:induction false} LexAdd(input: Bytes, x: Lx, n: nat, k: nat)
    ensures Lex(input, x, n + k) == Lex(input, Lex(input, x, n), k)
    decreases n
  {
    hide LexStep;
    if n > 0 && !x.state.Done? {
      LexAdd(input, LexStep(input, x), n - 1, k);
    } else if x.state.Done? {
      assert Lex(input, x, n) == x && Lex(input, x, k) == x && Lex(input, x, n + k) == x;
    }
  }

  // ----- what is already in the channel does not matter -----

  /** `x` with `pre` emitted before. */
  function Behind(x: Lx, pre: seq<Item>): Lx { x.(items := pre + x.items) }

  /** The items of `y` are those of `x`, and at most two more. */
  predicate Grows(x: Lx, y: Lx) { x.items <= y.items && |y.items| <= |x.items| + 2 }

  lemma EmittedBehind(input: Bytes, x: Lx, pre: seq<Item>, typ: ItemType)
    ensures Emitted(input, Behind(x, pre), typ) == Behind(Emitted(input, x, typ), pre)
    ensures Erred(input, Behind(x, pre)) == Behind(Erred(input, x), pre)
    ensures Popped(input, Behind(x, pre)) == Behind(Popped(input, x), pre)
    ensures |Emitted(input, x, typ).items| == |x.items| + 1 && x.items <= Emitted(input, x, typ).items
    ensures Grows(x, Erred(input, x)) && |Popped(input, x).items| <= |x.items| + 1 && x.items <= Popped(input, x).items
  {
    var it, no := Item(typ, Text(input, x.start, x.pos), LineAt(input, x.pos)),
        Item(ItemError, [], LineAt(input, x.pos));
    assert (pre + x.items) + [it] == pre + (x.items + [it]);
    assert (pre + x.items) + [no] == pre + (x.items + [no]);
  }

  lemma EndedBehind(input: Bytes, x: Lx, pre: seq<Item>, typ: ItemType, quoted: bool)
    ensures Ended(input, Behind(x, pre), typ, quoted) == Behind(Ended(input, x, typ, quoted), pre)
    ensures Grows(x, Ended(input, x, typ, quoted))
  {
    EmittedBehind(input, x, pre, typ);
    var e := Emitted(input, x, typ);
    var p := if quoted then Beyond(input, e.pos) else e.pos;
    EmittedBehind(input, e.(start := p, pos := p), pre, typ);
  }

  lemma {:induction false} DateBehind(input: Bytes, x: Lx, pre: seq<Item>, i: nat)
    requires i <= |DATE_FORMAT|
    ensures DateStep(input, Behind(x, pre), i) == Behind(DateStep(input, x, i), pre)
    ensures Grows(x, DateStep(input, x, i))
    decreases |DATE_FORMAT| - i
  {
    if i == |DATE_FORMAT| {
      EndedBehind(input, x, pre, ItemDatetime, false);
    } else {
      EmittedBehind(input, Past(input, x), pre, ItemError);
      DateBehind(input, Past(input, x), pre, i + 1);
    }
  }

  lemma ValueBehind(input: Bytes, x: Lx, pre: seq<Item>, v: ValueState)
    requires x.state == OfValue(v)
    ensures ValueStateStep(input, Behind(x, pre), v) == Behind(ValueStateStep(input, x, v), pre)
    ensures Grows(x, ValueStateStep(input, x, v))
  {
    hide Emitted, Erred, Popped, Ended;
    var m := Past(input, x);
    EmittedBehind(input, m, pre, ItemError);
    match v
    case AnyValue =>
      EmittedBehind(input, m.(start := m.pos), pre, ItemArrayStart);
      EmittedBehind(input, m.(start := m.pos), pre, ItemMapStart);
    case QuotedString => EndedBehind(input, x, pre, ItemString, true);
    case DubQuotedString => EndedBehind(input, x, pre, ItemString, true);
    case PlainString =>
      EndedBehind(input, x, pre, ItemString, true);
      EndedBehind(input, x, pre, ItemString, false);
      EndedBehind(input, x, pre, ItemBool, false);
    case Block =>
      EndedBehind(input, x, pre, ItemString, true);
      EndedBehind(input, m, pre, ItemString, true);
    case StringBinary => EmittedBehind(input, Past(input, m), pre, ItemError);
    case NumberOrDate => EndedBehind(input, x, pre, ItemInteger, false);
    case DateAfterYear => DateBehind(input, x, pre, 0);
    case Number => EndedBehind(input, x, pre, ItemInteger, false);
    case FloatRest => EndedBehind(input, x, pre, ItemFloat, false);
    case _ =>
  }

  lemma BracketEndBehind(input: Bytes, x: Lx, pre: seq<Item>)
    ensures BracketEndStep(input, Behind(x, pre)) == Behind(BracketEndStep(input, x), pre)
    ensures Grows(x, BracketEndStep(input, x))
  {
    hide Emitted, Erred, Popped, Ended;
    var typ := if x.state.OfArray? then ItemArrayEnd else ItemMapEnd;
    EmittedBehind(input, x.(start := x.pos), pre, typ);
    EmittedBehind(input, Emitted(input, x.(start := x.pos), typ), pre, typ);
  }

  lemma MapBehind(input: Bytes, x: Lx, pre: seq<Item>, s: MapState)
    requires x.state == OfMap(s)
    ensures MapStateStep(input, Behind(x, pre), s) == Behind(MapStateStep(input, x, s), pre)
    ensures Grows(x, MapStateStep(input, x, s))
  {
    hide Emitted, Erred, Popped, Ended;
    EmittedBehind(input, x, pre, ItemKey);
    EmittedBehind(input, Past(input, x), pre, ItemError);
    BracketEndBehind(input, x, pre);
  }

  lemma CommentBehind(input: Bytes, x: Lx, pre: seq<Item>)
    ensures CommentStartStep(input, Behind(x, pre)) == Behind(CommentStartStep(input, x), pre)
    ensures CommentStep(input, Behind(x, pre)) == Behind(CommentStep(input, x), pre)
    ensures Grows(x, CommentStartStep(input, x)) && Grows(x, CommentStep(input, x))
  {
    hide Emitted, Erred, Popped, Ended;
    EmittedBehind(input, x.(start := x.pos), pre, ItemCommentStart);
    EmittedBehind(input, x, pre, ItemText);
    EmittedBehind(input, Emitted(input, x, ItemText), pre, ItemText);
  }

  lemma StepBehind(input: Bytes, x: Lx, pre: seq<Item>)
    ensures LexStep(input, Behind(x, pre)) == Behind(LexStep(input, x), pre)
    ensures Grows(x, LexStep(input, x))
  {
    hide Emitted, Erred, Popped, Ended;
    var m := Past(input, x);
    match x.state
    case OfValue(v) => ValueBehind(input, x, pre, v);
    case OfMap(s) => MapBehind(input, x, pre, s);
    case OfComment(_) => CommentBehind(input, x, pre);
    case OfArray(_) =>
      BracketEndBehind(input, x, pre);
      EmittedBehind(input, m, pre, ItemError);
    case _ =>
      EmittedBehind(input, x, pre, ItemKey);
      EmittedBehind(input, m, pre, ItemEOF);
  }

  lemma {:induction false} LexGrows(input: Bytes, x: Lx, n: nat)
    ensures x.items <= Lex(input, x, n).items && |Lex(input, x, n).items| <= |x.items| + 2 * n
    decreases n
  {
    if n > 0 && !x.state.Done? {
      StepBehind(input, x, []);
      LexGrows(input, LexStep(input, x), n - 1);
    }
  }

  /** Once done, always done. */
  lemma LexStays(input: Bytes, x: Lx, n: nat, k: nat)
    requires n <= k
    ensures Lex(input, x, n).items <= Lex(input, x, k).items
    ensures Lex(input, x, n).state.Done? ==> Lex(input, x, k) == Lex(input, x, n)
  {
    LexAdd(input, x, n, k - n);
    LexGrows(input, Lex(input, x, n), k - n);
  }

  lemma LexNext(input: Bytes, x: Lx, n: nat)
    requires !Lex(input, x, n).state.Done?
    ensures Lex(input, x, n + 1) == LexStep(input, Lex(input, x, n))
  {
    var y := Lex(input, x, n);
    LexAdd(input, x, n, 1);
    assert Lex(input, y, 1) == Lex(input, LexStep(input, y), 0);
  }

  // ----- keys without a value -----

  /** lexMapValue meets the end of the map: the key before it gets no value. */
  predicate IsOrphan(input: Bytes, x: Lx) { x.state == OfKeyed(MapValue) && Rune(input, x.pos) == '}' }

  function Orphans(input: Bytes, x: Lx, n: nat): nat
    decreases n
  {
    if n == 0 || x.state.Done? then 0
    else (if IsOrphan(input, x) then 1 else 0) + Orphans(input, LexStep(input, x), n - 1)
  }

  lemma {:induction false} OrphansNext(input: Bytes, x: Lx, n: nat)
    requires !Lex(input, x, n).state.Done?
    ensures Orphans(input, x, n + 1) == Orphans(input, x, n) + if IsOrphan(input, Lex(input, x, n)) then 1 else 0
    decreases n
  {
    if n > 0 {
      assert x.state.Done? ==> Lex(input, x, n) == x;
      OrphansNext(input, LexStep(input, x), n - 1);
    } else {
      assert Orphans(input, LexStep(input, x), 0) == 0;
    }
  }

  /** Past the end there are no more. */
  lemma {:induction false} OrphansStay(input: Bytes, x: Lx, n: nat, k: nat)
    requires n <= k && Lex(input, x, n).state.Done?
    ensures Orphans(input, x, k) == Orphans(input, x, n)
    decreases n
  {
    hide IsOrphan, LexStep;
    if n > 0 && !x.state.Done? { OrphansStay(input, LexStep(input, x), n - 1, k - 1); }
  }

  function SkipBlank(input: Bytes, p: nat): nat
    decreases if p < |input| then |input| - p else 0
  {
    if p < |input| && (IsWhitespace(input[p]) || IsNL(input[p])) then SkipBlank(input, p + 1) else p
  }

  /** Where the value of a key that ends at `p` begins: behind blanks, newlines and one separator. */
  function ValueAt(input: Bytes, p: nat): nat {
    var q := SkipBlank(input, p);
    if q < |input| && IsKeySeparator(input[q]) then SkipBlank(input, q + 1) else q
  }

  /** Between a map key and what comes instead of its value, with '}' ahead. */
  predicate Pending(input: Bytes, s: LexState, p: nat) {
    match s
    case OfKeyed(MapKeyEnd) => Rune(input, ValueAt(input, p)) == '}'
    case OfKeyed(MapValue) => Rune(input, SkipBlank(input, p)) == '}'
    case Skip(OfKeyed(MapKeyEnd)) => Rune(input, ValueAt(input, p)) == '}'
    case Skip(OfKeyed(MapValue)) => Rune(input, SkipBlank(input, p)) == '}'
    case _ => false
  }

  /** A map key ends here, and '}' follows where its value should begin. */
  predicate IsDangling(input: Bytes, x: Lx) {
    x.state.OfMap? && var y := LexStep(input, x); Pending(input, y.state, y.pos)
  }

  function Danglings(input: Bytes, x: Lx, n: nat): nat
    decreases n
  {
    if n == 0 || x.state.Done? then 0
    else (if IsDangling(input, x) then 1 else 0) + Danglings(input, LexStep(input, x), n - 1)
  }

  function Ahead(input: Bytes, x: Lx): nat { if Pending(input, x.state, x.pos) then 1 else 0 }

  /** What the stack can hold, and what can be skipped to. */
  predicate Tame(x: Lx) {
    (forall k :: 0 <= k < |x.stack| ==> Returns(x.stack[k])) && (x.state.Skip? ==> !x.state.next.Skip?)
  }

  /** A state that is not behind a map key, and its stack. */
  predicate Away(x: Lx) { Tame(x) && !x.state.OfKeyed? && !(x.state.Skip? && x.state.next.OfKeyed?) }

  lemma AwayPops(input: Bytes, x: Lx, typ: ItemType, quoted: bool)
    requires Tame(x)
    ensures Away(Popped(input, x)) && Away(Ended(input, x, typ, quoted)) && Away(Erred(input, x).(stack := x.stack))
  {
  }

  lemma {:induction false} DateIsAway(input: Bytes, x: Lx, i: nat)
    requires Away(x) && i <= |DATE_FORMAT|
    ensures Away(DateStep(input, x, i))
    decreases |DATE_FORMAT| - i
  {
    if i < |DATE_FORMAT| {
      DateIsAway(input, Past(input, x), i + 1);
    } else {
      AwayPops(input, x, ItemDatetime, false);
    }
  }

  lemma ValueIsAway(input: Bytes, x: Lx, v: ValueState)
    requires Tame(x) && x.state == OfValue(v)
    ensures Away(ValueStateStep(input, x, v))
  {
    hide Ended;
    AwayPops(input, x, ItemString, true);
    AwayPops(input, x, ItemString, false);
    AwayPops(input, x, ItemBool, false);
    AwayPops(input, x, ItemInteger, false);
    AwayPops(input, x, ItemFloat, false);
    AwayPops(input, Past(input, x), ItemString, true);
    if v.DateAfterYear? { DateIsAway(input, x, 0); }
  }

  lemma BracketIsAway(input: Bytes, x: Lx)
    requires Tame(x)
    ensures Away(BracketEndStep(input, x))
  {
    AwayPops(input, Emitted(input, x.(start := x.pos), if x.state.OfArray? then ItemArrayEnd else ItemMapEnd), ItemEOF,
             false);
  }

  /** Steps from elsewhere do not lead behind a map key. */
  lemma StepIsAway(input: Bytes, x: Lx)
    requires Tame(x) && !x.state.Done?
    ensures Tame(LexStep(input, x))
    ensures !x.state.OfKeyed? && !x.state.OfMap? && !x.state.Skip? ==> Away(LexStep(input, x))
  {
    match x.state
    case OfValue(v) => ValueIsAway(input, x, v);
    case OfArray(_) => BracketIsAway(input, x);
    case OfMap(_) => BracketIsAway(input, x);
    case OfComment(_) => AwayPops(input, Emitted(input, x, ItemText), ItemEOF, false);
    case _ =>
  }

  /** On the way from a key to what follows it, what is ahead stays ahead. */
  lemma StepAhead(input: Bytes, x: Lx)
    requires Tame(x) && !x.state.Done?
    ensures (if IsOrphan(input, x) then 1 else 0) + Ahead(input, LexStep(input, x))
            == Ahead(input, x) + if IsDangling(input, x) then 1 else 0
  {
    StepIsAway(input, x);
    match x.state
    case OfKeyed(MapKeyEnd) => assert LexStep(input, x) == KeyEndStep(input, x);
    case OfKeyed(MapValue) => assert LexStep(input, x) == MapValueStep(input, x);
    case _ =>
  }

  lemma {:induction false} Balance(input: Bytes, x: Lx, n: nat)
    requires Tame(x)
    ensures Orphans(input, x, n) + Ahead(input, Lex(input, x, n)) == Ahead(input, x) + Danglings(input, x, n)
    decreases n
  {
    if n > 0 && !x.state.Done? {
      StepAhead(input, x);
      StepIsAway(input, x);
      Balance(input, LexStep(input, x), n - 1);
    }
  }

  /** Done, the keys left without a value are those that dangle. */
  lemma OrphansDangle(input: Bytes, n: nat)
    requires Lex(input, LEX_START, n).state.Done?
    ensures Orphans(input, LEX_START, n) == Danglings(input, LEX_START, n)
  {
    Balance(input, LEX_START, n);
  }

  /** The key that ends in step `k` dangles. */
  predicate Dangles(input: Bytes, x: Lx, k: nat) {
    var y := Lex(input, x, k); !y.state.Done? && IsDangling(input, y)
  }

  lemma {:induction false} NoneDangles(input: Bytes, x: Lx, n: nat)
    ensures Danglings(input, x, n) == 0 <==> forall k: nat :: k < n ==> !Dangles(input, x, k)
    decreases n
  {
    assert Lex(input, x, 0) == x;
    if n > 0 {
      assert Dangles(input, x, 0) <==> !x.state.Done? && IsDangling(input, x);
      if x.state.Done? {
        forall k: nat | k < n ensures !Dangles(input, x, k) { }
      } else {
        var y := LexStep(input, x);
        NoneDangles(input, y, n - 1);
        forall k: nat | 0 < k < n ensures Dangles(input, x, k) == Dangles(input, y, k - 1) { }
        forall k: nat | k < n - 1 ensures Dangles(input, y, k) == Dangles(input, x, k + 1) { }
      }
    }
  }
}
