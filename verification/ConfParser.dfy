/** The stack machine of conf/parse.go: items in, nested maps and arrays out. */
module ConfParser {
  import opened Base

  datatype ItemType =
    | ItemError | ItemNil | ItemEOF | ItemKey | ItemText | ItemString | ItemBool | ItemInteger | ItemFloat
    | ItemDatetime | ItemArrayStart | ItemArrayEnd | ItemMapStart | ItemMapEnd | ItemCommentStart

  datatype Item = Item(typ: ItemType, val: Bytes, line: int)

  datatype Value =
    | Str(s: Bytes) | Int(n: int) | Float(r: real) | Bool(b: bool) | Date(d: Bytes)
    | Arr(a: seq<Value>) | Map(m: map<Bytes, Value>)

  /** The conversions of the standard library. */
  datatype Env = Env(toInt: Bytes -> Option<int>, toFloat: Bytes -> Option<real>, toDate: Bytes -> Option<Bytes>)

  datatype Context = MapCtx(m: map<Bytes, Value>) | ArrCtx(a: seq<Value>) {
    function Val(): Value { match this case MapCtx(m) => Map(m) case ArrCtx(a) => Arr(a) }
  }

  /** The contexts, innermost last, and the pending keys. */
  datatype State = State(ctxs: seq<Context>, keys: seq<Bytes>)

  datatype Fault = BadItem | Panic

  function Last<T>(s: seq<T>): T requires s != [] { s[|s| - 1] }

  function Front<T>(s: seq<T>): seq<T> requires s != [] { s[..|s| - 1] }

  // ----- the machine, on values -----

  function SetValue(p: State, v: Value): Result<State, Fault> {
    if p.ctxs == [] then Err(Panic)
    else
      match Last(p.ctxs)
      case ArrCtx(a) => Ok(State(Front(p.ctxs) + [ArrCtx(a + [v])], p.keys))
      case MapCtx(m) =>
        if p.keys == [] then Err(Panic) else Ok(State(Front(p.ctxs) + [MapCtx(m[Last(p.keys) := v])], Front(p.keys)))
  }

  /** The value of an item that is a value by itself; None if it does not convert. */
  function Scalar(env: Env, it: Item): Option<Value> {
    match it.typ
    case ItemString => Some(Str(it.val))
    case ItemInteger => var n := env.toInt(it.val); if n.Some? then Some(Int(n.value)) else None
    case ItemFloat => var r := env.toFloat(it.val); if r.Some? then Some(Float(r.value)) else None
    case ItemBool =>
      if it.val == "true" then Some(Bool(true)) else if it.val == "false" then Some(Bool(false)) else None
    case ItemDatetime => var d := env.toDate(it.val); if d.Some? then Some(Date(d.value)) else None
    case _ => None
  }

  predicate IsScalar(typ: ItemType) {
    typ == ItemString || typ == ItemInteger || typ == ItemFloat || typ == ItemBool || typ == ItemDatetime
  }

  /** processItem. */
  function Process(env: Env, p: State, it: Item): Result<State, Fault> {
    match it.typ
    case ItemError => Err(BadItem)
    case ItemKey => Ok(p.(keys := p.keys + [it.val]))
    case ItemMapStart => Ok(p.(ctxs := p.ctxs + [MapCtx(map[])]))
    case ItemArrayStart => Ok(p.(ctxs := p.ctxs + [ArrCtx([])]))
    case ItemMapEnd => if |p.ctxs| < 2 then Err(Panic) else SetValue(p.(ctxs := Front(p.ctxs)), Last(p.ctxs).Val())
    case ItemArrayEnd => if |p.ctxs| < 2 then Err(Panic) else SetValue(p.(ctxs := Front(p.ctxs)), Last(p.ctxs).Val())
    case _ =>
      if IsScalar(it.typ) then
        var v := Scalar(env, it);
        if v.None? then Err(BadItem) else SetValue(p, v.value)
      else Ok(p)
  }

  function ProcessAll(env: Env, p: State, its: seq<Item>): Result<State, Fault>
    decreases |its|
  {
    if its == [] then Ok(p)
    else
      match Process(env, p, its[0])
      case Err(e) => Err(e)
      case Ok(q) => ProcessAll(env, q, its[1..])
  }

  lemma {:induction false} ProcessAppend(env: Env, p: State, a: seq<Item>, b: seq<Item>)
    ensures ProcessAll(env, p, a + b) ==
            match ProcessAll(env, p, a) case Err(e) => Err(e) case Ok(q) => ProcessAll(env, q, b)
    decreases |a|
  {
    if a == [] {
      assert a + b == b;
    } else {
      assert (a + b)[0] == a[0] && (a + b)[1..] == a[1..] + b;
      match Process(env, p, a[0])
      case Err(_) =>
      case Ok(q) => ProcessAppend(env, q, a[1..], b);
    }
  }

  /** How parsing ends; `Unfinished` while the last item is still to come. */
  datatype Outcome = Parsed(m: map<Bytes, Value>) | Failed | Unfinished

  /** What parse makes of the items. */
  function Consume(env: Env, p: State, its: seq<Item>): Outcome
    decreases |its|
  {
    if its == [] || p.ctxs == [] then Unfinished
    else if its[0].typ.ItemEOF? then (if p.ctxs[0].MapCtx? then Parsed(p.ctxs[0].m) else Failed)
    else
      match Process(env, p, its[0])
      case Err(_) => Failed
      case Ok(q) => Consume(env, q, its[1..])
  }

  predicate NoEOF(its: seq<Item>) { forall k :: 0 <= k < |its| ==> !its[k].typ.ItemEOF? }

  lemma {:induction false} ConsumeOn(env: Env, p: State, a: seq<Item>, b: seq<Item>)
    requires NoEOF(a)
    requires ProcessAll(env, p, a).Ok? && ProcessAll(env, p, a).value.ctxs != []
    requires p.ctxs != []
    ensures Consume(env, p, a + b) == Consume(env, ProcessAll(env, p, a).value, b)
    decreases |a|
  {
    if a == [] {
      assert a + b == b;
    } else {
      assert (a + b)[0] == a[0] && (a + b)[1..] == a[1..] + b;
      ConsumeOn(env, Process(env, p, a[0]).value, a[1..], b);
    }
  }

  lemma KeepsContexts(env: Env, p: State, it: Item)
    requires p.ctxs != [] && Process(env, p, it).Ok?
    ensures Process(env, p, it).value.ctxs != []
  {
  }

  lemma {:induction false} ConsumeFails(env: Env, p: State, a: seq<Item>, b: seq<Item>)
    requires NoEOF(a) && p.ctxs != [] && ProcessAll(env, p, a) == Err(BadItem)
    ensures Consume(env, p, a + b) == Failed
    decreases |a|
  {
    hide Process;
    assert (a + b)[0] == a[0] && (a + b)[1..] == a[1..] + b;
    if Process(env, p, a[0]).Ok? {
      var q := Process(env, p, a[0]).value;
      KeepsContexts(env, p, a[0]);
      ConsumeFails(env, q, a[1..], b);
    }
  }

  lemma ProcessOne(env: Env, p: State, it: Item)
    ensures ProcessAll(env, p, [it]) == Process(env, p, it)
  {
    assert [it][1..] == [];
  }

  // ----- trees -----

  /** How a string or a key is written: in quotes of either kind, as it is, or between parentheses; as it
      is with a single quote behind it, or with a slash before it. */
  datatype Style = InDouble | InSingle | AsIs | InBlock | QuoteBehind | SlashBefore

  /** A value that is written by itself.  The texts of numbers, fractions and dates are those read by the
      conversions. */
  datatype Lit =
    | Words(s: Bytes, style: Style) | Truth(b: bool, upper: bool) | Whole(digits: Bytes) | Fraction(digits: Bytes)
    | Moment(date: Bytes)

  /** A key, and what stands between it and its value: blanks, a separator, and blanks. */
  datatype Key = Key(name: Bytes, style: Style, left: Bytes, sep: char, right: Bytes)

  /** What is passed over: blanks and newlines, or a line of comment. */
  datatype Filler = Gap(gap: Bytes) | Remark(text: Bytes, slashes: bool)

  /** What comes behind a value: a byte that ends it, a comment, or nothing. */
  datatype End = NoEnd | Stop(blanks: Bytes, c: char) | Note(blanks: Bytes, text: Bytes, slashes: bool)

  /** A nested value as it is written down. */
  datatype Tree = Leaf(lit: Lit) | Array(elems: Trees) | Object(fields: Fields)

  datatype Trees = NoTree | Elem(head: Tree, end: End, tail: Trees) | ElemFill(fill: Filler, tail: Trees)

  datatype Fields =
    | NoField | Field(key: Key, value: Tree, end: End, rest: Fields) | FieldFill(fill: Filler, rest: Fields)

  predicate LitConverts(env: Env, l: Lit) {
    match l
    case Whole(digits) => env.toInt(digits).Some?
    case Fraction(digits) => env.toFloat(digits).Some?
    case Moment(date) => env.toDate(date).Some?
    case Truth(_, upper) => !upper
    case Words(_, _) => true
  }

  /** The value written. */
  function LitValue(env: Env, l: Lit): Value
    requires LitConverts(env, l)
  {
    match l
    case Words(s, _) => Str(s)
    case Truth(b, _) => Bool(b)
    case Whole(digits) => Int(env.toInt(digits).value)
    case Fraction(digits) => Float(env.toFloat(digits).value)
    case Moment(date) => Date(env.toDate(date).value)
  }

  predicate Converts(env: Env, t: Tree) {
    match t
    case Leaf(l) => LitConverts(env, l)
    case Array(elems) => AllConvert(env, elems)
    case Object(fields) => FieldsConvert(env, fields)
  }

  predicate AllConvert(env: Env, ts: Trees) {
    match ts
    case NoTree => true
    case Elem(head, _, tail) => Converts(env, head) && AllConvert(env, tail)
    case ElemFill(_, tail) => AllConvert(env, tail)
  }

  predicate FieldsConvert(env: Env, fs: Fields) {
    match fs
    case NoField => true
    case Field(_, value, _, rest) => Converts(env, value) && FieldsConvert(env, rest)
    case FieldFill(_, rest) => FieldsConvert(env, rest)
  }

  function Mark(typ: ItemType): Item { Item(typ, [], 0) }

  function TruthText(b: bool, upper: bool): Bytes {
    if upper then (if b then "TRUE" else "FALSE") else if b then "true" else "false"
  }

  /** The item a value by itself is written with. */
  function LitItem(l: Lit): Item {
    match l
    case Words(s, _) => Item(ItemString, s, 0)
    case Truth(b, upper) => Item(ItemBool, TruthText(b, upper), 0)
    case Whole(digits) => Item(ItemInteger, digits, 0)
    case Fraction(digits) => Item(ItemFloat, digits, 0)
    case Moment(date) => Item(ItemDatetime, date, 0)
  }

  /** The items the tree is written with. */
  function Items(t: Tree): seq<Item> {
    match t
    case Leaf(l) => [LitItem(l)]
    case Array(elems) => [Mark(ItemArrayStart)] + (ElemItems(elems) + [Mark(ItemArrayEnd)])
    case Object(fields) => [Mark(ItemMapStart)] + (FieldItems(fields) + [Mark(ItemMapEnd)])
  }

  function ElemItems(ts: Trees): seq<Item> {
    match ts
    case NoTree => []
    case Elem(head, end, tail) => Items(head) + (EndItems(end) + ElemItems(tail))
    case ElemFill(fill, tail) => FillItems(fill) + ElemItems(tail)
  }

  function RemarkItems(text: Bytes): seq<Item> { [Mark(ItemCommentStart), Item(ItemText, text, 0)] }

  function FillItems(f: Filler): seq<Item> { if f.Remark? then RemarkItems(f.text) else [] }

  function EndItems(e: End): seq<Item> { if e.Note? then RemarkItems(e.text) else [] }

  function FieldItems(fs: Fields): seq<Item> {
    match fs
    case NoField => []
    case Field(key, value, end, rest) =>
      [Item(ItemKey, key.name, 0)] + (Items(value) + (EndItems(end) + FieldItems(rest)))
    case FieldFill(fill, rest) => FillItems(fill) + FieldItems(rest)
  }

  /** The value the tree stands for. */
  function Denote(env: Env, t: Tree): Value
    requires Converts(env, t)
    decreases t
  {
    match t
    case Leaf(l) => LitValue(env, l)
    case Array(elems) => Arr(DenoteElems(env, elems))
    case Object(fields) => Map(DenoteFields(env, map[], fields))
  }

  function DenoteElems(env: Env, ts: Trees): seq<Value>
    requires AllConvert(env, ts)
    decreases ts
  {
    match ts
    case NoTree => []
    case Elem(head, _, tail) => [Denote(env, head)] + DenoteElems(env, tail)
    case ElemFill(_, tail) => DenoteElems(env, tail)
  }

  function DenoteFields(env: Env, m: map<Bytes, Value>, fs: Fields): map<Bytes, Value>
    requires FieldsConvert(env, fs)
    decreases fs
  {
    match fs
    case NoField => m
    case Field(key, value, _, rest) => DenoteFields(env, m[key.name := Denote(env, value)], rest)
    case FieldFill(_, rest) => DenoteFields(env, m, rest)
  }

  /** A value can be set: there is a context, and in a map a key. */
  predicate Ready(p: State) { p.ctxs != [] && (Last(p.ctxs).MapCtx? ==> p.keys != []) }

  function Set(p: State, v: Value): State
    requires Ready(p)
  {
    SetValue(p, v).value
  }

  lemma {:induction false} Rebuilds(env: Env, p: State, t: Tree)
    requires Ready(p) && Converts(env, t)
    ensures ProcessAll(env, p, Items(t)) == Ok(Set(p, Denote(env, t)))
    decreases t
  {
    hide ElemItems, FieldItems, DenoteElems, DenoteFields, ProcessAll;
    match t
    case Leaf(l) => ProcessOne(env, p, LitItem(l));
    case Array(elems) =>
      var q := p.(ctxs := p.ctxs + [ArrCtx([])]);
      RebuildsElems(env, q, [], elems);
      var a := DenoteElems(env, elems);
      assert [] + a == a;
      Wrapped(env, p, ArrCtx([]), ArrCtx(a), ElemItems(elems));
    case Object(fields) =>
      var q := p.(ctxs := p.ctxs + [MapCtx(map[])]);
      RebuildsFields(env, q, map[], fields);
      Wrapped(env, p, MapCtx(map[]), MapCtx(DenoteFields(env, map[], fields)), FieldItems(fields));
  }

  /** What does not convert is refused; so are TRUE and FALSE, which the lexer takes for booleans. */
  lemma LeafRefused(env: Env, p: State, l: Lit)
    requires !LitConverts(env, l)
    ensures ProcessAll(env, p, [LitItem(l)]) == Err(BadItem)
  {
    ProcessOne(env, p, LitItem(l));
    if l.Truth? { assert TruthText(l.b, l.upper)[0] != "true"[0] && TruthText(l.b, l.upper)[0] != "false"[0]; }
  }

  /** Items between brackets: a context is pushed, filled, popped and set. */
  lemma Wrapped(env: Env, p: State, empty: Context, c: Context, its: seq<Item>)
    requires p.ctxs != [] && empty.ArrCtx? == c.ArrCtx? && empty == if c.ArrCtx? then ArrCtx([]) else MapCtx(map[])
    requires ProcessAll(env, p.(ctxs := p.ctxs + [empty]), its) ==
             Ok(State(Front(p.ctxs + [empty]) + [c], p.keys))
    ensures var open := Mark(if c.ArrCtx? then ItemArrayStart else ItemMapStart);
            var close := Mark(if c.ArrCtx? then ItemArrayEnd else ItemMapEnd);
            ProcessAll(env, p, [open] + (its + [close])) == SetValue(p, c.Val())
  {
    hide SetValue;
    var open := Mark(if c.ArrCtx? then ItemArrayStart else ItemMapStart);
    var close := Mark(if c.ArrCtx? then ItemArrayEnd else ItemMapEnd);
    var q, r := p.(ctxs := p.ctxs + [empty]), p.(ctxs := p.ctxs + [c]);
    assert Front(q.ctxs) == p.ctxs == Front(r.ctxs);
    assert Process(env, p, open) == Ok(q) && Process(env, r, close) == SetValue(p, c.Val());
    hide Process;
    ProcessAppend(env, q, its, [close]);
    ProcessOne(env, r, close);
    assert ([open] + (its + [close]))[1..] == its + [close];
  }

  lemma {:induction false} RebuildsElems(env: Env, p: State, a: seq<Value>, ts: Trees)
    requires p.ctxs != [] && Last(p.ctxs) == ArrCtx(a) && AllConvert(env, ts)
    ensures ProcessAll(env, p, ElemItems(ts)) == Ok(p.(ctxs := Front(p.ctxs) + [ArrCtx(a + DenoteElems(env, ts))]))
    decreases ts
  {
    match ts
    case NoTree =>
      assert a + [] == a;
      assert p.ctxs == Front(p.ctxs) + [Last(p.ctxs)];
    case Elem(head, end, tail) =>
      var v := Denote(env, head);
      var q := Set(p, v);
      Rebuilds(env, p, head);
      assert Front(q.ctxs) == Front(p.ctxs) && Last(q.ctxs) == ArrCtx(a + [v]);
      EndIgnored(env, q, end);
      RebuildsElems(env, q, a + [v], tail);
      ProcessAppend(env, p, Items(head), EndItems(end) + ElemItems(tail));
      ProcessAppend(env, q, EndItems(end), ElemItems(tail));
      AppendOne(a, v, DenoteElems(env, tail));
    case ElemFill(fill, tail) =>
      FillIgnored(env, p, fill);
      RebuildsElems(env, p, a, tail);
      ProcessAppend(env, p, FillItems(fill), ElemItems(tail));
  }

  lemma AppendOne<T>(a: seq<T>, v: T, rest: seq<T>)
    ensures a + [v] + rest == a + ([v] + rest)
  {
  }

  lemma {:induction false} RebuildsFields(env: Env, p: State, m: map<Bytes, Value>, fs: Fields)
    requires p.ctxs != [] && Last(p.ctxs) == MapCtx(m) && FieldsConvert(env, fs)
    ensures ProcessAll(env, p, FieldItems(fs)) == Ok(p.(ctxs := Front(p.ctxs) + [MapCtx(DenoteFields(env, m, fs))]))
    decreases fs
  {
    match fs
    case NoField => assert p.ctxs == Front(p.ctxs) + [Last(p.ctxs)];
    case Field(key, value, end, rest) =>
      var it, k := Item(ItemKey, key.name, 0), p.(keys := p.keys + [key.name]);
      var v := Denote(env, value);
      var q := Set(k, v);
      Rebuilds(env, k, value);
      assert q == p.(ctxs := Front(p.ctxs) + [MapCtx(m[key.name := v])]);
      EndIgnored(env, q, end);
      RebuildsFields(env, q, m[key.name := v], rest);
      var tail := EndItems(end) + FieldItems(rest);
      ProcessAppend(env, k, Items(value), tail);
      ProcessAppend(env, q, EndItems(end), FieldItems(rest));
      assert ([it] + (Items(value) + tail))[1..] == Items(value) + tail;
      assert Front(q.ctxs) == Front(p.ctxs);
    case FieldFill(fill, rest) =>
      FillIgnored(env, p, fill);
      RebuildsFields(env, p, m, rest);
      ProcessAppend(env, p, FillItems(fill), FieldItems(rest));
  }

  lemma RemarkIgnored(env: Env, p: State, text: Bytes)
    ensures ProcessAll(env, p, RemarkItems(text)) == Ok(p)
  {
    ProcessOne(env, p, Item(ItemText, text, 0));
    assert RemarkItems(text)[1..] == [Item(ItemText, text, 0)];
  }

  lemma EndIgnored(env: Env, p: State, end: End)
    ensures ProcessAll(env, p, EndItems(end)) == Ok(p)
  {
    if end.Note? { RemarkIgnored(env, p, end.text); }
  }

  lemma FillIgnored(env: Env, p: State, fill: Filler)
    ensures ProcessAll(env, p, FillItems(fill)) == Ok(p)
  {
    if fill.Remark? { RemarkIgnored(env, p, fill.text); }
  }

  /** One value that does not convert is enough, wherever it stands. */
  lemma {:induction false} Refused(env: Env, p: State, t: Tree)
    requires Ready(p) && !Converts(env, t)
    ensures ProcessAll(env, p, Items(t)) == Err(BadItem)
    decreases t
  {
    hide ElemItems, FieldItems, ProcessAll;
    match t
    case Leaf(l) => LeafRefused(env, p, l);
    case Array(elems) =>
      var q := p.(ctxs := p.ctxs + [ArrCtx([])]);
      RefusedElem(env, q, elems);
      RefusedInside(env, p, q, Mark(ItemArrayStart), ElemItems(elems), Mark(ItemArrayEnd));
    case Object(fields) =>
      var q := p.(ctxs := p.ctxs + [MapCtx(map[])]);
      RefusedField(env, q, fields);
      RefusedInside(env, p, q, Mark(ItemMapStart), FieldItems(fields), Mark(ItemMapEnd));
  }

  lemma RefusedInside(env: Env, p: State, q: State, open: Item, its: seq<Item>, close: Item)
    requires Process(env, p, open) == Ok(q) && ProcessAll(env, q, its) == Err(BadItem)
    ensures ProcessAll(env, p, [open] + (its + [close])) == Err(BadItem)
  {
    ProcessAppend(env, q, its, [close]);
    assert ([open] + (its + [close]))[1..] == its + [close];
  }

  lemma {:induction false} RefusedElem(env: Env, p: State, ts: Trees)
    requires p.ctxs != [] && Last(p.ctxs).ArrCtx? && !AllConvert(env, ts)
    ensures ProcessAll(env, p, ElemItems(ts)) == Err(BadItem)
    decreases ts
  {
    match ts
    case NoTree =>
    case Elem(head, end, tail) =>
      ProcessAppend(env, p, Items(head), EndItems(end) + ElemItems(tail));
      if Converts(env, head) {
        var q := Set(p, Denote(env, head));
        Rebuilds(env, p, head);
        EndIgnored(env, q, end);
        RefusedElem(env, q, tail);
        ProcessAppend(env, q, EndItems(end), ElemItems(tail));
      } else {
        Refused(env, p, head);
      }
    case ElemFill(fill, tail) =>
      FillIgnored(env, p, fill);
      RefusedElem(env, p, tail);
      ProcessAppend(env, p, FillItems(fill), ElemItems(tail));
  }

  lemma {:induction false} RefusedField(env: Env, p: State, fs: Fields)
    requires p.ctxs != [] && Last(p.ctxs).MapCtx? && !FieldsConvert(env, fs)
    ensures ProcessAll(env, p, FieldItems(fs)) == Err(BadItem)
    decreases fs
  {
    match fs
    case NoField =>
    case Field(key, value, end, rest) =>
      var it, k := Item(ItemKey, key.name, 0), p.(keys := p.keys + [key.name]);
      var tail := EndItems(end) + FieldItems(rest);
      ProcessAppend(env, k, Items(value), tail);
      assert ([it] + (Items(value) + tail))[1..] == Items(value) + tail;
      if Converts(env, value) {
        var q := Set(k, Denote(env, value));
        Rebuilds(env, k, value);
        EndIgnored(env, q, end);
        RefusedField(env, q, rest);
        ProcessAppend(env, q, EndItems(end), FieldItems(rest));
      } else {
        Refused(env, k, value);
      }
    case FieldFill(fill, rest) =>
      FillIgnored(env, p, fill);
      RefusedField(env, p, rest);
      ProcessAppend(env, p, FillItems(fill), FieldItems(rest));
  }

  const START := State([MapCtx(map[])], [])

  /** The machine rebuilds the tree from its items, and leaves the root context alone and no
      pending keys. */
  lemma RebuildsRoot(env: Env, fs: Fields)
    requires FieldsConvert(env, fs)
    ensures ProcessAll(env, START, FieldItems(fs)) == Ok(State([MapCtx(DenoteFields(env, map[], fs))], []))
  {
    RebuildsFields(env, START, map[], fs);
    var c := MapCtx(DenoteFields(env, map[], fs));
    assert Front(START.ctxs) + [c] == [c];
  }

  predicate HasKey(fs: Fields, key: Bytes) {
    match fs
    case NoField => false
    case Field(k, _, _, rest) => k.name == key || HasKey(rest, key)
    case FieldFill(_, rest) => HasKey(rest, key)
  }

  predicate DistinctKeys(fs: Fields) {
    match fs
    case NoField => true
    case Field(k, _, _, rest) => !HasKey(rest, k.name) && DistinctKeys(rest)
    case FieldFill(_, rest) => DistinctKeys(rest)
  }

  /** With distinct keys no field is lost: each key has the value written behind it. */
  lemma {:induction false} FieldsKept(env: Env, m: map<Bytes, Value>, fs: Fields, key: Bytes)
    requires FieldsConvert(env, fs) && DistinctKeys(fs)
    ensures var d := DenoteFields(env, m, fs);
            && (key in d <==> key in m || HasKey(fs, key))
            && (!HasKey(fs, key) && key in m ==> d[key] == m[key])
            && (fs.Field? && key == fs.key.name ==> d[key] == Denote(env, fs.value))
    decreases fs
  {
    match fs
    case NoField =>
    case Field(k, value, _, rest) => FieldsKept(env, m[k.name := Denote(env, value)], rest, key);
    case FieldFill(_, rest) => FieldsKept(env, m, rest, key);
  }

  /** "a={foo=}": the key without a value stays behind, takes the map, and leaves "a" pending. */
  lemma KeyLeftBehind(env: Env)
    ensures ProcessAll(env, START, [Item(ItemKey, "a", 1), Mark(ItemMapStart), Item(ItemKey, "foo", 1),
                                    Mark(ItemMapEnd)]) ==
            Ok(State([MapCtx(map["foo" := Map(map[])])], ["a"]))
  {
    var a, foo := Item(ItemKey, "a", 1), Item(ItemKey, "foo", 1);
    var root := MapCtx(map[]);
    var p1, p2 := State([root], ["a"]), State([root, root], ["a"]);
    var p3, p4 := State([root, root], ["a", "foo"]), State([MapCtx(map["foo" := Map(map[])])], ["a"]);
    assert Process(env, START, a) == Ok(p1) by { assert [] + ["a"] == ["a"]; }
    assert Process(env, p1, Mark(ItemMapStart)) == Ok(p2) by { assert [root] + [root] == [root, root]; }
    assert Process(env, p2, foo) == Ok(p3) by { assert ["a"] + ["foo"] == ["a", "foo"]; }
    assert Process(env, p3, Mark(ItemMapEnd)) == Ok(p4) by {
      assert Front(p3.ctxs) == [root] && Front(p3.keys) == ["a"];
      var c := MapCtx(map["foo" := Map(map[])]);
      assert root.m["foo" := Map(map[])] == c.m && Front([root]) + [c] == [c];
    }
    ProcessOne(env, p3, Mark(ItemMapEnd));
    assert [foo, Mark(ItemMapEnd)][1..] == [Mark(ItemMapEnd)];
    assert [Mark(ItemMapStart), foo, Mark(ItemMapEnd)][1..] == [foo, Mark(ItemMapEnd)];
    assert [a, Mark(ItemMapStart), foo, Mark(ItemMapEnd)][1..] == [Mark(ItemMapStart), foo, Mark(ItemMapEnd)];
  }

  // ----- the object -----

  lemma SetLast<T>(s: seq<T>, x: T)
    requires s != []
    ensures s[|s| - 1 := x] == Front(s) + [x]
  {
  }

  class Parser {
    var ctx: Context
    var ctxs: seq<Context>
    var keys: seq<Bytes>

    constructor ()
      ensures Valid() && View() == START
    {
      ctx, ctxs, keys := MapCtx(map[]), [MapCtx(map[])], [];
    }

    ghost predicate Valid()
      reads this
    {
      ctxs != [] && ctx == Last(ctxs)
    }

    ghost function View(): State
      reads this
    {
      State(ctxs, keys)
    }

    method PushContext(c: Context)
      requires Valid()
      modifies this`ctx, this`ctxs
      ensures Valid() && ctxs == old(ctxs) + [c]
    {
      ctxs := ctxs + [c];
      ctx := c;
    }

    method PopContext() returns (last: Context)
      requires Valid() && |ctxs| >= 2
      modifies this`ctx, this`ctxs
      ensures Valid() && last == Last(old(ctxs)) && ctxs == Front(old(ctxs))
    {
      var li := |ctxs| - 1;
      last := ctxs[li];
      ctxs := ctxs[..li];
      ctx := ctxs[|ctxs| - 1];
    }

    method PushKey(key: Bytes)
      modifies this`keys
      ensures keys == old(keys) + [key]
    {
      keys := keys + [key];
    }

    method PopKey() returns (last: Bytes)
      requires keys != []
      modifies this`keys
      ensures last == Last(old(keys)) && keys == Front(old(keys))
    {
      var li := |keys| - 1;
      last := keys[li];
      keys := keys[..li];
    }

    method SetVal(val: Value)
      requires Valid() && SetValue(View(), val).Ok?
      modifies this
      ensures Valid() && Ok(View()) == SetValue(old(View()), val)
    {
      match ctx
      case ArrCtx(a) =>
        ctx := ArrCtx(a + [val]);
        SetLast(ctxs, ctx);
        ctxs := ctxs[|ctxs| - 1 := ctx];
      case MapCtx(m) =>
        var key := PopKey();
        ctx := MapCtx(m[key := val]);
        SetLast(ctxs, ctx);
        ctxs := ctxs[|ctxs| - 1 := ctx];
    }

    /** processItem, where it does not panic. */
    method ProcessItem(env: Env, it: Item) returns (ok: bool)
      requires Valid() && Process(env, View(), it) != Err(Panic)
      modifies this
      ensures Valid() && ok == Process(env, old(View()), it).Ok?
      ensures View() == if ok then Process(env, old(View()), it).value else old(View())
    {
      ok := true;
      match it.typ
      case ItemError => ok := false;
      case ItemKey => PushKey(it.val);
      case ItemMapStart => PushContext(MapCtx(map[]));
      case ItemMapEnd =>
        var m := PopContext();
        SetVal(m.Val());
      case ItemArrayStart => PushContext(ArrCtx([]));
      case ItemArrayEnd =>
        var whole := ctx;
        var popped := PopContext();
        SetVal(whole.Val());
      case ItemString => SetVal(Str(it.val));
      case ItemInteger =>
        var num := env.toInt(it.val);
        if num.None? {
          return false;
        }
        SetVal(Int(num.value));
      case ItemFloat =>
        var num := env.toFloat(it.val);
        if num.None? {
          return false;
        }
        SetVal(Float(num.value));
      case ItemBool =>
        if it.val == "true" {
          SetVal(Bool(true));
        } else if it.val == "false" {
          SetVal(Bool(false));
        } else {
          ok := false;
        }
      case ItemDatetime =>
        var dt := env.toDate(it.val);
        if dt.None? {
          return false;
        }
        SetVal(Date(dt.value));
      case _ =>
    }
  }
}
