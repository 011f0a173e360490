/** Configurations written out from the values they are to have, and the values read back. */
module ConfValues {
  import opened Base
  import opened Args
  import opened ConfParser
  import opened LexSteps
  import opened ConfText
  import opened ConfTrees

  /** A whole number in decimal, with its sign. */
  function IntText(n: int): Bytes { if n < 0 then ['-'] + Decimal(-n) else Decimal(n) }

  /** Double quotes, unless the text has one. */
  function QuoteFor(s: Bytes): Style { if '"' in s then InSingle else InDouble }

  function KeyIn(name: Bytes, style: Style): Key { Key(name, style, [], ':', [' ']) }

  /** No quotes, where none are needed. */
  function KeyFor(name: Bytes): Key {
    KeyIn(name, if KeyWritable(KeyIn(name, AsIs), InBraces) then AsIs else QuoteFor(name))
  }

  ghost predicate FloatWith(env: Env, t: Bytes, r: real) { IsFraction(t) && env.toFloat(t) == Some(r) }

  ghost predicate DateWith(env: Env, t: Bytes, d: Bytes) { IsMoment(t) && env.toDate(t) == Some(d) }

  /** The values with a text: numbers and dates the conversions can give, strings and keys without quotes
      of one of the two kinds. */
  ghost predicate Spellable(env: Env, v: Value) {
    match v
    case Str(s) => Writable(QuoteFor(s), s)
    case Int(n) => env.toInt(IntText(n)) == Some(n)
    case Float(r) => exists t :: FloatWith(env, t, r)
    case Bool(_) => true
    case Date(d) => exists t :: DateWith(env, t, d)
    case Arr(a) => forall i :: 0 <= i < |a| ==> Spellable(env, a[i])
    case Map(m) => forall k :: k in m ==> KeyWritable(KeyFor(k), InBraces) && Spellable(env, m[k])
  }

  /** The value written down: strings in quotes, elements with commas, fields on lines of their own. */
  ghost function Written(env: Env, v: Value): Tree
    requires Spellable(env, v)
    decreases v, 1, 0
  {
    match v
    case Str(s) => Leaf(Words(s, QuoteFor(s)))
    case Int(n) => Leaf(Whole(IntText(n)))
    case Float(r) => var t :| FloatWith(env, t, r); Leaf(Fraction(t))
    case Bool(b) => Leaf(Truth(b, false))
    case Date(d) => var t :| DateWith(env, t, d); Leaf(Moment(t))
    case Arr(_) => Array(WrittenElems(env, v, 0))
    case Map(m) => Object(WrittenFields(env, v, m.Keys))
  }

  ghost function WrittenElems(env: Env, v: Value, i: nat): Trees
    requires v.Arr? && i <= |v.a| && Spellable(env, v)
    decreases v, 0, |v.a| - i
  {
    if i == |v.a| then NoTree else Elem(Written(env, v.a[i]), Stop([' '], ','), WrittenElems(env, v, i + 1))
  }

  /** The fields with these keys, in some order. */
  ghost function WrittenFields(env: Env, v: Value, keys: set<Bytes>): Fields
    requires v.Map? && keys <= v.m.Keys && Spellable(env, v)
    decreases v, 0, |keys|
  {
    if keys == {} then NoField
    else
      var k :| k in keys;
      Field(KeyFor(k), Written(env, v.m[k]), Stop([], '\n'), WrittenFields(env, v, keys - {k}))
  }

  /** Strings have quotes of one of the two kinds. */
  predicate InQuotes(t: Tree) { t.Leaf? && t.lit.Words? ==> t.lit.style == InDouble || t.lit.style == InSingle }

  lemma DecimalIsInteger(n: int)
    ensures IsInteger(IntText(n))
  {
    if n < 0 { assert Unsigned(IntText(n)) == Decimal(-n); }
    else { assert IsDigit(Decimal(n)[0]); }
  }

  lemma {:induction false} WrittenBack(env: Env, v: Value)
    requires Spellable(env, v)
    ensures var t := Written(env, v);
            Printable(t) && InQuotes(t) && Converts(env, t) && Denote(env, t) == v
    decreases v, 1, 0
  {
    match v
    case Int(n) => DecimalIsInteger(n);
    case Arr(a) =>
      ElemsBack(env, v, 0);
      assert a[0..] == a;
    case Map(m) =>
      FieldsBack(env, v, m.Keys, map[], InBraces);
      PartOfAll(map[], m);
    case _ =>
  }

  lemma {:induction false} ElemsBack(env: Env, v: Value, i: nat)
    requires v.Arr? && i <= |v.a| && Spellable(env, v)
    ensures var ts := WrittenElems(env, v, i);
            AllPrintable(ts) && AllConvert(env, ts) && DenoteElems(env, ts) == v.a[i..]
    decreases v, 0, |v.a| - i
  {
    if i < |v.a| {
      WrittenBack(env, v.a[i]);
      StartsAnywhere(Written(env, v.a[i]), InBrackets, ',');
      ElemsBack(env, v, i + 1);
      assert v.a[i..] == [v.a[i]] + v.a[i + 1..];
    }
  }

  function Part(m: map<Bytes, Value>, keys: set<Bytes>): map<Bytes, Value>
    requires keys <= m.Keys
  {
    map k | k in keys :: m[k]
  }

  lemma PartWith(into: map<Bytes, Value>, m: map<Bytes, Value>, keys: set<Bytes>, k: Bytes)
    requires keys <= m.Keys && k in keys
    ensures into[k := m[k]] + Part(m, keys - {k}) == into + Part(m, keys)
  {
  }

  lemma PartOfAll(into: map<Bytes, Value>, m: map<Bytes, Value>)
    ensures into + Part(m, {}) == into && map[] + Part(m, m.Keys) == m
  {
  }

  lemma FirstField(env: Env, v: Value, keys: set<Bytes>) returns (k: Bytes)
    requires v.Map? && keys <= v.m.Keys && Spellable(env, v) && keys != {}
    ensures k in keys
    ensures WrittenFields(env, v, keys) ==
            Field(KeyFor(k), Written(env, v.m[k]), Stop([], '\n'), WrittenFields(env, v, keys - {k}))
  {
    hide Written, KeyWritable, QuoteFor;
    k := WrittenFields(env, v, keys).key.name;
  }

  lemma {:induction false} FieldsBack(env: Env, v: Value, keys: set<Bytes>, into: map<Bytes, Value>, region: Region)
    requires !region.InBrackets? && v.Map? && keys <= v.m.Keys && Spellable(env, v)
    ensures var fs := WrittenFields(env, v, keys);
            && FieldsPrintable(fs, region) && FieldsConvert(env, fs)
            && DenoteFields(env, into, fs) == into + Part(v.m, keys)
    decreases v, 0, |keys|
  {
    hide Part, Written, KeyWritable, KeyFor, Printable, Converts, Denote, Starts, EndPrintable;
    if keys == {} {
      PartOfAll(into, v.m);
    } else {
      var k := FirstField(env, v, keys);
      WrittenBack(env, v.m[k]);
      KeyForIs(k);
      StartsAnywhere(Written(env, v.m[k]), region, ':');
      NewlineEnds(Written(env, v.m[k]), region, WrittenFields(env, v, keys - {k}).NoField?);
      assert region == OnTop || region == InBraces;
      FieldsBack(env, v, keys - {k}, into[k := v.m[k]], region);
      PartWith(into, v.m, keys, k);
    }
  }

  lemma NewlineEnds(t: Tree, region: Region, last: bool)
    ensures EndPrintable(t, Stop([], '\n'), region, last)
  {
    assert EndsWord('\n') && EndsNumber('\n') && [] + ['\n'] == ['\n'];
  }

  lemma KeyForIs(k: Bytes)
    ensures KeyFor(k).name == k && KeyFor(k).sep == ':'
    ensures KeyWritable(KeyFor(k), InBraces) ==> KeyWritable(KeyFor(k), OnTop)
  {
  }

  /** The text of a configuration with these values. */
  ghost function ConfigText(env: Env, m: map<Bytes, Value>): Bytes
    requires Spellable(env, Map(m))
  {
    FieldsText(WrittenFields(env, Map(m), m.Keys))
  }

  /** The round trip: the text of a configuration is parsed back to exactly its values. */
  lemma ValuesBack(env: Env, m: map<Bytes, Value>, k: nat)
    requires Spellable(env, Map(m)) && k >= 4 * |ConfigText(env, m)| + 2
    ensures var text := ConfigText(env, m);
            Lex(text, LEX_START, k).state.Done? && Consume(env, START, Lex(text, LEX_START, k).items) == Parsed(m)
  {
    hide Lex, FieldsText, Consume, WrittenFields;
    FieldsBack(env, Map(m), m.Keys, map[], OnTop);
    PartOfAll(map[], m);
    ParsesBack(env, WrittenFields(env, Map(m), m.Keys), k);
  }

  const DEBUG := Field(Key("debug", AsIs, [], '=', []), Leaf(Truth(true, false)), Stop([], '\n'), NoField)
  const PORT := Field(Key("port", AsIs, [], '=', []), Leaf(Whole("4222")), Stop([], '\n'), DEBUG)

  lemma SampleText()
    ensures FieldsText(PORT) == "port=4222\n" + "debug=true\n"
  {
    assert KeyText(DEBUG.key) == "debug=" && KeyText(PORT.key) == "port=";
    assert FieldsText(DEBUG) == "debug=" + ("true" + ("\n" + [])) == "debug=true\n";
    assert FieldsText(PORT) == "port=" + ("4222" + ("\n" + "debug=true\n"));
  }

  lemma SamplePrints()
    ensures FieldsPrintable(PORT, OnTop)
  {
    assert FieldsPrintable(DEBUG, OnTop);
  }

  /** Byte by byte. */
  lemma SampleParses(env: Env, k: nat)
    requires env.toInt("4222") == Some(4222) && k >= 100
    ensures Consume(env, START, Lex("port=4222\n" + "debug=true\n", LEX_START, k).items) ==
            Parsed(map["port" := Int(4222), "debug" := Bool(true)])
  {
    hide Lex, Consume, FieldsText, FieldsPrintable;
    SampleText();
    SamplePrints();
    assert FieldsConvert(env, DEBUG) && FieldsConvert(env, PORT);
    assert DenoteFields(env, map["port" := Int(4222)], DEBUG) ==
           map["port" := Int(4222), "debug" := Bool(true)];
    ParsesBack(env, PORT, k);
  }
}
