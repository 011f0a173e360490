/** Configurations written out as text, and how the lexer goes over what is written. */
module ConfText {
  import opened Base
  import opened Args
  import opened ConfParser
  import opened LexShape
  import opened LexSteps

  // ----- the text of a tree -----

  function Quoted(q: char, s: Bytes): Bytes { [q] + (s + [q]) }

  function Styled(style: Style, s: Bytes): Bytes {
    match style
    case InDouble => Quoted('"', s)
    case InSingle => Quoted('\'', s)
    case AsIs => s
    case InBlock => ['('] + (s + [')'])
    case QuoteBehind => s + ['\'']
    case SlashBefore => ['/'] + s
  }

  function LitText(l: Lit): Bytes {
    match l
    case Words(s, style) => Styled(style, s)
    case Truth(b, upper) => TruthText(b, upper)
    case Whole(digits) => digits
    case Fraction(digits) => digits
    case Moment(date) => date
  }

  function KeyText(k: Key): Bytes { Styled(k.style, k.name) + (k.left + ([k.sep] + k.right)) }

  function Sign(slashes: bool): Bytes { if slashes then "//" else "#" }

  function RemarkText(text: Bytes, slashes: bool): Bytes { Sign(slashes) + (text + ['\n']) }

  function FillText(f: Filler): Bytes { if f.Remark? then RemarkText(f.text, f.slashes) else f.gap }

  function EndText(e: End): Bytes {
    match e
    case NoEnd => []
    case Stop(blanks, c) => blanks + [c]
    case Note(blanks, text, slashes) => blanks + RemarkText(text, slashes)
  }

  function TreeText(t: Tree): Bytes {
    match t
    case Leaf(l) => LitText(l)
    case Array(elems) => ['['] + (ElemsText(elems) + [']'])
    case Object(fields) => ['{'] + (FieldsText(fields) + ['}'])
  }

  function ElemsText(ts: Trees): Bytes {
    match ts
    case NoTree => []
    case Elem(head, end, tail) => TreeText(head) + (EndText(end) + ElemsText(tail))
    case ElemFill(fill, tail) => FillText(fill) + ElemsText(tail)
  }

  function FieldsText(fs: Fields): Bytes {
    match fs
    case NoField => []
    case Field(key, value, end, rest) => KeyText(key) + (TreeText(value) + (EndText(end) + FieldsText(rest)))
    case FieldFill(fill, rest) => FillText(fill) + FieldsText(rest)
  }

  // ----- what can be written like this -----

  predicate AllBlank(t: Bytes) { forall k :: 0 <= k < |t| ==> IsWhitespace(t[k]) }

  predicate IsGap(t: Bytes) { forall k :: 0 <= k < |t| ==> IsWhitespace(t[k]) || IsNL(t[k]) }

  /** The bytes that are no gap and not the end. */
  predicate IsSolid(c: char) { !IsWhitespace(c) && !IsNL(c) && c != EOF }

  /** The bytes that start a string without quotes. */
  predicate StartsPlain(c: char) { IsSolid(c) && c !in "[{'\"-(." && !IsDigit(c) }

  /** Text an unquoted string goes over, escapes included. */
  predicate Unquoted(t: Bytes) {
    if t == [] then true
    else if t[0] != '\\' then IsSolid(t[0]) && t[0] != '\'' && t[0] != ';' && Unquoted(t[1..])
    else if |t| >= 2 && t[1] == 'x' then
      |t| >= 4 && IsHexadecimal(t[2]) && IsHexadecimal(t[3]) && Unquoted(t[4..])
    else |t| >= 2 && t[1] in "tnr\"\\" && Unquoted(t[2..])
  }

  /** A parenthesis alone on its line. */
  predicate LoneAt(t: Bytes, k: nat) {
    0 < k < |t| && t[k] == ')' && t[k - 1] == '\n' && k + 1 < |t| && (t[k + 1] == '\n' || t[k + 1] == EOF)
  }

  /** A string written in the style: without the closing quote, without a blank, or in lines. */
  predicate Writable(style: Style, s: Bytes) {
    match style
    case InDouble => '"' !in s
    case InSingle => '\'' !in s
    case AsIs => s != [] && StartsPlain(s[0]) && Unquoted(s) && !IsBoolText(s)
    case InBlock => s != [] && s[|s| - 1] == '\n' && forall k :: 0 <= k < |s| ==> !LoneAt(s, k)
    case QuoteBehind => s != [] && StartsPlain(s[0]) && Unquoted(s)
    case SlashBefore => false
  }

  /** Where values are written. */
  datatype Region = OnTop | InBraces | InBrackets

  predicate KeyWritable(k: Key, region: Region) {
    && (k.sep == '=' || k.sep == ':' || (k.sep == ' ' && k.right == [])) && IsGap(k.left) && AllBlank(k.right)
    && match k.style
       case InDouble => '"' !in k.name
       case InSingle => '\'' !in k.name
       case AsIs => k.name != [] && IsKeyText(k.name) && StartsKey(k.name[0]) && (region.OnTop? || k.name[0] != '}')
       case InBlock => false
       case QuoteBehind => false
       case SlashBefore => region.InBraces? && k.name != [] && k.name[0] != '/' && IsKeyText(k.name[1..])
  }

  function Unsigned(s: Bytes): Bytes { if s != [] && s[0] == '-' then s[1..] else s }

  predicate IsInteger(s: Bytes) { Unsigned(s) != [] && AllDigits(Unsigned(s)) }

  /** Digits on both sides of a point. */
  predicate PointAt(d: Bytes, k: nat) {
    0 < k < |d| - 1 && d[k] == '.' && AllDigits(d[..k]) && AllDigits(d[k + 1..])
  }

  predicate IsFraction(s: Bytes) { exists k :: 0 <= k < |Unsigned(s)| && PointAt(Unsigned(s), k) }

  /** The `k`-th byte behind `p` is what the layout of dates has there. */
  predicate FormatAt(s: Bytes, p: nat, k: nat) {
    k < |DATE_FORMAT| && p + k < |s| && if DATE_FORMAT[k] == '0' then IsDigit(s[p + k]) else s[p + k] == DATE_FORMAT[k]
  }

  /** A full date, as in 2016-01-31T23:59:00Z. */
  predicate IsMoment(s: Bytes) {
    |s| == 20 && AllDigits(s[..4]) && s[4] == '-' && forall k: nat :: k < |DATE_FORMAT| ==> FormatAt(s, 5, k)
  }

  predicate LitPrintable(l: Lit) {
    match l
    case Words(s, style) => Writable(style, s)
    case Truth(_, _) => true
    case Whole(digits) => IsInteger(digits)
    case Fraction(digits) => IsFraction(digits)
    case Moment(date) => IsMoment(date)
  }

  /** What ends a string without quotes, and a number. */
  predicate EndsWord(c: char) { !IsSolid(c) || c == ';' }

  predicate EndsNumber(c: char) { !IsDigit(c) && c != '.' && c != '-' }

  /** What may come right behind a value: anything behind quotes, dates and brackets. */
  predicate Fits(t: Tree, c: char) {
    if !t.Leaf? then true
    else
      match t.lit
      case Words(_, style) => (style == AsIs ==> EndsWord(c)) && (style == InBlock ==> c == '\n')
      case Truth(_, _) => EndsWord(c)
      case Whole(_) => EndsNumber(c)
      case Fraction(_) => !IsDigit(c)
      case Moment(_) => true
  }

  /** The bytes a value can start with there, behind that separator. */
  predicate StartsAt(c: char, region: Region, sep: char) {
    && (sep == ' ' ==> !IsKeySeparator(c)) && (region.InBraces? ==> c != ',' && c != '}')
    && (region.InBrackets? ==> c !in ",]#/")
  }

  predicate RemarkPrintable(text: Bytes) { forall k :: 0 <= k < |text| ==> !IsNL(text[k]) && text[k] != EOF }

  predicate FillPrintable(f: Filler) { if f.Remark? then RemarkPrintable(f.text) else IsGap(f.gap) }

  /** What can end a value there besides the bracket. */
  predicate EndsValue(c: char, region: Region) {
    IsNL(c) || (c == ';' && !region.InBrackets?) || (c == ',' && !region.OnTop?)
  }

  /** What comes behind the last value. */
  function Closer(region: Region): char { match region case OnTop => EOF case InBraces => '}' case InBrackets => ']' }

  /** The end fits behind the value; without one, the value is the last. */
  predicate EndPrintable(t: Tree, e: End, region: Region, last: bool) {
    match e
    case NoEnd => last && Fits(t, Closer(region))
    case Stop(blanks, c) => AllBlank(blanks) && EndsValue(c, region) && Fits(t, (blanks + [c])[0])
    case Note(blanks, text, slashes) =>
      AllBlank(blanks) && RemarkPrintable(text) && Fits(t, (blanks + Sign(slashes))[0])
  }

  predicate Printable(t: Tree) {
    match t
    case Leaf(l) => LitPrintable(l)
    case Array(elems) => AllPrintable(elems)
    case Object(fields) => FieldsPrintable(fields, InBraces)
  }

  predicate Starts(t: Tree, region: Region, sep: char) { TreeText(t) != [] && StartsAt(TreeText(t)[0], region, sep) }

  predicate AllPrintable(ts: Trees) {
    match ts
    case NoTree => true
    case Elem(head, end, tail) =>
      && Printable(head) && Starts(head, InBrackets, ',') && EndPrintable(head, end, InBrackets, tail.NoTree?)
      && AllPrintable(tail)
    case ElemFill(fill, tail) => FillPrintable(fill) && AllPrintable(tail)
  }

  predicate FieldsPrintable(fs: Fields, region: Region) {
    match fs
    case NoField => true
    case Field(key, value, end, rest) =>
      && KeyWritable(key, region) && Printable(value) && Starts(value, region, key.sep)
      && EndPrintable(value, end, region, rest.NoField?) && FieldsPrintable(rest, region)
    case FieldFill(fill, rest) => FillPrintable(fill) && FieldsPrintable(rest, region)
  }

  // ----- positions -----

  /** `t` is in the input at `p`. */
  predicate Has(input: Bytes, p: nat, t: Bytes) { p + |t| <= |input| && input[p..p + |t|] == t }

  lemma HasParts(input: Bytes, p: nat, a: Bytes, b: Bytes)
    requires Has(input, p, a + b)
    ensures Has(input, p, a) && Has(input, p + |a|, b)
  {
    var t := a + b;
    assert forall k :: 0 <= k < |t| ==> input[p + k] == t[k];
    assert forall k :: 0 <= k < |a| ==> a[k] == t[k];
    assert forall k :: 0 <= k < |b| ==> b[k] == t[|a| + k];
  }

  lemma HasFirst(input: Bytes, p: nat, t: Bytes)
    requires Has(input, p, t) && t != []
    ensures p < |input| && Rune(input, p) == t[0] && Beyond(input, p) == p + 1 && Has(input, p + 1, t[1..])
  {
    assert t == [t[0]] + t[1..];
    HasParts(input, p, [t[0]], t[1..]);
  }

  lemma HasSuffix(input: Bytes, p: nat, t: Bytes, k: nat)
    requires Has(input, p, t) && k <= |t|
    ensures Has(input, p + k, t[k..])
  {
    assert t == t[..k] + t[k..];
    HasParts(input, p, t[..k], t[k..]);
  }

  lemma HasText(input: Bytes, p: nat, t: Bytes)
    requires Has(input, p, t)
    ensures Text(input, p, p + |t|) == t
  {
  }

  lemma NoText(input: Bytes, p: nat)
    ensures Text(input, p, p) == []
  {
  }

  // ----- steps -----

  lemma Go(input: Bytes, x: Lx, n: nat, y: Lx, z: Lx)
    requires Lex(input, x, n) == y && !y.state.Done? && LexStep(input, y) == z
    ensures Lex(input, x, n + 1) == z
  {
    LexNext(input, x, n);
  }

  lemma NoStep(input: Bytes, x: Lx)
    ensures Lex(input, x, 0) == x
  {
  }

  lemma One(input: Bytes, x: Lx)
    requires !x.state.Done?
    ensures Lex(input, x, 1) == LexStep(input, x)
  {
    LexNext(input, x, 0);
  }

  /** Waiting for the closing quote `q`. */
  predicate Waits(st: LexState, q: char) {
    if q == '"' then st == OfKey(DubQuotedKey) || st == OfMap(MapDubQuotedKey) || st == OfValue(DubQuotedString)
    else q == '\'' && (st == OfKey(QuotedKey) || st == OfMap(MapQuotedKey) || st == OfValue(QuotedString))
  }

  /** Over text that leaves a quoted string or key open. */
  lemma {:induction false} OverQuoted(input: Bytes, x: Lx, q: char, t: Bytes)
    requires Waits(x.state, q) && Has(input, x.pos, t) && q !in t
    ensures Lex(input, x, |t|) == x.(pos := x.pos + |t|)
    decreases |t|
  {
    if t != [] {
      HasFirst(input, x.pos, t);
      assert t[0] in t;
      assert LexStep(input, x) == x.(pos := x.pos + 1);
      OverQuoted(input, x.(pos := x.pos + 1), q, t[1..]);
    }
  }

  lemma {:induction false} OverDigits(input: Bytes, x: Lx, t: Bytes)
    requires x.state == OfValue(NumberOrDate) || x.state == OfValue(Number) || x.state == OfValue(FloatRest)
    requires Has(input, x.pos, t) && AllDigits(t)
    ensures Lex(input, x, |t|) == x.(pos := x.pos + |t|)
    decreases |t|
  {
    if t != [] {
      HasFirst(input, x.pos, t);
      assert IsDigit(t[0]);
      assert LexStep(input, x) == x.(pos := x.pos + 1);
      OverDigits(input, x.(pos := x.pos + 1), t[1..]);
    }
  }

  lemma {:induction false} OverString(input: Bytes, x: Lx, t: Bytes) returns (n: nat)
    requires x.state == OfValue(PlainString) && Has(input, x.pos, t) && Unquoted(t)
    ensures n <= |t| && Lex(input, x, n) == x.(pos := x.pos + |t|)
    decreases |t|
  {
    hide Lex;
    if t == [] {
      n := 0;
      NoStep(input, x);
    } else {
      var k, len := OverPiece(input, x, t);
      HasSuffix(input, x.pos, t, len);
      var r := OverString(input, x.(pos := x.pos + len), t[len..]);
      LexAdd(input, x, k, r);
      n := k + r;
    }
  }

  /** One byte, or one escape. */
  lemma OverPiece(input: Bytes, x: Lx, t: Bytes) returns (n: nat, len: nat)
    requires x.state == OfValue(PlainString) && Has(input, x.pos, t) && Unquoted(t) && t != []
    ensures n <= len && 0 < len <= |t| && Unquoted(t[len..]) && Lex(input, x, n) == x.(pos := x.pos + len)
  {
    hide Lex;
    HasFirst(input, x.pos, t);
    One(input, x);
    if t[0] != '\\' {
      n, len := 1, 1;
      assert LexStep(input, x) == StringStep(input, x);
    } else {
      assert input[x.pos..x.pos + |t|][1] == t[1];
      var y := x.(state := OfValue(StringEscape), pos := x.pos + 1);
      assert LexStep(input, x) == StringStep(input, x) == y;
      assert LexStep(input, y) == EscapeStep(input, y);
      if t[1] == 'x' {
        assert input[x.pos..x.pos + |t|][2..4] == t[2..4];
        var z := x.(state := OfValue(StringBinary), pos := x.pos + 2);
        Go(input, x, 1, y, z);
        Go(input, x, 2, z, BinaryStep(input, z));
        n, len := 3, 4;
      } else {
        Go(input, x, 1, y, x.(pos := x.pos + 2));
        n, len := 2, 2;
      }
    }
  }

  // ----- items, without their lines -----

  function Bare(its: seq<Item>): seq<Item> {
    if its == [] then [] else Bare(its[..|its| - 1]) + [its[|its| - 1].(line := 0)]
  }

  lemma BareSnoc(its: seq<Item>, it: Item)
    ensures Bare(its + [it]) == Bare(its) + [it.(line := 0)]
  {
    assert (its + [it])[..|its|] == its;
  }

  /** A value read: the lexer is behind it, with its items emitted. */
  predicate ReadOver(input: Bytes, x: Lx, n: nat, len: nat, its: seq<Item>) {
    var m := Lex(input, x, n);
    && x.stack != [] && m.state == Last(x.stack) && m.stack == Front(x.stack)
    && m.start == m.pos == x.pos + len
    && Bare(m.items) == Bare(x.items) + its
    && n < 4 * len
  }

  /** Before a value, with nothing slurped. */
  predicate BeforeValue(x: Lx) { x.state == OfValue(AnyValue) && x.start == x.pos && x.stack != [] }

  /** Text between two delimiters. */
  lemma ReadEnclosed(input: Bytes, x: Lx, y: Lx, t: Bytes) returns (n: nat)
    requires BeforeValue(x) && !y.state.Done? && y == x.(state := y.state, start := x.pos + 1, pos := x.pos + 1)
    requires LexStep(input, x) == y && Has(input, y.pos, t)
    requires var z := y.(pos := y.pos + |t|);
             Lex(input, y, |t|) == z && z.pos < |input| && LexStep(input, z) == Ended(input, z, ItemString, true)
    ensures ReadOver(input, x, n, |t| + 2, [Item(ItemString, t, 0)])
  {
    hide Lex, LexStep, LineAt, Bare, Has;
    var z := y.(pos := y.pos + |t|);
    One(input, x);
    One(input, z);
    LexAdd(input, x, 1, |t|);
    LexAdd(input, x, 1 + |t|, 1);
    HasText(input, y.pos, t);
    BareSnoc(x.items, Item(ItemString, t, LineAt(input, z.pos)));
    n := |t| + 2;
  }

  /** Both delimiters are in the input, with the text between them. */
  lemma EnclosedParts(input: Bytes, p: nat, open: char, t: Bytes, close: char)
    requires Has(input, p, [open] + (t + [close]))
    ensures p < |input| && input[p] == open && Has(input, p + 1, t)
    ensures p + 1 + |t| < |input| && input[p + 1 + |t|] == close
  {
    HasParts(input, p, [open], t + [close]);
    HasParts(input, p + 1, t, [close]);
  }

  lemma ReadString(input: Bytes, x: Lx, q: char, t: Bytes) returns (n: nat)
    requires BeforeValue(x) && (q == '"' || q == '\'') && q !in t && Has(input, x.pos, Quoted(q, t))
    ensures ReadOver(input, x, n, |t| + 2, [Item(ItemString, t, 0)])
  {
    hide Lex, LexStep, Ended, Has, ReadOver;
    EnclosedParts(input, x.pos, q, t, q);
    var y := x.(state := OfValue(if q == '"' then DubQuotedString else QuotedString), start := x.pos + 1,
                pos := x.pos + 1);
    StringOpens(input, x, q);
    OverQuoted(input, y, q, t);
    StringCloses(input, y.(pos := y.pos + |t|), q);
    n := ReadEnclosed(input, x, y, t);
  }

  lemma StringOpens(input: Bytes, x: Lx, q: char)
    requires BeforeValue(x) && x.pos < |input| && input[x.pos] == q && (q == '"' || q == '\'')
    ensures LexStep(input, x) == x.(state := OfValue(if q == '"' then DubQuotedString else QuotedString),
                                    start := x.pos + 1, pos := x.pos + 1)
  {
    assert LexStep(input, x) == ValueStep(input, x);
  }

  lemma StringCloses(input: Bytes, z: Lx, q: char)
    requires z.pos < |input| && input[z.pos] == q && (q == '"' || q == '\'')
    requires z.state == OfValue(if q == '"' then DubQuotedString else QuotedString)
    ensures LexStep(input, z) == Ended(input, z, ItemString, true)
  {
    hide Ended;
    assert LexStep(input, z) == QuotedStringStep(input, z, q);
  }

  /** Over the text of a block behind its first `k` bytes. */
  lemma {:induction false} OverBlock(input: Bytes, x: Lx, t: Bytes, k: nat)
    requires x.state == OfValue(Block) && k <= |t| && x.pos >= k && Has(input, x.pos - k, t)
    requires 0 < x.pos - k && input[x.pos - k - 1] == '(' && forall j :: 0 <= j < |t| ==> !LoneAt(t, j)
    requires t != [] && t[|t| - 1] == '\n'
    ensures Lex(input, x, |t| - k) == x.(pos := x.pos + (|t| - k))
    decreases |t| - k
  {
    hide Lex;
    NoStep(input, x);
    if k < |t| {
      var p := x.pos - k;
      InBlockStep(input, x, t, k);
      Go(input, x, 0, x, x.(pos := x.pos + 1));
      OverBlock(input, x.(pos := x.pos + 1), t, k + 1);
      LexAdd(input, x, 1, |t| - k - 1);
    }
  }

  lemma InBlockStep(input: Bytes, x: Lx, t: Bytes, k: nat)
    requires x.state == OfValue(Block) && k < |t| && x.pos >= k && Has(input, x.pos - k, t)
    requires 0 < x.pos - k && input[x.pos - k - 1] == '(' && !LoneAt(t, k) && t[|t| - 1] == '\n'
    ensures LexStep(input, x) == x.(pos := x.pos + 1)
  {
    hide Ended;
    var p := x.pos - k;
    assert input[p..p + |t|][k] == t[k];
    assert LexStep(input, x) == BlockStep(input, x);
    if t[k] == ')' {
      assert k + 1 < |t| && input[p..p + |t|][k + 1] == t[k + 1];
      if k > 0 { assert input[p..p + |t|][k - 1] == t[k - 1]; }
    }
  }

  /** A block ends at a parenthesis alone on its line. */
  lemma ReadBlock(input: Bytes, x: Lx, t: Bytes) returns (n: nat)
    requires BeforeValue(x) && Writable(InBlock, t) && Has(input, x.pos, Styled(InBlock, t))
    requires var p := x.pos + |t| + 2; p < |input| && input[p] == '\n'
    ensures ReadOver(input, x, n, |t| + 2, [Item(ItemString, t, 0)])
  {
    hide Lex, LexStep, Ended, Has, ReadOver;
    EnclosedParts(input, x.pos, '(', t, ')');
    var y := x.(state := OfValue(Block), start := x.pos + 1, pos := x.pos + 1);
    BlockOpens(input, x);
    OverBlock(input, y, t, 0);
    BlockCloses(input, y.(pos := y.pos + |t|), t);
    n := ReadEnclosed(input, x, y, t);
  }

  lemma BlockOpens(input: Bytes, x: Lx)
    requires BeforeValue(x) && x.pos < |input| && input[x.pos] == '('
    ensures LexStep(input, x) == x.(state := OfValue(Block), start := x.pos + 1, pos := x.pos + 1)
  {
    assert LexStep(input, x) == ValueStep(input, x);
  }

  lemma BlockCloses(input: Bytes, z: Lx, t: Bytes)
    requires z.state == OfValue(Block) && t != [] && t[|t| - 1] == '\n' && z.pos == z.start + |t|
    requires Has(input, z.start, t)
    requires z.pos + 1 < |input| && input[z.pos] == ')' && input[z.pos + 1] == '\n'
    ensures LexStep(input, z) == Ended(input, z, ItemString, true)
  {
    hide Ended;
    assert input[z.start..z.start + |t|][|t| - 1] == t[|t| - 1];
  }

  /** The digits of a number, and the delimiter behind them. */
  lemma ReadDigits(input: Bytes, x: Lx, start: LexState, d: Bytes) returns (n: nat)
    requires start == OfValue(NumberOrDateStart) || start == OfValue(NumberStart)
    requires x.state == start && x.start <= x.pos && x.stack != []
    requires d != [] && AllDigits(d) && Has(input, x.pos, d) && EndsNumber(Rune(input, x.pos + |d|))
    ensures n == |d| + 1
    ensures Lex(input, x, n) == Ended(input, x.(pos := x.pos + |d|), ItemInteger, false)
  {
    hide Ended, LexStep, Lex;
    HasFirst(input, x.pos, d);
    assert IsDigit(d[0]);
    var y := x.(state := if start == OfValue(NumberStart) then OfValue(Number) else OfValue(NumberOrDate),
                pos := x.pos + 1);
    FirstDigit(input, x);
    One(input, x);
    OverDigits(input, y, d[1..]);
    var z := y.(pos := x.pos + |d|);
    EndsAtDelimiter(input, z);
    One(input, z);
    LexAdd(input, x, 1, |d| - 1);
    LexAdd(input, x, |d|, 1);
    n := |d| + 1;
  }

  lemma FirstDigit(input: Bytes, x: Lx)
    requires (x.state == OfValue(NumberOrDateStart) || x.state == OfValue(NumberStart)) && x.pos < |input|
             && IsDigit(input[x.pos])
    ensures LexStep(input, x) ==
            x.(state := if x.state == OfValue(NumberStart) then OfValue(Number) else OfValue(NumberOrDate),
               pos := x.pos + 1)
  {
  }

  lemma EndsAtDelimiter(input: Bytes, z: Lx)
    requires z.state == OfValue(NumberOrDate) || z.state == OfValue(Number)
    requires EndsNumber(Rune(input, z.pos))
    ensures LexStep(input, z) == Ended(input, z.(state := OfValue(NumberStart)), ItemInteger, false)
    ensures LexStep(input, z) == Ended(input, z.(state := OfValue(NumberOrDateStart)), ItemInteger, false)
  {
  }

  /** What ends a scalar reads it. */
  lemma EndReads(input: Bytes, x: Lx, n: nat, z: Lx, typ: ItemType, t: Bytes)
    requires BeforeValue(x) && Has(input, x.pos, t) && n < 4 * |t|
    requires z.start == x.pos && z.pos == x.pos + |t| && z.stack == x.stack && z.items == x.items
    requires Lex(input, x, n) == Ended(input, z, typ, false)
    ensures ReadOver(input, x, n, |t|, [Item(typ, t, 0)])
  {
    hide Lex, LineAt;
    HasText(input, x.pos, t);
    BareSnoc(x.items, Item(typ, t, LineAt(input, z.pos)));
  }

  lemma ReadInteger(input: Bytes, x: Lx, t: Bytes) returns (n: nat)
    requires BeforeValue(x) && IsInteger(t)
    requires Has(input, x.pos, t) && EndsNumber(Rune(input, x.pos + |t|))
    ensures ReadOver(input, x, n, |t|, [Item(ItemInteger, t, 0)])
  {
    hide Ended, ReadOver, Lex;
    HasFirst(input, x.pos, t);
    One(input, x);
    var d := Unsigned(t);
    assert IsDigit(d[0]);
    var y := NumberBegins(input, x);
    var k := ReadDigits(input, y, y.state, d);
    LexAdd(input, x, 1, k);
    n := 1 + k;
    EndReads(input, x, n, y.(pos := y.pos + |d|), ItemInteger, t);
  }

  lemma NumberBegins(input: Bytes, x: Lx) returns (y: Lx)
    requires BeforeValue(x) && (Rune(input, x.pos) == '-' || IsDigit(Rune(input, x.pos)))
    ensures y == LexStep(input, x)
    ensures y == if Rune(input, x.pos) == '-' then x.(state := OfValue(NumberStart), pos := x.pos + 1)
                 else x.(state := OfValue(NumberOrDateStart))
  {
    y := ValueStep(input, x);
  }

  /** Digits of a number, from its first. */
  lemma DigitsOn(input: Bytes, x: Lx, start: LexState, next: LexState, d: Bytes)
    requires x.state == start && d != [] && AllDigits(d) && Has(input, x.pos, d)
    requires || (start == OfValue(NumberOrDateStart) && next == OfValue(NumberOrDate))
             || (start == OfValue(NumberStart) && next == OfValue(Number))
             || (start == OfValue(FloatStart) && next == OfValue(FloatRest))
    ensures Lex(input, x, |d|) == x.(state := next, pos := x.pos + |d|)
  {
    HasFirst(input, x.pos, d);
    assert IsDigit(d[0]);
    assert LexStep(input, x) == DigitStep(input, x, next) == x.(state := next, pos := x.pos + 1);
    One(input, x);
    hide LexStep, Lex, AllDigits;
    assert AllDigits(d[1..]) by { AllDigitsRest(d); }
    OverDigits(input, x.(state := next, pos := x.pos + 1), d[1..]);
    LexAdd(input, x, 1, |d| - 1);
  }

  lemma AllDigitsRest(d: Bytes)
    requires d != [] && AllDigits(d)
    ensures AllDigits(d[1..])
  {
  }

  lemma PointStep(input: Bytes, x: Lx)
    requires x.state == OfValue(NumberOrDate) || x.state == OfValue(Number)
    requires x.pos < |input| && input[x.pos] == '.'
    ensures LexStep(input, x) == x.(state := OfValue(FloatStart), pos := x.pos + 1)
  {
  }

  lemma FractionEnds(input: Bytes, z: Lx)
    requires z.state == OfValue(FloatRest) && !IsDigit(Rune(input, z.pos))
    ensures LexStep(input, z) == Ended(input, z, ItemFloat, false)
  {
  }

  /** The parts of a fraction. */
  lemma FractionParts(input: Bytes, p: nat, d: Bytes, k: nat)
    requires Has(input, p, d) && PointAt(d, k)
    ensures d[..k] != [] && d[k + 1..] != [] && Has(input, p, d[..k]) && Has(input, p + k + 1, d[k + 1..])
    ensures p + k < |input| && input[p + k] == '.'
  {
    assert d == d[..k] + (['.'] + d[k + 1..]);
    HasParts(input, p, d[..k], ['.'] + d[k + 1..]);
    HasParts(input, p + k, ['.'], d[k + 1..]);
    HasFirst(input, p + k, ['.']);
  }

  /** The digits in front of the point, and the point. */
  lemma ReadUpToPoint(input: Bytes, y: Lx, d: Bytes, k: nat)
    requires y.state == OfValue(NumberOrDateStart) || y.state == OfValue(NumberStart)
    requires Has(input, y.pos, d) && PointAt(d, k)
    ensures Lex(input, y, k + 1) == y.(state := OfValue(FloatStart), pos := y.pos + k + 1)
  {
    hide Lex, LexStep, Has;
    FractionParts(input, y.pos, d, k);
    hide PointAt;
    var next := OfValue(if y.state == OfValue(NumberStart) then Number else NumberOrDate);
    var z := y.(state := next, pos := y.pos + k);
    DigitsOn(input, y, y.state, next, d[..k]);
    PointStep(input, z);
    Go(input, y, k, z, z.(state := OfValue(FloatStart), pos := z.pos + 1));
  }

  /** The digits behind the point, up to the delimiter. */
  lemma ReadBehindPoint(input: Bytes, u: Lx, e: Bytes)
    requires u.state == OfValue(FloatStart) && e != [] && AllDigits(e) && Has(input, u.pos, e)
    requires !IsDigit(Rune(input, u.pos + |e|))
    ensures Lex(input, u, |e| + 1) ==
            Ended(input, u.(state := OfValue(FloatRest), pos := u.pos + |e|), ItemFloat, false)
  {
    hide Lex, LexStep, Has, AllDigits, Ended;
    var v := u.(state := OfValue(FloatRest), pos := u.pos + |e|);
    DigitsOn(input, u, u.state, v.state, e);
    FractionEnds(input, v);
    Go(input, u, |e|, v, Ended(input, v, ItemFloat, false));
  }

  lemma ReadFraction(input: Bytes, x: Lx, t: Bytes) returns (n: nat)
    requires BeforeValue(x) && IsFraction(t)
    requires Has(input, x.pos, t) && !IsDigit(Rune(input, x.pos + |t|))
    ensures ReadOver(input, x, n, |t|, [Item(ItemFloat, t, 0)])
  {
    hide Ended, ReadOver, Lex, LexStep, Has, AllDigits;
    var d := Unsigned(t);
    var k :| 0 <= k < |d| && PointAt(d, k);
    FractionStarts(t);
    HasFirst(input, x.pos, t);
    One(input, x);
    var y := NumberBegins(input, x);
    FractionParts(input, y.pos, d, k);
    var u, e := y.(state := OfValue(FloatStart), pos := y.pos + k + 1), d[k + 1..];
    ReadUpToPoint(input, y, d, k);
    LexAdd(input, x, 1, k + 1);
    ReadBehindPoint(input, u, e);
    LexAdd(input, x, k + 2, |e| + 1);
    n := k + |e| + 3;
    EndReads(input, x, n, u.(state := OfValue(FloatRest), pos := u.pos + |e|), ItemFloat, t);
  }

  /** The date behind the year, in one step. */
  lemma {:induction false} DateRuns(input: Bytes, x: Lx, p: nat, i: nat)
    requires i <= |DATE_FORMAT| && x.pos == p + i && forall k: nat :: i <= k < |DATE_FORMAT| ==> FormatAt(input, p, k)
    ensures DateStep(input, x, i) == Ended(input, x.(pos := p + |DATE_FORMAT|), ItemDatetime, false)
    decreases |DATE_FORMAT| - i
  {
    hide Ended, IsDigit;
    if i < |DATE_FORMAT| {
      assert FormatAt(input, p, i);
      DateRuns(input, x.(pos := x.pos + 1), p, i + 1);
    }
  }

  lemma YearEnds(input: Bytes, z: Lx)
    requires z.state == OfValue(NumberOrDate) && z.pos == z.start + 4 && z.pos < |input| && input[z.pos] == '-'
    ensures LexStep(input, z) == z.(state := OfValue(DateAfterYear), pos := z.pos + 1)
  {
  }

  lemma ReadMoment(input: Bytes, x: Lx, t: Bytes) returns (n: nat)
    requires BeforeValue(x) && IsMoment(t) && Has(input, x.pos, t)
    ensures ReadOver(input, x, n, |t|, [Item(ItemDatetime, t, 0)])
  {
    hide Ended, ReadOver, Lex, LexStep, DateStep;
    assert t == t[..4] + t[4..];
    HasParts(input, x.pos, t[..4], t[4..]);
    HasFirst(input, x.pos, t);
    HasFirst(input, x.pos + 4, t[4..]);
    assert IsDigit(t[..4][0]);
    One(input, x);
    var y := NumberBegins(input, x);
    var z := y.(state := OfValue(NumberOrDate), pos := y.pos + 4);
    DigitsOn(input, y, y.state, z.state, t[..4]);
    LexAdd(input, x, 1, 4);
    YearEnds(input, z);
    var u := z.(state := OfValue(DateAfterYear), pos := z.pos + 1);
    Go(input, x, 5, z, u);
    forall k: nat | k < |DATE_FORMAT| ensures FormatAt(input, u.pos, k) {
      assert FormatAt(t, 5, k) && input[x.pos..x.pos + 20][5 + k] == t[5 + k];
    }
    DateRuns(input, u, u.pos, 0);
    var v := u.(pos := u.pos + |DATE_FORMAT|);
    assert LexStep(input, u) == DateStep(input, u, 0) by { DateIsStep(input, u); }
    n := 7;
    assert Lex(input, x, n) == Ended(input, v, ItemDatetime, false) by {
      LexAdd(input, x, 6, 1);
      One(input, u);
    }
    EndReads(input, x, n, v, ItemDatetime, t);
  }

  lemma DateIsStep(input: Bytes, u: Lx)
    requires u.state == OfValue(DateAfterYear)
    ensures LexStep(input, u) == DateStep(input, u, 0)
  {
  }

  /** A string without quotes, or a boolean. */
  lemma ReadPlain(input: Bytes, x: Lx, t: Bytes) returns (n: nat)
    requires BeforeValue(x) && t != [] && StartsPlain(t[0]) && Unquoted(t)
    requires Has(input, x.pos, t) && EndsWord(Rune(input, x.pos + |t|))
    ensures ReadOver(input, x, n, |t|, [Item(if IsBoolText(t) then ItemBool else ItemString, t, 0)])
  {
    hide Ended, ReadOver, Lex, LexStep, IsBoolText, Unquoted;
    HasFirst(input, x.pos, t);
    var y, z := x.(state := OfValue(PlainString)), x.(state := OfValue(PlainString), pos := x.pos + |t|);
    StringBegins(input, x);
    One(input, x);
    var k := OverString(input, y, t);
    HasText(input, x.pos, t);
    StringEnds(input, z);
    LexAdd(input, x, 1, k);
    n := k + 2;
    Go(input, x, 1 + k, z, LexStep(input, z));
    EndReads(input, x, n, z, if IsBoolText(t) then ItemBool else ItemString, t);
  }

  /** A string without quotes that ends in one. */
  lemma ReadQuoteBehind(input: Bytes, x: Lx, t: Bytes) returns (n: nat)
    requires BeforeValue(x) && t != [] && StartsPlain(t[0]) && Unquoted(t) && Has(input, x.pos, t + ['\''])
    ensures ReadOver(input, x, n, |t| + 1, [Item(ItemString, t, 0)])
  {
    hide Lex, LexStep, Unquoted, Has, LineAt, Bare, Text;
    HasParts(input, x.pos, t, ['\'']);
    HasFirst(input, x.pos, t);
    HasFirst(input, x.pos + |t|, ['\'']);
    var y, z := x.(state := OfValue(PlainString)), x.(state := OfValue(PlainString), pos := x.pos + |t|);
    StringBegins(input, x);
    One(input, x);
    var k := OverString(input, y, t);
    HasText(input, x.pos, t);
    LexAdd(input, x, 1, k);
    n := k + 2;
    QuoteEnds(input, z);
    Go(input, x, 1 + k, z, Ended(input, z, ItemString, true));
    BareSnoc(x.items, Item(ItemString, t, LineAt(input, z.pos)));
  }

  lemma QuoteEnds(input: Bytes, z: Lx)
    requires z.state == OfValue(PlainString) && z.pos < |input| && input[z.pos] == '\''
    ensures LexStep(input, z) == Ended(input, z, ItemString, true)
  {
    hide Ended;
    assert LexStep(input, z) == StringStep(input, z);
  }

  lemma StringBegins(input: Bytes, x: Lx)
    requires BeforeValue(x) && x.pos < |input| && StartsPlain(input[x.pos])
    ensures LexStep(input, x) == x.(state := OfValue(PlainString))
  {
    assert LexStep(input, x) == ValueStep(input, x);
    var r := input[x.pos];
    assert r != '[' && r != '{' && r != '\'' && r != '"' && r != '-' && r != '(' && r != '.';
  }

  lemma StringEnds(input: Bytes, z: Lx)
    requires z.state == OfValue(PlainString) && EndsWord(Rune(input, z.pos))
    ensures LexStep(input, z) ==
            Ended(input, z, if IsBoolText(Text(input, z.start, z.pos)) then ItemBool else ItemString, false)
  {
    hide IsBoolText, Ended;
  }

  // ----- how values start -----

  /** Only strings without quotes start with a byte that could mean something else. */
  predicate Everywhere(l: Lit, c: char) {
    (l.Words? && (l.style == AsIs || l.style == QuoteBehind)) || c in "\"'(tfTF-" || IsDigit(c)
  }

  lemma LitStarts(l: Lit)
    requires LitPrintable(l)
    ensures LitText(l) != [] && IsSolid(LitText(l)[0]) && Everywhere(l, LitText(l)[0])
  {
    hide IsFraction, IsMoment, IsInteger, AllDigits;
    match l
    case Words(_, _) => WordsStart(l);
    case Truth(_, _) => TruthStarts(l);
    case Whole(digits) => IntegerStarts(digits);
    case Fraction(digits) => FractionStarts(digits);
    case Moment(date) => MomentStarts(date);
  }

  lemma WordsStart(l: Lit)
    requires l.Words? && LitPrintable(l)
    ensures LitText(l) != [] && IsSolid(LitText(l)[0]) && Everywhere(l, LitText(l)[0])
  {
    hide Unquoted, IsBoolText;
  }

  lemma TruthStarts(l: Lit)
    requires l.Truth?
    ensures LitText(l) != [] && IsSolid(LitText(l)[0]) && Everywhere(l, LitText(l)[0])
  {
  }

  lemma IntegerStarts(s: Bytes)
    requires IsInteger(s)
    ensures s != [] && IsSolid(s[0]) && (s[0] == '-' || IsDigit(s[0]))
  {
    if s[0] != '-' { assert IsDigit(s[0]); }
  }

  lemma FractionStarts(s: Bytes)
    requires IsFraction(s)
    ensures s != [] && IsSolid(s[0]) && (s[0] == '-' || IsDigit(s[0]))
  {
    var d := Unsigned(s);
    var k :| 0 <= k < |d| && PointAt(d, k);
    if s[0] != '-' { assert d[..k][0] == d[0] && IsDigit(d[..k][0]); }
  }

  lemma MomentStarts(s: Bytes)
    requires IsMoment(s)
    ensures s != [] && IsSolid(s[0]) && (s[0] == '-' || IsDigit(s[0]))
  {
    assert s[..4][0] == s[0] && IsDigit(s[..4][0]);
  }

  // ----- values by themselves -----

  lemma ReadLit(input: Bytes, x: Lx, l: Lit) returns (n: nat)
    requires BeforeValue(x) && LitPrintable(l) && Has(input, x.pos, LitText(l))
    requires Fits(Leaf(l), Rune(input, x.pos + |LitText(l)|))
    ensures ReadOver(input, x, n, |LitText(l)|, [LitItem(l)])
  {
    hide ReadOver, Has, Lex, Quoted, IsFraction, IsMoment, IsInteger, Unquoted, StartsPlain;
    match l
    case Words(s, style) => n := ReadWords(input, x, s, style);
    case Truth(b, upper) =>
      TruthIsPlain(b, upper);
      n := ReadPlain(input, x, LitText(l));
    case Whole(digits) => n := ReadInteger(input, x, digits);
    case Fraction(digits) => n := ReadFraction(input, x, digits);
    case Moment(date) => n := ReadMoment(input, x, date);
  }

  lemma ReadWords(input: Bytes, x: Lx, s: Bytes, style: Style) returns (n: nat)
    requires BeforeValue(x) && Writable(style, s) && Has(input, x.pos, Styled(style, s))
    requires Fits(Leaf(Words(s, style)), Rune(input, x.pos + |Styled(style, s)|))
    ensures ReadOver(input, x, n, |Styled(style, s)|, [Item(ItemString, s, 0)])
  {
    hide ReadOver, Has, Lex, Unquoted, StartsPlain;
    match style
    case InDouble => n := ReadString(input, x, '"', s);
    case InSingle => n := ReadString(input, x, '\'', s);
    case AsIs => n := ReadPlain(input, x, s);
    case InBlock => n := ReadBlock(input, x, s);
    case QuoteBehind => n := ReadQuoteBehind(input, x, s);
  }

  lemma {:induction false} LettersArePlain(t: Bytes)
    requires forall k :: 0 <= k < |t| ==> 'A' <= t[k] <= 'Z' || 'a' <= t[k] <= 'z'
    ensures Unquoted(t)
    decreases |t|
  {
    if t != [] { LettersArePlain(t[1..]); }
  }

  lemma TruthIsPlain(b: bool, upper: bool)
    ensures var t := TruthText(b, upper); t != [] && StartsPlain(t[0]) && Unquoted(t) && IsBoolText(t)
  {
    hide Unquoted;
    LettersArePlain(TruthText(b, upper));
  }
}
