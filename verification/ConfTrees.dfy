/** The lexer reads back nested values, fields and whole configurations, and the parser rebuilds them. */
module ConfTrees {
  import opened Base
  import opened Args
  import opened ConfParser
  import opened LexShape
  import opened LexSteps
  import opened ConfText

  /** Where the next value or key can begin, and what comes behind a value. */
  function Open(region: Region): LexState {
    match region case OnTop => OfTop(Top) case InBraces => OfMap(MapKeyStart) case InBrackets => OfArray(ArrayValue)
  }

  function AfterValue(region: Region): LexState {
    match region
    case OnTop => OfTop(TopValueEnd)
    case InBraces => OfMap(MapValueEnd)
    case InBrackets => OfArray(ArrayValueEnd)
  }

  /** Something read between values: the lexer is behind it, in state `st`, with its items emitted. */
  predicate ReadOn(input: Bytes, x: Lx, n: nat, len: nat, its: seq<Item>, st: LexState) {
    var m := Lex(input, x, n);
    && m.state == st && m.stack == x.stack && m.start == m.pos == x.pos + len
    && Bare(m.items) == Bare(x.items) + its
    && n <= 4 * len
  }

  lemma WhereOn(input: Bytes, x: Lx, n: nat, len: nat, its: seq<Item>, st: LexState)
    requires ReadOn(input, x, n, len, its, st)
    ensures var m := Lex(input, x, n); m.state == st && m.stack == x.stack && m.start == m.pos == x.pos + len
  {
  }

  lemma ReadNothing(input: Bytes, x: Lx)
    requires x.start == x.pos
    ensures ReadOn(input, x, 0, 0, [], x.state)
  {
    assert Bare(x.items) + [] == Bare(x.items);
  }

  lemma ReadOnAndOn(input: Bytes, x: Lx, n: nat, len: nat, its: seq<Item>, mid: LexState,
                    k: nat, more: nat, jts: seq<Item>, st: LexState)
    requires ReadOn(input, x, n, len, its, mid) && ReadOn(input, Lex(input, x, n), k, more, jts, st)
    ensures ReadOn(input, x, n + k, len + more, its + jts, st)
  {
    hide Lex, Bare;
    LexAdd(input, x, n, k);
    assert (Bare(x.items) + its) + jts == Bare(x.items) + (its + jts);
  }

  // ----- blanks and newlines -----

  /** The states that pass over the byte. */
  predicate SkipsOver(st: LexState, c: char) {
    || (IsWhitespace(c) && (st == OfValue(AnyValue) || st == OfArray(ArrayValueEnd) || st == OfMap(MapValueEnd)))
    || ((IsWhitespace(c) || IsNL(c)) &&
        (st == OfTop(Top) || st == OfValue(KeyEnd) || st == OfArray(ArrayValue) || st == OfMap(MapKeyStart)
         || st == OfKeyed(MapKeyEnd) || st == OfKeyed(MapValue)))
  }

  lemma SkipStep(input: Bytes, x: Lx)
    requires x.pos < |input| && SkipsOver(x.state, input[x.pos])
    ensures LexStep(input, x) == x.(state := Skip(x.state), pos := x.pos + 1)
  {
    hide Emitted, Erred, IsComment, CommentOn;
  }

  lemma {:induction false} OverGap(input: Bytes, x: Lx, t: Bytes)
    requires x.start == x.pos && Has(input, x.pos, t) && forall k :: 0 <= k < |t| ==> SkipsOver(x.state, t[k])
    ensures Lex(input, x, 2 * |t|) == x.(start := x.pos + |t|, pos := x.pos + |t|)
    decreases |t|
  {
    hide Lex, SkipsOver;
    NoStep(input, x);
    if t != [] {
      HasFirst(input, x.pos, t);
      assert SkipsOver(x.state, t[0]);
      SkipStep(input, x);
      var y, z := x.(state := Skip(x.state), pos := x.pos + 1), x.(start := x.pos + 1, pos := x.pos + 1);
      assert LexStep(input, y) == z;
      Go(input, x, 0, x, y);
      Go(input, x, 1, y, z);
      OverGap(input, z, t[1..]);
      LexAdd(input, x, 2, 2 * (|t| - 1));
    }
  }

  // ----- comments -----

  /** Where comments are allowed, and where the lexer goes on behind them. */
  predicate Commentable(st: LexState) { exists region :: st == Open(region) || st == AfterValue(region) }

  function Back(st: LexState): LexState { if st == OfTop(TopValueEnd) then OfTop(Top) else st }

  lemma SignStep(input: Bytes, x: Lx, slashes: bool)
    requires Commentable(x.state) && Has(input, x.pos, Sign(slashes))
    ensures !x.state.Done? && LexStep(input, x) ==
            x.(state := OfComment(CommentStart), stack := x.stack + [Back(x.state)], pos := x.pos + |Sign(slashes)|)
  {
    hide Emitted, Erred;
    HasFirst(input, x.pos, Sign(slashes));
    if slashes { HasFirst(input, x.pos + 1, "/"); }
  }

  lemma RemarkStarts(input: Bytes, y: Lx)
    requires y.state == OfComment(CommentStart)
    ensures LexStep(input, y) ==
            y.(state := OfComment(Comment), start := y.pos,
               items := y.items + [Item(ItemCommentStart, [], LineAt(input, y.pos))])
  {
    hide LineAt;
    NoText(input, y.pos);
  }

  lemma {:induction false} OverRemark(input: Bytes, x: Lx, t: Bytes)
    requires x.state == OfComment(Comment) && Has(input, x.pos, t) && RemarkPrintable(t)
    ensures Lex(input, x, |t|) == x.(pos := x.pos + |t|)
    decreases |t|
  {
    if t != [] {
      HasFirst(input, x.pos, t);
      assert LexStep(input, x) == CommentStep(input, x) == x.(pos := x.pos + 1);
      OverRemark(input, x.(pos := x.pos + 1), t[1..]);
    }
  }

  lemma RemarkEnds(input: Bytes, z: Lx)
    requires z.state == OfComment(Comment) && z.stack != [] && (IsNL(Rune(input, z.pos)) || Rune(input, z.pos) == EOF)
    ensures LexStep(input, z) == Emitted(input, z, ItemText).(state := Last(z.stack), stack := Front(z.stack))
  {
    assert LexStep(input, z) == CommentStep(input, z);
  }

  /** A comment, up to the newline behind it or the end of the input. */
  lemma ReadComment(input: Bytes, x: Lx, text: Bytes, slashes: bool) returns (n: nat)
    requires Commentable(x.state) && RemarkPrintable(text)
    requires Has(input, x.pos, Sign(slashes)) && Has(input, x.pos + |Sign(slashes)|, text)
    requires var c := Rune(input, x.pos + |Sign(slashes)| + |text|); IsNL(c) || c == EOF
    ensures n == |text| + 3
    ensures var m := Lex(input, x, n);
            && m.state == Back(x.state) && m.stack == x.stack && m.start == m.pos == x.pos + |Sign(slashes)| + |text|
            && Bare(m.items) == Bare(x.items) + RemarkItems(text)
  {
    hide Lex, LexStep, LineAt, Bare, Has, Text, Commentable, RemarkPrintable, Sign, Rune, Back;
    SignStep(input, x, slashes);
    One(input, x);
    var y := LexStep(input, x);
    RemarkStarts(input, y);
    var c := LexStep(input, y);
    Go(input, x, 1, y, c);
    OverRemark(input, c, text);
    LexAdd(input, x, 2, |text|);
    HasText(input, c.pos, text);
    var z := c.(pos := c.pos + |text|);
    RemarkEnds(input, z);
    Go(input, x, 2 + |text|, z, LexStep(input, z));
    n := |text| + 3;
    assert Front(z.stack) == x.stack && Last(z.stack) == Back(x.state);
    BareSnoc(x.items, Item(ItemCommentStart, [], LineAt(input, y.pos)));
    BareSnoc(z.items, Item(ItemText, text, LineAt(input, z.pos)));
    assert Bare(x.items) + [Mark(ItemCommentStart)] + [Item(ItemText, text, 0)] == Bare(x.items) + RemarkItems(text);
  }

  lemma RemarkParts(input: Bytes, p: nat, text: Bytes, slashes: bool)
    requires Has(input, p, RemarkText(text, slashes))
    ensures var sign := Sign(slashes); var q := p + |sign| + |text|;
            && |RemarkText(text, slashes)| == |sign| + |text| + 1 && |sign| > 0
            && Has(input, p, sign) && Has(input, p + |sign|, text) && q < |input| && Has(input, q, ['\n'])
            && Rune(input, q) == '\n'
  {
    var sign := Sign(slashes);
    assert RemarkText(text, slashes) == sign + (text + ['\n']);
    hide Has, RemarkText;
    HasParts(input, p, sign, text + ['\n']);
    HasParts(input, p + |sign|, text, ['\n']);
    HasFirst(input, p + |sign| + |text|, ['\n']);
  }

  // ----- what comes between values -----

  /** Blanks, newlines and lines of comment in front of a value or a key. */
  lemma ReadFill(input: Bytes, x: Lx, f: Filler, region: Region) returns (n: nat)
    requires x.state == Open(region) && x.start == x.pos && FillPrintable(f) && Has(input, x.pos, FillText(f))
    ensures ReadOn(input, x, n, |FillText(f)|, FillItems(f), x.state)
  {
    hide Lex, Has, Bare, RemarkText, Sign, RemarkPrintable, Rune;
    match f
    case Gap(t) =>
      n := 2 * |t|;
      OverGap(input, x, t);
      assert Bare(x.items) + [] == Bare(x.items);
    case Remark(text, slashes) =>
      RemarkParts(input, x.pos, text, slashes);
      var a := ReadComment(input, x, text, slashes);
      OverGap(input, Lex(input, x, a), ['\n']);
      LexAdd(input, x, a, 2);
      n := a + 2;
  }

  /** Blanks behind a value. */
  lemma OverBlanks(input: Bytes, x: Lx, region: Region, t: Bytes) returns (n: nat)
    requires x.state == AfterValue(region) && x.start == x.pos && Has(input, x.pos, t) && AllBlank(t)
    ensures n <= 2 * |t|
    ensures Lex(input, x, n) == x.(pos := x.pos + |t|, start := if region.OnTop? then x.start else x.pos + |t|)
  {
    if region.OnTop? {
      OverTopBlanks(input, x, t);
      n := |t|;
    } else {
      OverGap(input, x, t);
      n := 2 * |t|;
    }
  }

  lemma {:induction false} OverTopBlanks(input: Bytes, x: Lx, t: Bytes)
    requires x.state == OfTop(TopValueEnd) && Has(input, x.pos, t) && AllBlank(t)
    ensures Lex(input, x, |t|) == x.(pos := x.pos + |t|)
    decreases |t|
  {
    if t != [] {
      HasFirst(input, x.pos, t);
      assert LexStep(input, x) == TopValueEndStep(input, x) == x.(pos := x.pos + 1);
      OverTopBlanks(input, x.(pos := x.pos + 1), t[1..]);
    }
  }

  /** The byte that ends a value. */
  lemma ReadStop(input: Bytes, y: Lx, region: Region) returns (n: nat)
    requires y.state == AfterValue(region) && y.pos < |input| && EndsValue(input[y.pos], region)
    ensures n <= 2 && Lex(input, y, n) == Lx(Open(region), y.pos + 1, y.pos + 1, y.stack, y.items)
  {
    hide Lex;
    var done := Lx(Open(region), y.pos + 1, y.pos + 1, y.stack, y.items);
    One(input, y);
    StopStep(input, y, region);
    if region.OnTop? {
      n := 1;
    } else {
      n := 2;
      Go(input, y, 1, done.(state := Skip(Open(region)), start := y.start), done);
    }
  }

  lemma StopStep(input: Bytes, y: Lx, region: Region)
    requires y.state == AfterValue(region) && y.pos < |input| && EndsValue(input[y.pos], region)
    ensures LexStep(input, y) ==
            if region.OnTop? then y.(state := Open(region), start := y.pos + 1, pos := y.pos + 1)
            else y.(state := Skip(Open(region)), pos := y.pos + 1)
  {
  }

  lemma ReadEnd(input: Bytes, x: Lx, e: End, region: Region) returns (n: nat)
    requires x.state == AfterValue(region) && x.start == x.pos && Has(input, x.pos, EndText(e))
    requires e.Stop? ==> AllBlank(e.blanks) && EndsValue(e.c, region)
    requires e.Note? ==> AllBlank(e.blanks) && RemarkPrintable(e.text)
    ensures ReadOn(input, x, n, |EndText(e)|, EndItems(e), if e.NoEnd? then x.state else Open(region))
  {
    match e
    case NoEnd => n := 0; ReadNothing(input, x);
    case Stop(blanks, c) => n := ReadEndStop(input, x, blanks, c, region);
    case Note(blanks, text, slashes) => n := ReadEndNote(input, x, blanks, text, slashes, region);
  }

  lemma ReadEndStop(input: Bytes, x: Lx, blanks: Bytes, c: char, region: Region) returns (n: nat)
    requires x.state == AfterValue(region) && x.start == x.pos && Has(input, x.pos, blanks + [c])
    requires AllBlank(blanks) && EndsValue(c, region)
    ensures ReadOn(input, x, n, |blanks| + 1, [], Open(region))
  {
    hide Lex, Has, Bare, EndsValue, AllBlank;
    HasParts(input, x.pos, blanks, [c]);
    HasFirst(input, x.pos + |blanks|, [c]);
    var a := OverBlanks(input, x, region, blanks);
    var b := ReadStop(input, Lex(input, x, a), region);
    LexAdd(input, x, a, b);
    n := a + b;
    assert Bare(x.items) + [] == Bare(x.items);
  }

  lemma ReadEndNote(input: Bytes, x: Lx, blanks: Bytes, text: Bytes, slashes: bool, region: Region) returns (n: nat)
    requires x.state == AfterValue(region) && x.start == x.pos && Has(input, x.pos, blanks + RemarkText(text, slashes))
    requires AllBlank(blanks) && RemarkPrintable(text)
    ensures ReadOn(input, x, n, |blanks| + |RemarkText(text, slashes)|, RemarkItems(text), Open(region))
  {
    hide Lex, Has, Bare, EndsValue, AllBlank, RemarkText, Sign, RemarkPrintable;
    HasParts(input, x.pos, blanks, RemarkText(text, slashes));
    RemarkParts(input, x.pos + |blanks|, text, slashes);
    var a := OverBlanks(input, x, region, blanks);
    var y := Lex(input, x, a);
    var b := ReadComment(input, y, text, slashes);
    LexAdd(input, x, a, b);
    var z := Lex(input, y, b);
    var c := NoteEnds(input, z, region);
    LexAdd(input, x, a + b, c);
    n := a + b + c;
  }

  lemma NoteEnds(input: Bytes, z: Lx, region: Region) returns (n: nat)
    requires z.state == Back(AfterValue(region)) && z.start == z.pos && Has(input, z.pos, ['\n'])
    ensures n <= 2 && Lex(input, z, n) == Lx(Open(region), z.pos + 1, z.pos + 1, z.stack, z.items)
  {
    hide Lex;
    HasFirst(input, z.pos, ['\n']);
    if region.OnTop? {
      OverGap(input, z, ['\n']);
      n := 2;
    } else {
      n := ReadStop(input, z, region);
    }
  }

  // ----- keys -----

  function InKey(region: Region, q: char): LexState {
    if region.OnTop? then OfKey(if q == '"' then DubQuotedKey else QuotedKey)
    else OfMap(if q == '"' then MapDubQuotedKey else MapQuotedKey)
  }

  function InPlainKey(region: Region): LexState { if region.OnTop? then OfKey(PlainKey) else OfMap(MapKey) }

  /** At the top, what is to come behind the value is pushed with the key. */
  function KeyStack(region: Region, stack: seq<LexState>): seq<LexState> {
    if region.OnTop? then stack + [AfterValue(region)] else stack
  }

  lemma KeyOpens(input: Bytes, x: Lx, region: Region, q: char) returns (n: nat)
    requires x.state == Open(region) && !region.InBrackets? && x.start == x.pos < |input|
    requires input[x.pos] == q && (q == '"' || q == '\'')
    ensures n <= 3
    ensures Lex(input, x, n) ==
            x.(state := InKey(region, q), start := x.pos + 1, pos := x.pos + 1, stack := KeyStack(region, x.stack))
  {
    hide Lex;
    One(input, x);
    var z := x.(state := InKey(region, q), start := x.pos + 1, pos := x.pos + 1);
    if region.OnTop? {
      var y := x.(state := OfKey(KeyStart), stack := x.stack + [OfTop(TopValueEnd)]);
      assert LexStep(input, x) == TopStep(input, x) == y;
      Go(input, x, 1, y, KeyStartStep(input, y));
      Go(input, x, 2, KeyStartStep(input, y), z.(stack := y.stack));
      n := 3;
    } else {
      var y := MapKeyStartStep(input, x);
      Go(input, x, 1, y, z);
      n := 2;
    }
  }

  /** A key read: the lexer is behind it, where its separator comes. */
  predicate KeyRead(input: Bytes, x: Lx, n: nat, len: nat, name: Bytes, region: Region) {
    var m := Lex(input, x, n);
    && m.state == AfterKey(region.OnTop?) && m.start == m.pos == x.pos + len
    && m.stack == KeyStack(region, x.stack) && Bare(m.items) == Bare(x.items) + [Item(ItemKey, name, 0)]
  }

  lemma ReadQuotedKey(input: Bytes, x: Lx, q: char, name: Bytes, region: Region) returns (n: nat)
    requires x.state == Open(region) && !region.InBrackets? && x.start == x.pos
    requires (q == '"' || q == '\'') && q !in name && Has(input, x.pos, Quoted(q, name))
    ensures n <= |name| + 5 && KeyRead(input, x, n, |name| + 2, name, region)
  {
    hide Lex, LexStep, LineAt, Bare, Has, Text;
    EnclosedParts(input, x.pos, q, name, q);
    var a := KeyOpens(input, x, region, q);
    var y := Lex(input, x, a);
    OverQuoted(input, y, q, name);
    LexAdd(input, x, a, |name|);
    HasText(input, y.pos, name);
    var z := y.(pos := y.pos + |name|);
    QuoteCloses(input, z, region, q);
    var e := Emitted(input, z, ItemKey).(state := Skip(AfterKey(region.OnTop?)), pos := z.pos + 1);
    Go(input, x, a + |name|, z, e);
    Go(input, x, a + |name| + 1, e, e.(state := AfterKey(region.OnTop?), start := e.pos));
    BareSnoc(x.items, Item(ItemKey, name, LineAt(input, z.pos)));
    n := a + |name| + 2;
  }

  lemma QuoteCloses(input: Bytes, z: Lx, region: Region, q: char)
    requires z.state == InKey(region, q) && z.pos < |input| && input[z.pos] == q && (q == '"' || q == '\'')
    ensures var e := Emitted(input, z, ItemKey).(state := Skip(AfterKey(region.OnTop?)), pos := z.pos + 1);
            LexStep(input, z) == e && LexStep(input, e) == e.(state := AfterKey(region.OnTop?), start := e.pos)
  {
    assert LexStep(input, z) == QuotedKeyStep(input, z, q);
  }

  lemma {:induction false} OverKey(input: Bytes, x: Lx, region: Region, t: Bytes)
    requires x.state == InPlainKey(region) && Has(input, x.pos, t) && IsKeyText(t)
    ensures Lex(input, x, |t|) == x.(pos := x.pos + |t|)
    decreases |t|
  {
    if t != [] {
      HasFirst(input, x.pos, t);
      assert LexStep(input, x) == PlainKeyStep(input, x) == x.(pos := x.pos + 1);
      OverKey(input, x.(pos := x.pos + 1), region, t[1..]);
    }
  }

  /** The bytes a key without quotes starts with there. */
  predicate KeyStarts(r: char, region: Region) {
    StartsKey(r) && (region.OnTop? || r != '}') && !IsWhitespace(r) && !IsNL(r) && !IsKeySeparator(r)
  }

  /** The first byte of a key without quotes is the first byte of its text. */
  lemma PlainKeyBegins(input: Bytes, x: Lx, region: Region) returns (n: nat)
    requires x.state == Open(region) && !region.InBrackets? && x.start == x.pos < |input|
    requires KeyStarts(input[x.pos], region)
    ensures n <= 2
    ensures Lex(input, x, n) ==
            x.(state := InPlainKey(region), pos := x.pos + 1, stack := KeyStack(region, x.stack))
  {
    hide Lex;
    One(input, x);
    var z := x.(state := InPlainKey(region), pos := x.pos + 1);
    if region.OnTop? {
      var y := x.(state := OfKey(KeyStart), stack := x.stack + [OfTop(TopValueEnd)]);
      assert LexStep(input, x) == TopStep(input, x) == y;
      assert LexStep(input, y) == KeyStartStep(input, y) == z.(stack := y.stack);
      Go(input, x, 1, y, z.(stack := y.stack));
      n := 2;
    } else {
      assert LexStep(input, x) == MapKeyStartStep(input, x) == z;
      n := 1;
    }
  }

  lemma PlainKeyEnds(input: Bytes, z: Lx, region: Region)
    requires z.state == InPlainKey(region) && z.pos < |input|
    requires IsWhitespace(input[z.pos]) || IsNL(input[z.pos]) || IsKeySeparator(input[z.pos])
    ensures LexStep(input, z) == Emitted(input, z, ItemKey).(state := AfterKey(region.OnTop?))
  {
  }

  lemma KeyTextParts(t: Bytes)
    requires t != [] && IsKeyText(t)
    ensures IsKeyText(t[1..]) && !IsWhitespace(t[0]) && !IsNL(t[0]) && !IsKeySeparator(t[0])
  {
  }

  lemma ReadPlainKey(input: Bytes, x: Lx, name: Bytes, region: Region) returns (n: nat)
    requires x.state == Open(region) && !region.InBrackets? && x.start == x.pos
    requires name != [] && IsKeyText(name) && StartsKey(name[0]) && (region.OnTop? || name[0] != '}')
    requires Has(input, x.pos, name) && x.pos + |name| < |input|
    requires var c := input[x.pos + |name|]; IsWhitespace(c) || IsNL(c) || IsKeySeparator(c)
    ensures n <= |name| + 2 && KeyRead(input, x, n, |name|, name, region)
  {
    hide Lex, LexStep, LineAt, Bare, Has, Text, IsKeyText, StartsKey, IsWhitespace, IsNL, IsKeySeparator;
    HasFirst(input, x.pos, name);
    KeyTextParts(name);
    var a := PlainKeyBegins(input, x, region);
    var y := Lex(input, x, a);
    OverKey(input, y, region, name[1..]);
    LexAdd(input, x, a, |name| - 1);
    HasText(input, x.pos, name);
    var z := y.(pos := x.pos + |name|);
    PlainKeyEnds(input, z, region);
    Go(input, x, a + |name| - 1, z, Emitted(input, z, ItemKey).(state := AfterKey(region.OnTop?)));
    BareSnoc(x.items, Item(ItemKey, name, LineAt(input, z.pos)));
    n := a + |name|;
  }

  /** In a map, a slash before a key is lost. */
  lemma ReadSlashKey(input: Bytes, x: Lx, name: Bytes) returns (n: nat)
    requires x.state == Open(InBraces) && x.start == x.pos && name != [] && name[0] != '/' && IsKeyText(name[1..])
    requires Has(input, x.pos, ['/'] + name) && x.pos + 1 + |name| < |input|
    requires var c := input[x.pos + 1 + |name|]; IsWhitespace(c) || IsNL(c) || IsKeySeparator(c)
    ensures n <= |name| + 3 && KeyRead(input, x, n, |name| + 1, name, InBraces)
  {
    hide Lex, LexStep, LineAt, Bare, Has, Text, IsKeyText, IsWhitespace, IsNL, IsKeySeparator;
    HasParts(input, x.pos, ['/'], name);
    HasFirst(input, x.pos, ['/'] + name);
    HasFirst(input, x.pos + 1, name);
    var y := x.(state := OfMap(MapKey), start := x.pos + 1, pos := x.pos + 2);
    SlashStep(input, x);
    One(input, x);
    OverKey(input, y, InBraces, name[1..]);
    LexAdd(input, x, 1, |name| - 1);
    HasText(input, x.pos + 1, name);
    var z := y.(pos := x.pos + 1 + |name|);
    PlainKeyEnds(input, z, InBraces);
    Go(input, x, |name|, z, Emitted(input, z, ItemKey).(state := AfterKey(false)));
    BareSnoc(x.items, Item(ItemKey, name, LineAt(input, z.pos)));
    n := |name| + 1;
  }

  lemma SlashStep(input: Bytes, x: Lx)
    requires x.state == Open(InBraces) && x.start == x.pos && x.pos + 1 < |input|
    requires input[x.pos] == '/' && input[x.pos + 1] != '/'
    ensures LexStep(input, x) == x.(state := OfMap(MapKey), start := x.pos + 1, pos := x.pos + 2)
  {
    assert LexStep(input, x) == MapKeyStartStep(input, x);
  }

  // ----- from a key to its value -----

  function ValueState(region: Region): LexState {
    if region.OnTop? then OfValue(AnyValue) else OfKeyed(MapValue)
  }

  /** The separator itself. */
  lemma ReadMark(input: Bytes, y: Lx, sep: char, region: Region)
    requires y.state == AfterKey(region.OnTop?) && y.pos < |input| && input[y.pos] == sep
    requires sep == '=' || sep == ':' || sep == ' '
    ensures Lex(input, y, 2) ==
            y.(state := if sep == ' ' then y.state else ValueState(region), start := y.pos + 1, pos := y.pos + 1)
  {
    hide Lex;
    One(input, y);
    var next := if sep == ' ' then y.state else ValueState(region);
    var z := y.(state := Skip(next), pos := y.pos + 1);
    assert LexStep(input, y) == KeyEndStep(input, y) == z;
    Go(input, y, 1, z, z.(state := next, start := z.pos));
  }

  /** The blanks, the separator and the blanks, up to the value. */
  lemma ReadSep(input: Bytes, y: Lx, key: Key, region: Region) returns (n: nat)
    requires y.state == AfterKey(region.OnTop?) && y.start == y.pos && KeyWritable(key, region)
    requires Has(input, y.pos, key.left) && Has(input, y.pos + |key.left|, [key.sep])
    requires Has(input, y.pos + |key.left| + 1, key.right)
    ensures var p := y.pos + |key.left| + 1 + |key.right|;
            && n == 2 * (|key.left| + 1 + |key.right|)
            && Lex(input, y, n) ==
               y.(state := if key.sep == ' ' then y.state else ValueState(region), start := p, pos := p)
  {
    hide Lex, Has;
    HasFirst(input, y.pos + |key.left|, [key.sep]);
    OverGap(input, y, key.left);
    var a := 2 * |key.left|;
    var z := Lex(input, y, a);
    ReadMark(input, z, key.sep, region);
    LexAdd(input, y, a, 2);
    OverGap(input, Lex(input, y, a + 2), key.right);
    LexAdd(input, y, a + 2, 2 * |key.right|);
    n := a + 2 + 2 * |key.right|;
  }

  /** The value begins: in a map, what is to come behind it is pushed now. */
  lemma ValueBegins(input: Bytes, y: Lx, sep: char, region: Region) returns (n: nat)
    requires y.state == (if sep == ' ' then AfterKey(region.OnTop?) else ValueState(region)) && !region.InBrackets?
    requires y.pos < |input| && IsSolid(input[y.pos]) && StartsAt(input[y.pos], region, sep)
    ensures n <= 2
    ensures Lex(input, y, n) ==
            y.(state := OfValue(AnyValue), stack := if region.OnTop? then y.stack else y.stack + [AfterValue(region)])
  {
    hide Lex;
    NoStep(input, y);
    n := 0;
    var z := y.(state := ValueState(region));
    if sep == ' ' {
      assert LexStep(input, y) == KeyEndStep(input, y) == z;
      Go(input, y, 0, y, z);
      n := 1;
    }
    if !region.OnTop? {
      assert LexStep(input, z) == MapValueStep(input, z) == Inner(z, OfMap(MapValueEnd));
      Go(input, y, n, z, Inner(z, OfMap(MapValueEnd)));
      n := n + 1;
    }
  }

  /** A key with its separator, up to the value. */
  lemma ReadKey(input: Bytes, x: Lx, key: Key, region: Region) returns (n: nat)
    requires x.state == Open(region) && !region.InBrackets? && x.start == x.pos && KeyWritable(key, region)
    requires Has(input, x.pos, KeyText(key))
    requires var p := x.pos + |KeyText(key)|; p < |input| && IsSolid(input[p]) && StartsAt(input[p], region, key.sep)
    ensures n <= 4 * |KeyText(key)|
    ensures var m := Lex(input, x, n);
            && BeforeValue(m) && m.pos == x.pos + |KeyText(key)| && m.stack == x.stack + [AfterValue(region)]
            && Bare(m.items) == Bare(x.items) + [Item(ItemKey, key.name, 0)]
  {
    hide Lex, LexStep, Bare, Has, IsSolid, StartsAt, KeyWritable, Styled;
    KeyParts(input, x.pos, key);
    var a := ReadName(input, x, key, region);
    var y := Lex(input, x, a);
    var b := ReadSep(input, y, key, region);
    LexAdd(input, x, a, b);
    var c := ValueBegins(input, Lex(input, y, b), key.sep, region);
    LexAdd(input, x, a + b, c);
    n := a + b + c;
  }

  lemma KeyParts(input: Bytes, p: nat, key: Key)
    requires Has(input, p, KeyText(key))
    ensures var s := Styled(key.style, key.name); var q := p + |s|;
            && |KeyText(key)| == |s| + |key.left| + 1 + |key.right|
            && Has(input, p, s) && Has(input, q, key.left) && Has(input, q + |key.left|, [key.sep])
            && Has(input, q + |key.left| + 1, key.right)
            && q < |input| && input[q] == (key.left + [key.sep])[0]
  {
    hide *;
    var s, rest := Styled(key.style, key.name), key.left + ([key.sep] + key.right);
    KeyPrinted(key);
    HasParts(input, p, s, rest);
    HasFirst(input, p + |s|, rest);
    HasParts(input, p + |s|, key.left, [key.sep] + key.right);
    HasParts(input, p + |s| + |key.left|, [key.sep], key.right);
  }

  lemma KeyPrinted(key: Key)
    ensures var rest := key.left + ([key.sep] + key.right);
            KeyText(key) == Styled(key.style, key.name) + rest && rest[0] == (key.left + [key.sep])[0]
  {
    hide Styled;
  }

  lemma ReadName(input: Bytes, x: Lx, key: Key, region: Region) returns (n: nat)
    requires x.state == Open(region) && !region.InBrackets? && x.start == x.pos && KeyWritable(key, region)
    requires var s := Styled(key.style, key.name);
             Has(input, x.pos, s) && x.pos + |s| < |input| && input[x.pos + |s|] == (key.left + [key.sep])[0]
    ensures n <= 3 * |Styled(key.style, key.name)|
    ensures KeyRead(input, x, n, |Styled(key.style, key.name)|, key.name, region)
  {
    hide KeyRead, Has, Lex, IsKeyText, StartsKey;
    match key.style
    case InDouble => n := ReadQuotedKey(input, x, '"', key.name, region);
    case InSingle => n := ReadQuotedKey(input, x, '\'', key.name, region);
    case AsIs => n := ReadPlainKey(input, x, key.name, region);
    case SlashBefore => n := ReadSlashKey(input, x, key.name);
  }

  // ----- brackets -----

  function Opener(isArray: bool): ItemType { if isArray then ItemArrayStart else ItemMapStart }

  function Closing(isArray: bool): ItemType { if isArray then ItemArrayEnd else ItemMapEnd }

  function RegionOf(isArray: bool): Region { if isArray then InBrackets else InBraces }

  lemma ReadOpening(input: Bytes, x: Lx, isArray: bool)
    requires BeforeValue(x) && x.pos < |input| && input[x.pos] == if isArray then '[' else '{'
    ensures var m := Lex(input, x, 1);
            && m.state == Open(RegionOf(isArray)) && m.stack == x.stack && m.start == m.pos == x.pos + 1
            && Bare(m.items) == Bare(x.items) + [Mark(Opener(isArray))]
  {
    hide Lex, LineAt, Bare, Text;
    One(input, x);
    NoText(input, x.pos + 1);
    assert LexStep(input, x) == ValueStep(input, x);
    BareSnoc(x.items, Item(Opener(isArray), [], LineAt(input, x.pos + 1)));
  }

  /** A closing bracket, where a value could begin or has just ended. */
  lemma ReadClosing(input: Bytes, x: Lx, isArray: bool) returns (n: nat)
    requires x.state == Open(RegionOf(isArray)) || x.state == AfterValue(RegionOf(isArray))
    requires x.start == x.pos < |input| && x.stack != [] && input[x.pos] == Closer(RegionOf(isArray))
    ensures ReadOver(input, x, n, 1, [Mark(Closing(isArray))])
  {
    hide Lex, LineAt, Bare, LexStep;
    var z;
    n, z := ToClosing(input, x, isArray);
    One(input, z);
    LexAdd(input, x, n, 1);
    BracketCloses(input, z);
    BareSnoc(x.items, Item(Closing(isArray), [], LineAt(input, x.pos + 1)));
    n := n + 1;
  }

  lemma ToClosing(input: Bytes, x: Lx, isArray: bool) returns (n: nat, z: Lx)
    requires x.state == Open(RegionOf(isArray)) || x.state == AfterValue(RegionOf(isArray))
    requires x.start == x.pos < |input| && input[x.pos] == Closer(RegionOf(isArray))
    ensures z == x.(state := if isArray then OfArray(ArrayEnd) else OfMap(MapEnd), pos := x.pos + 1,
                    start := if isArray then x.pos else x.pos + 1)
    ensures n <= 2 && Lex(input, x, n) == z
  {
    hide Lex;
    One(input, x);
    if isArray {
      n, z := 1, x.(state := OfArray(ArrayEnd), pos := x.pos + 1);
      assert LexStep(input, x) == z;
    } else {
      var y := x.(state := Skip(OfMap(MapEnd)), pos := x.pos + 1);
      assert LexStep(input, x) == y;
      n, z := 2, y.(state := OfMap(MapEnd), start := x.pos + 1);
      Go(input, x, 1, y, z);
    }
  }

  lemma BracketCloses(input: Bytes, z: Lx)
    requires (z.state == OfArray(ArrayEnd) || z.state == OfMap(MapEnd)) && z.stack != [] && z.pos <= |input|
    ensures LexStep(input, z) ==
            Lx(Last(z.stack), z.pos, z.pos, Front(z.stack),
               z.items + [Item(Closing(z.state.OfArray?), [], LineAt(input, z.pos))])
  {
    hide LineAt, Text;
    NoText(input, z.pos);
  }

  /** From the opening bracket over what is inside to the closing one. */
  lemma ReadBracketed(input: Bytes, x: Lx, k: nat, isArray: bool, inner: Bytes, its: seq<Item>, st: LexState)
    returns (n: nat)
    requires BeforeValue(x) && x.pos < |input| && input[x.pos] == if isArray then '[' else '{'
    requires st == Open(RegionOf(isArray)) || st == AfterValue(RegionOf(isArray))
    requires ReadOn(input, Lex(input, x, 1), k, |inner|, its, st)
    requires var p := x.pos + 1 + |inner|; p < |input| && input[p] == Closer(RegionOf(isArray))
    ensures ReadOver(input, x, n, |inner| + 2, [Mark(Opener(isArray))] + (its + [Mark(Closing(isArray))]))
  {
    hide Lex, Bare, Mark;
    ReadOpening(input, x, isArray);
    LexAdd(input, x, 1, k);
    var z := Lex(input, x, 1 + k);
    var c := ReadClosing(input, z, isArray);
    LexAdd(input, x, 1 + k, c);
    n := 1 + k + c;
    var b, o, e := Bare(x.items), [Mark(Opener(isArray))], [Mark(Closing(isArray))];
    assert ((b + o) + its) + e == b + (o + (its + e));
  }

  // ----- trees -----

  lemma TreeStarts(t: Tree)
    requires Printable(t)
    ensures TreeText(t) != [] && IsSolid(TreeText(t)[0])
  {
    if t.Leaf? { LitStarts(t.lit); }
  }

  /** Nothing but strings without quotes depends on where it stands. */
  lemma StartsAnywhere(t: Tree, region: Region, sep: char)
    requires Printable(t) && !(t.Leaf? && t.lit.Words? && (t.lit.style == AsIs || t.lit.style == QuoteBehind))
    ensures Starts(t, region, sep)
  {
    hide IsFraction, IsMoment, IsInteger, AllDigits, Unquoted;
    if t.Leaf? { LitStarts(t.lit); }
  }

  /** Where the lexer is behind the elements or the fields. */
  function BehindElems(ts: Trees): LexState {
    match ts
    case NoTree => Open(InBrackets)
    case Elem(_, end, tail) => if end.NoEnd? then AfterValue(InBrackets) else BehindElems(tail)
    case ElemFill(_, tail) => BehindElems(tail)
  }

  function BehindFields(fs: Fields, region: Region): LexState {
    match fs
    case NoField => Open(region)
    case Field(_, _, end, rest) => if end.NoEnd? then AfterValue(region) else BehindFields(rest, region)
    case FieldFill(_, rest) => BehindFields(rest, region)
  }

  lemma {:induction false} BehindElemsIs(ts: Trees)
    ensures BehindElems(ts) == Open(InBrackets) || BehindElems(ts) == AfterValue(InBrackets)
    decreases ts
  {
    if ts.Elem? || ts.ElemFill? { BehindElemsIs(ts.tail); }
  }

  lemma {:induction false} BehindFieldsIs(fs: Fields, region: Region)
    ensures BehindFields(fs, region) == Open(region) || BehindFields(fs, region) == AfterValue(region)
    decreases fs
  {
    if fs.Field? || fs.FieldFill? { BehindFieldsIs(fs.rest, region); }
  }

  lemma {:induction false} ReadTree(input: Bytes, x: Lx, t: Tree) returns (n: nat)
    requires BeforeValue(x) && Printable(t) && Has(input, x.pos, TreeText(t))
    requires Fits(t, Rune(input, x.pos + |TreeText(t)|))
    ensures ReadOver(input, x, n, |TreeText(t)|, Items(t))
    decreases t, 0
  {
    hide Lex, ReadOver, ReadOn, Has, Quoted, Bare, LitPrintable, LitText, LitItem, Rune, BehindElems, BehindFields,
      ElemsText, FieldsText, ElemItems, FieldItems, AllPrintable, FieldsPrintable;
    match t
    case Leaf(l) => n := ReadLit(input, x, l);
    case Array(elems) =>
      var inner := ElemsText(elems);
      EnclosedParts(input, x.pos, '[', inner, ']');
      ReadOpening(input, x, true);
      AtRune(input, x.pos + 1 + |inner|);
      var k := ReadElems(input, Lex(input, x, 1), elems);
      BehindElemsIs(elems);
      n := ReadBracketed(input, x, k, true, inner, ElemItems(elems), BehindElems(elems));
    case Object(fields) =>
      var inner := FieldsText(fields);
      EnclosedParts(input, x.pos, '{', inner, '}');
      ReadOpening(input, x, false);
      AtRune(input, x.pos + 1 + |inner|);
      var k := ReadFields(input, Lex(input, x, 1), fields, InBraces);
      BehindFieldsIs(fields, InBraces);
      n := ReadBracketed(input, x, k, false, inner, FieldItems(fields), BehindFields(fields, InBraces));
  }

  lemma AtRune(input: Bytes, p: nat)
    requires p < |input|
    ensures Rune(input, p) == input[p]
  {
  }

  lemma {:induction false} ReadElems(input: Bytes, x: Lx, ts: Trees) returns (n: nat)
    requires x.state == Open(InBrackets) && x.start == x.pos && AllPrintable(ts) && Has(input, x.pos, ElemsText(ts))
    requires Rune(input, x.pos + |ElemsText(ts)|) == Closer(InBrackets)
    ensures ReadOn(input, x, n, |ElemsText(ts)|, ElemItems(ts), BehindElems(ts))
    decreases ts, 0
  {
    hide Lex, Bare, TreeText, ReadOver, ReadOn, Has, EndText, FillText, Rune, EndPrintable, Starts, FillPrintable,
      EndItems, FillItems, Items, Printable;
    match ts
    case NoTree =>
      n := 0;
      ReadNothing(input, x);
    case Elem(head, end, tail) =>
      ElemParts(input, x.pos, head, end, tail);
      ElemBegins(input, x);
      var k := ReadTree(input, Inner(x, AfterValue(InBrackets)), head);
      var e := ElemRead(input, x, k, head, end, tail.NoTree?);
      n := ReadElemsOn(input, x, head, end, tail, e);
    case ElemFill(fill, tail) =>
      HasParts(input, x.pos, FillText(fill), ElemsText(tail));
      var e := ReadFill(input, x, fill, InBrackets);
      WhereOn(input, x, e, |FillText(fill)|, FillItems(fill), x.state);
      var c := ReadElems(input, Lex(input, x, e), tail);
      ReadOnAndOn(input, x, e, |FillText(fill)|, FillItems(fill), x.state, c, |ElemsText(tail)|, ElemItems(tail),
                  BehindElems(tail));
      n := e + c;
  }

  /** Behind an element: the others, or nothing. */
  lemma {:induction false} ReadElemsOn(input: Bytes, x: Lx, head: Tree, end: End, tail: Trees, e: nat)
    returns (n: nat)
    requires x.state == Open(InBrackets) && x.start == x.pos && AllPrintable(Elem(head, end, tail))
    requires ReadOn(input, x, e, |TreeText(head)| + |EndText(end)|, Items(head) + EndItems(end),
                    if end.NoEnd? then AfterValue(InBrackets) else Open(InBrackets))
    requires Has(input, x.pos + |TreeText(head)| + |EndText(end)|, ElemsText(tail))
    requires Rune(input, x.pos + |TreeText(head)| + |EndText(end)| + |ElemsText(tail)|) == Closer(InBrackets)
    ensures ReadOn(input, x, n, |TreeText(head)| + |EndText(end)| + |ElemsText(tail)|,
                   Items(head) + (EndItems(end) + ElemItems(tail)), BehindElems(Elem(head, end, tail)))
    decreases tail, 1
  {
    hide *;
    var len, its := |TreeText(head)| + |EndText(end)|, Items(head) + EndItems(end);
    OnlyTheLastElem(head, end, tail);
    assert its + ElemItems(tail) == Items(head) + (EndItems(end) + ElemItems(tail));
    if end.NoEnd? {
      n := e;
    } else {
      WhereOn(input, x, e, len, its, Open(InBrackets));
      var r := ReadElems(input, Lex(input, x, e), tail);
      ReadOnAndOn(input, x, e, len, its, Open(InBrackets), r, |ElemsText(tail)|, ElemItems(tail), BehindElems(tail));
      n := e + r;
    }
  }

  lemma OnlyTheLastElem(head: Tree, end: End, tail: Trees)
    requires AllPrintable(Elem(head, end, tail))
    ensures AllPrintable(tail)
    ensures BehindElems(Elem(head, end, tail)) == if end.NoEnd? then AfterValue(InBrackets) else BehindElems(tail)
    ensures end.NoEnd? ==> ElemsText(tail) == [] && ElemItems(tail) == [] && EndItems(end) == []
  {
    hide Printable, Starts, Fits;
  }

  /** The texts of a value, of its end, and of the rest are there, and fit. */
  lemma ElemParts(input: Bytes, p: nat, head: Tree, end: End, tail: Trees)
    requires AllPrintable(Elem(head, end, tail)) && Has(input, p, ElemsText(Elem(head, end, tail)))
    requires Rune(input, p + |ElemsText(Elem(head, end, tail))|) == Closer(InBrackets)
    ensures var q := p + |TreeText(head)|; var r := q + |EndText(end)|;
            && Has(input, p, TreeText(head)) && p < |input| && IsSolid(input[p]) && StartsAt(input[p], InBrackets, ',')
            && Has(input, q, EndText(end)) && Fits(head, Rune(input, q))
            && Has(input, r, ElemsText(tail)) && Rune(input, r + |ElemsText(tail)|) == Closer(InBrackets)
    ensures |ElemsText(Elem(head, end, tail))| == |TreeText(head)| + |EndText(end)| + |ElemsText(tail)|
  {
    hide *;
    ElemPrinted(head, end, tail);
    ValuePieces(input, p, [], head, end, ElemsText(tail), InBrackets, ',', tail.NoTree?);
  }

  lemma ElemPrinted(head: Tree, end: End, tail: Trees)
    requires AllPrintable(Elem(head, end, tail))
    ensures Printable(head) && Starts(head, InBrackets, ',') && EndPrintable(head, end, InBrackets, tail.NoTree?)
    ensures ElemsText(Elem(head, end, tail)) == [] + (TreeText(head) + (EndText(end) + ElemsText(tail)))
    ensures tail.NoTree? ==> ElemsText(tail) == []
  {
    hide TreeText, EndText, Printable, Starts, EndPrintable;
    assert ElemsText(Elem(head, end, tail)) == TreeText(head) + (EndText(end) + ElemsText(tail));
  }

  /** What stands before a value, the value, its end, and what is left. */
  lemma ValuePieces(input: Bytes, p: nat, before: Bytes, t: Tree, end: End, rest: Bytes, region: Region, sep: char,
                    last: bool)
    requires Printable(t) && Starts(t, region, sep) && EndPrintable(t, end, region, last) && (last ==> rest == [])
    requires Has(input, p, before + (TreeText(t) + (EndText(end) + rest)))
    requires Rune(input, p + |before + (TreeText(t) + (EndText(end) + rest))|) == Closer(region)
    ensures var v := p + |before|; var q := v + |TreeText(t)|; var r := q + |EndText(end)|;
            && Has(input, p, before) && Has(input, v, TreeText(t)) && v < |input| && IsSolid(input[v])
            && StartsAt(input[v], region, sep) && Has(input, q, EndText(end)) && Fits(t, Rune(input, q))
            && Has(input, r, rest) && Rune(input, r + |rest|) == Closer(region)
  {
    hide TreeText, EndText, Has, Fits, Printable, EndPrintable, StartsAt, IsSolid, Rune, Closer;
    var v, q := p + |before|, p + |before| + |TreeText(t)|;
    HasParts(input, p, before, TreeText(t) + (EndText(end) + rest));
    HasParts(input, v, TreeText(t), EndText(end) + rest);
    HasParts(input, q, EndText(end), rest);
    TreeStarts(t);
    HasFirst(input, v, TreeText(t));
    AtRune(input, v);
    if end.NoEnd? { NoEndIsLast(t, end, region, last); }
    EndFits(input, q, t, end, region, last);
  }

  lemma NoEndIsLast(t: Tree, e: End, region: Region, last: bool)
    requires EndPrintable(t, e, region, last) && e.NoEnd?
    ensures last && EndText(e) == []
  {
  }

  lemma EndFits(input: Bytes, p: nat, t: Tree, e: End, region: Region, last: bool)
    requires EndPrintable(t, e, region, last) && Has(input, p, EndText(e))
    requires e.NoEnd? ==> Rune(input, p) == Closer(region)
    ensures Fits(t, Rune(input, p))
  {
    hide Fits, AllBlank, RemarkPrintable;
    match e
    case NoEnd =>
    case Stop(blanks, c) => HasFirst(input, p, blanks + [c]);
    case Note(blanks, text, slashes) =>
      var rest := text + ['\n'];
      assert blanks + (Sign(slashes) + rest) == (blanks + Sign(slashes)) + rest;
      HasParts(input, p, blanks + Sign(slashes), rest);
      HasFirst(input, p, blanks + Sign(slashes));
  }

  lemma ElemBegins(input: Bytes, x: Lx)
    requires x.state == Open(InBrackets) && x.pos < |input| && IsSolid(input[x.pos])
    requires StartsAt(input[x.pos], InBrackets, ',')
    ensures Lex(input, x, 1) == Inner(x, AfterValue(InBrackets))
  {
    One(input, x);
    var r := input[x.pos];
    assert r != '#' && r != '/' && r != ',' && r != ']';
    assert LexStep(input, x) == ArrayValueStep(input, x);
  }

  lemma ElemRead(input: Bytes, x: Lx, k: nat, head: Tree, end: End, last: bool) returns (e: nat)
    requires x.state == Open(InBrackets) && Lex(input, x, 1) == Inner(x, AfterValue(InBrackets))
    requires ReadOver(input, Inner(x, AfterValue(InBrackets)), k, |TreeText(head)|, Items(head))
    requires Has(input, x.pos + |TreeText(head)|, EndText(end)) && EndPrintable(head, end, InBrackets, last)
    ensures ReadOn(input, x, e, |TreeText(head)| + |EndText(end)|, Items(head) + EndItems(end),
                   if end.NoEnd? then AfterValue(InBrackets) else Open(InBrackets))
  {
    hide Lex, Bare, EndText, Has, TreeText, Items, EndItems, Fits;
    var y := Inner(x, AfterValue(InBrackets));
    LexAdd(input, x, 1, k);
    assert Front(y.stack) == x.stack && Last(y.stack) == AfterValue(InBrackets);
    var z := Lex(input, y, k);
    var c := ReadEnd(input, z, end, InBrackets);
    LexAdd(input, x, 1 + k, c);
    e := 1 + k + c;
    assert (Bare(x.items) + Items(head)) + EndItems(end) == Bare(x.items) + (Items(head) + EndItems(end));
  }

  lemma {:induction false} ReadFields(input: Bytes, x: Lx, fs: Fields, region: Region) returns (n: nat)
    requires x.state == Open(region) && !region.InBrackets? && x.start == x.pos && FieldsPrintable(fs, region)
    requires Has(input, x.pos, FieldsText(fs)) && Rune(input, x.pos + |FieldsText(fs)|) == Closer(region)
    ensures ReadOn(input, x, n, |FieldsText(fs)|, FieldItems(fs), BehindFields(fs, region))
    decreases fs, 0
  {
    hide Lex, Bare, TreeText, ReadOver, ReadOn, Has, BeforeValue, KeyText, EndText, FillText, Rune, EndPrintable,
      Starts, FillPrintable, EndItems, FillItems, Items, Printable, KeyWritable;
    match fs
    case NoField =>
      n := 0;
      ReadNothing(input, x);
    case Field(key, value, end, rest) =>
      FieldParts(input, x.pos, key, value, end, rest, region);
      var a := ReadKey(input, x, key, region);
      var y := Lex(input, x, a);
      assert y.pos == x.pos + |KeyText(key)|;
      var k := ReadTree(input, y, value);
      var e := FieldRead(input, x, a, k, key, value, end, region, rest.NoField?);
      n := ReadFieldsOn(input, x, key, value, end, rest, e, region);
    case FieldFill(fill, rest) =>
      HasParts(input, x.pos, FillText(fill), FieldsText(rest));
      var e := ReadFill(input, x, fill, region);
      WhereOn(input, x, e, |FillText(fill)|, FillItems(fill), x.state);
      var c := ReadFields(input, Lex(input, x, e), rest, region);
      ReadOnAndOn(input, x, e, |FillText(fill)|, FillItems(fill), x.state, c, |FieldsText(rest)|, FieldItems(rest),
                  BehindFields(rest, region));
      n := e + c;
  }

  function FieldLength(key: Key, value: Tree, end: End): nat { |KeyText(key)| + |TreeText(value)| + |EndText(end)| }

  function FieldHead(key: Key, value: Tree, end: End): seq<Item> {
    [Item(ItemKey, key.name, 0)] + (Items(value) + EndItems(end))
  }

  /** Behind a field: the others, or nothing. */
  lemma {:induction false} ReadFieldsOn(input: Bytes, x: Lx, key: Key, value: Tree, end: End, rest: Fields, e: nat,
                                        region: Region) returns (n: nat)
    requires x.state == Open(region) && !region.InBrackets? && x.start == x.pos
    requires FieldsPrintable(Field(key, value, end, rest), region)
    requires ReadOn(input, x, e, FieldLength(key, value, end), FieldHead(key, value, end),
                    if end.NoEnd? then AfterValue(region) else Open(region))
    requires Has(input, x.pos + FieldLength(key, value, end), FieldsText(rest))
    requires Rune(input, x.pos + FieldLength(key, value, end) + |FieldsText(rest)|) == Closer(region)
    ensures ReadOn(input, x, n, FieldLength(key, value, end) + |FieldsText(rest)|,
                   [Item(ItemKey, key.name, 0)] + (Items(value) + (EndItems(end) + FieldItems(rest))),
                   BehindFields(Field(key, value, end, rest), region))
    decreases rest, 1
  {
    hide *;
    var len, its := FieldLength(key, value, end), FieldHead(key, value, end);
    FieldHeadOn(key, value, end, FieldItems(rest));
    OnlyTheLast(key, value, end, rest, region);
    if end.NoEnd? {
      n := e;
    } else {
      WhereOn(input, x, e, len, its, Open(region));
      var r := ReadFields(input, Lex(input, x, e), rest, region);
      ReadOnAndOn(input, x, e, len, its, Open(region), r, |FieldsText(rest)|, FieldItems(rest),
                  BehindFields(rest, region));
      n := e + r;
    }
  }

  lemma FieldHeadOn(key: Key, value: Tree, end: End, more: seq<Item>)
    ensures FieldHead(key, value, end) + more == [Item(ItemKey, key.name, 0)] + (Items(value) + (EndItems(end) + more))
    ensures more == [] ==>
              FieldHead(key, value, end) == [Item(ItemKey, key.name, 0)] + (Items(value) + (EndItems(end) + more))
  {
    hide Items, EndItems;
  }

  lemma OnlyTheLast(key: Key, value: Tree, end: End, rest: Fields, region: Region)
    requires FieldsPrintable(Field(key, value, end, rest), region)
    ensures FieldsPrintable(rest, region)
    ensures BehindFields(Field(key, value, end, rest), region) ==
            if end.NoEnd? then AfterValue(region) else BehindFields(rest, region)
    ensures end.NoEnd? ==> FieldsText(rest) == [] && FieldItems(rest) == []
  {
    hide Printable, KeyWritable, Starts, Fits;
  }

  lemma FieldParts(input: Bytes, p: nat, key: Key, value: Tree, end: End, rest: Fields, region: Region)
    requires FieldsPrintable(Field(key, value, end, rest), region)
    requires Has(input, p, FieldsText(Field(key, value, end, rest)))
    requires Rune(input, p + |FieldsText(Field(key, value, end, rest))|) == Closer(region)
    ensures var v := p + |KeyText(key)|; var q := v + |TreeText(value)|; var r := q + |EndText(end)|;
            && Has(input, p, KeyText(key)) && Has(input, v, TreeText(value)) && v < |input| && IsSolid(input[v])
            && StartsAt(input[v], region, key.sep) && Has(input, q, EndText(end)) && Fits(value, Rune(input, q))
            && Has(input, r, FieldsText(rest)) && Rune(input, r + |FieldsText(rest)|) == Closer(region)
    ensures |FieldsText(Field(key, value, end, rest))| ==
            |KeyText(key)| + |TreeText(value)| + |EndText(end)| + |FieldsText(rest)|
  {
    hide *;
    FieldPrinted(key, value, end, rest, region);
    ValuePieces(input, p, KeyText(key), value, end, FieldsText(rest), region, key.sep, rest.NoField?);
  }

  lemma FieldPrinted(key: Key, value: Tree, end: End, rest: Fields, region: Region)
    requires FieldsPrintable(Field(key, value, end, rest), region)
    ensures Printable(value) && Starts(value, region, key.sep) && EndPrintable(value, end, region, rest.NoField?)
    ensures FieldsText(Field(key, value, end, rest)) ==
            KeyText(key) + (TreeText(value) + (EndText(end) + FieldsText(rest)))
    ensures rest.NoField? ==> FieldsText(rest) == []
  {
    hide TreeText, EndText, Printable, Starts, EndPrintable, KeyText, KeyWritable;
  }

  lemma FieldRead(input: Bytes, x: Lx, a: nat, k: nat, key: Key, value: Tree, end: End, region: Region, last: bool)
    returns (e: nat)
    requires x.state == Open(region) && a <= 4 * |KeyText(key)| && EndPrintable(value, end, region, last)
    requires var y := Lex(input, x, a);
             && BeforeValue(y) && y.pos == x.pos + |KeyText(key)| && y.stack == x.stack + [AfterValue(region)]
             && Bare(y.items) == Bare(x.items) + [Item(ItemKey, key.name, 0)]
             && ReadOver(input, y, k, |TreeText(value)|, Items(value))
    requires Has(input, x.pos + |KeyText(key)| + |TreeText(value)|, EndText(end))
    ensures ReadOn(input, x, e, FieldLength(key, value, end), FieldHead(key, value, end),
                   if end.NoEnd? then AfterValue(region) else Open(region))
  {
    hide Lex, Bare, KeyText, EndText, Has, TreeText, Items, EndItems, Fits;
    var y := Lex(input, x, a);
    LexAdd(input, x, a, k);
    assert Front(y.stack) == x.stack && Last(y.stack) == AfterValue(region);
    var c := ReadEnd(input, Lex(input, y, k), end, region);
    LexAdd(input, x, a + k, c);
    e := a + k + c;
    var b, i := Bare(x.items), [Item(ItemKey, key.name, 0)];
    assert ((b + i) + Items(value)) + EndItems(end) == b + (i + (Items(value) + EndItems(end)));
  }

  // ----- whole configurations -----

  /** The lexer makes of the text exactly the items the tree is written with, and the end. */
  lemma LexesBack(fs: Fields, k: nat)
    requires FieldsPrintable(fs, OnTop) && k >= 4 * |FieldsText(fs)| + 2
    ensures var m := Lex(FieldsText(fs), LEX_START, k);
            m.state.Done? && Bare(m.items) == FieldItems(fs) + [Mark(ItemEOF)]
  {
    hide Lex, LineAt, Text, FieldsText, FieldItems, FieldsPrintable, BehindFields, LexStep;
    var input := FieldsText(fs);
    assert input[0..0 + |input|] == input;
    var n := ReadFields(input, LEX_START, fs, OnTop);
    BehindFieldsIs(fs, OnTop);
    var x := Lex(input, LEX_START, n);
    var y := x.(state := OfTop(Top));
    var a := n;
    if x.state == OfTop(TopValueEnd) {
      LastValueEnds(input, x);
      Go(input, LEX_START, n, x, y);
      a := n + 1;
    }
    NoText(input, x.pos);
    InputEnds(input, y);
    Go(input, LEX_START, a, y, LexStep(input, y));
    LexStays(input, LEX_START, a + 1, k);
    BareSnoc(x.items, Item(ItemEOF, [], LineAt(input, x.pos)));
    assert Bare([]) + FieldItems(fs) == FieldItems(fs);
  }

  lemma LastValueEnds(input: Bytes, x: Lx)
    requires x.state == OfTop(TopValueEnd) && x.pos == |input| && x.start == x.pos
    ensures LexStep(input, x) == x.(state := OfTop(Top))
  {
    assert LexStep(input, x) == TopValueEndStep(input, x);
  }

  lemma InputEnds(input: Bytes, y: Lx)
    requires y.state == OfTop(Top) && y.pos == |input| && y.start == y.pos
    ensures LexStep(input, y) ==
            y.(state := Done, items := y.items + [Item(ItemEOF, Text(input, y.pos, y.pos), LineAt(input, y.pos))])
  {
    hide LineAt, Text;
    assert LexStep(input, y) == TopStep(input, y);
  }

  lemma {:induction false} BareAt(its: seq<Item>)
    ensures |Bare(its)| == |its| && forall k :: 0 <= k < |its| ==> Bare(its)[k] == its[k].(line := 0)
  {
    if its != [] { BareAt(its[..|its| - 1]); }
  }

  /** Lines are for error messages only. */
  lemma {:induction false} LinesDoNotMatter(env: Env, p: State, its: seq<Item>, jts: seq<Item>)
    requires |its| == |jts| && forall k :: 0 <= k < |its| ==> its[k].(line := 0) == jts[k].(line := 0)
    ensures Consume(env, p, its) == Consume(env, p, jts)
    decreases |its|
  {
    if its != [] && p.ctxs != [] {
      var it, jt := its[0], jts[0];
      assert it.(line := 0) == jt.(line := 0);
      assert it.typ == jt.typ && it.val == jt.val;
      assert Process(env, p, it) == Process(env, p, jt);
      if !it.typ.ItemEOF? && Process(env, p, it).Ok? {
        LinesDoNotMatter(env, Process(env, p, it).value, its[1..], jts[1..]);
      }
    }
  }

  lemma {:induction false} NoEndInside(t: Tree)
    ensures NoEOF(Items(t))
    decreases t
  {
    match t
    case Leaf(_) =>
    case Array(elems) => NoEndInElems(elems);
    case Object(fields) => NoEndInFields(fields);
  }

  lemma {:induction false} NoEndInElems(ts: Trees)
    ensures NoEOF(ElemItems(ts))
    decreases ts
  {
    match ts
    case NoTree =>
    case Elem(head, _, tail) =>
      NoEndInside(head);
      NoEndInElems(tail);
    case ElemFill(_, tail) => NoEndInElems(tail);
  }

  lemma {:induction false} NoEndInFields(fs: Fields)
    ensures NoEOF(FieldItems(fs))
    decreases fs
  {
    match fs
    case NoField =>
    case Field(_, value, _, rest) =>
      NoEndInside(value);
      NoEndInFields(rest);
    case FieldFill(_, rest) => NoEndInFields(rest);
  }

  /** The round trip: a configuration written out is parsed back to the values it stands for, once the lexer
      is given the steps it needs; with one value that does not convert it is refused. */
  lemma ParsesBack(env: Env, fs: Fields, k: nat)
    requires FieldsPrintable(fs, OnTop) && k >= 4 * |FieldsText(fs)| + 2
    ensures Lex(FieldsText(fs), LEX_START, k).state.Done?
    ensures Consume(env, START, Lex(FieldsText(fs), LEX_START, k).items) ==
            if FieldsConvert(env, fs) then Parsed(DenoteFields(env, map[], fs)) else Failed
  {
    hide Lex, FieldsText, Process, ProcessAll, FieldItems;
    LexesBack(fs, k);
    var its := Lex(FieldsText(fs), LEX_START, k).items;
    BareAt(its);
    BareAt(Bare(its));
    LinesDoNotMatter(env, START, its, Bare(its));
    NoEndInFields(fs);
    if FieldsConvert(env, fs) {
      RebuildsRoot(env, fs);
      ConsumeOn(env, START, FieldItems(fs), [Mark(ItemEOF)]);
    } else {
      RefusedField(env, START, fs);
      ConsumeFails(env, START, FieldItems(fs), [Mark(ItemEOF)]);
    }
  }
}
