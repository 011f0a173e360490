/** Subjects and the two ways of matching them (sublist/sublist.go): token by token, as the
    trie does, and by the single pass over bytes of matchLiteral, as the cache does. */
module Subject {
  import opened Base

  // ----- tokens -----

  /** The tokens between the separators; there is always at least one. */
  function Split(s: Bytes): (toks: seq<Bytes>)
    ensures toks != []
  {
    if s == [] then [[]]
    else if s[0] == '.' then [[]] + Split(s[1..])
    else var rest := Split(s[1..]); [[s[0]] + rest[0]] + rest[1..]
  }

  predicate DotFree(t: Bytes) { forall k :: 0 <= k < |t| ==> t[k] != '.' }

  lemma {:induction false} SplitFirst(t: Bytes, rest: Bytes)
    requires DotFree(t)
    ensures Split(t + ("." + rest)) == [t] + Split(rest)
    ensures Split(t) == [t]
  {
    var s := t + ("." + rest);
    if t == [] {
      assert s[0] == '.' && s[1..] == rest;
    } else {
      SplitFirst(t[1..], rest);
      assert s[1..] == t[1..] + ("." + rest);
      assert t == [t[0]] + t[1..];
    }
  }

  predicate Splitting(s: Bytes, toks: seq<Bytes>, rest: Bytes) { toks + Split(rest) == Split(s) }

  lemma TokenEnds(s: Bytes, toks: seq<Bytes>, start: nat, i: nat)
    requires start <= i < |s| && s[i] == '.' && Splitting(s, toks, s[start..])
    requires forall k :: start <= k < i ==> s[k] != '.'
    ensures Splitting(s, toks + [s[start..i]], s[i + 1..])
  {
    assert s[start..] == s[start..i] + ("." + s[i + 1..]);
    SplitFirst(s[start..i], s[i + 1..]);
  }

  /** The loop of split, and of Match. */
  method SplitLoop(s: Bytes) returns (toks: seq<Bytes>)
    ensures toks == Split(s)
  {
    toks := [];
    var start := 0;
    assert s[0..] == s;
    for i := 0 to |s|
      invariant start <= i
      invariant forall k :: start <= k < i ==> s[k] != '.'
      invariant Splitting(s, toks, s[start..])
    {
      if s[i] == '.' {
        TokenEnds(s, toks, start, i);
        toks := toks + [s[start..i]];
        start := i + 1;
      }
    }
    SplitFirst(s[start..], []);
    toks := toks + [s[start..]];
  }

  function Dotted(toks: seq<Bytes>): Bytes
    requires toks != []
  {
    if |toks| == 1 then toks[0] else toks[0] + ("." + Dotted(toks[1..]))
  }

  predicate AllDotFree(toks: seq<Bytes>) { forall k :: 0 <= k < |toks| ==> DotFree(toks[k]) }

  lemma {:induction false} SplitOfDotted(toks: seq<Bytes>)
    requires toks != [] && AllDotFree(toks)
    ensures Split(Dotted(toks)) == toks
  {
    if |toks| == 1 {
      SplitFirst(toks[0], []);
      assert toks == [toks[0]];
    } else {
      SplitOfDotted(toks[1..]);
      SplitFirst(toks[0], Dotted(toks[1..]));
      assert toks == [toks[0]] + toks[1..];
    }
  }

  lemma {:induction false} DottedOfSplit(s: Bytes)
    ensures AllDotFree(Split(s)) && Dotted(Split(s)) == s
  {
    if s != [] {
      var rest := Split(s[1..]);
      DottedOfSplit(s[1..]);
      if s[0] == '.' {
        var toks := [[]] + rest;
        assert toks[1..] == rest;
        assert s == [] + ("." + s[1..]);
      } else {
        var toks := [[s[0]] + rest[0]] + rest[1..];
        assert toks[1..] == rest[1..];
        assert s == [s[0]] + s[1..];
      }
    }
  }

  // ----- token by token -----

  /** Where the trie files a token: its first byte decides. */
  datatype Key = Lit(tok: Bytes) | Pwc | Fwc

  type Path = seq<Key>

  function KeyOf(t: Bytes): Key {
    if t == [] then Lit(t) else if t[0] == '*' then Pwc else if t[0] == '>' then Fwc else Lit(t)
  }

  function Keys(toks: seq<Bytes>): (p: Path)
    ensures |p| == |toks|
  {
    if toks == [] then [] else [KeyOf(toks[0])] + Keys(toks[1..])
  }

  lemma KeyAt(toks: seq<Bytes>, k: nat)
    requires k < |toks|
    ensures Keys(toks)[k] == KeyOf(toks[k])
  {
    if k > 0 { KeyAt(toks[1..], k - 1); }
  }

  function PathOf(subject: Bytes): Path { Keys(Split(subject)) }

  /** The subjects Insert accepts: no empty token, and nothing behind a full wildcard. */
  predicate Valid(toks: seq<Bytes>) {
    forall k :: 0 <= k < |toks| ==> toks[k] != [] && (k + 1 < |toks| ==> !KeyOf(toks[k]).Fwc?)
  }

  /** A partial wildcard stands for any one token, a full one for all that are left, of which
      there must be one. */
  predicate Matches(p: Path, toks: seq<Bytes>) {
    if p == [] || toks == [] then p == [] && toks == []
    else match p[0]
         case Fwc => |p| == 1
         case Pwc => Matches(p[1..], toks[1..])
         case Lit(t) => t == toks[0] && Matches(p[1..], toks[1..])
  }

  // ----- byte by byte -----

  function TokenLength(l: Bytes): (n: nat)
    ensures n <= |l|
  {
    if l == [] || l[0] == '.' then 0 else 1 + TokenLength(l[1..])
  }

  /** matchLiteral on what is left of the literal and of the subject. */
  function ByteMatch(l: Bytes, s: Bytes): bool {
    if s == [] then l == []
    else if l == [] then false
    else if s[0] == '*' then ByteMatch(l[TokenLength(l)..], s[1..])
    else if s[0] == '>' then true
    else s[0] == l[0] && ByteMatch(l[1..], s[1..])
  }

  /** The inner loop: to the end of the token in the literal. */
  method SkipToken(literal: Bytes, from: nat) returns (li: nat)
    requires from <= |literal|
    ensures from <= li <= |literal| && li == from + TokenLength(literal[from..])
  {
    li := from;
    while !(li >= |literal| || literal[li] == '.')
      invariant from <= li <= |literal|
      invariant TokenLength(literal[from..]) == li - from + TokenLength(literal[li..])
      decreases |literal| - li
    {
      assert literal[li..][1..] == literal[li + 1..];
      li := li + 1;
    }
  }

  method MatchLiteral(literal: Bytes, subject: Bytes) returns (m: bool)
    ensures m == ByteMatch(literal, subject)
  {
    var li := 0;
    var ll := |literal|;
    assert literal[0..] == literal && subject[0..] == subject;
    for i := 0 to |subject|
      invariant 0 <= li <= ll
      invariant ByteMatch(literal, subject) == ByteMatch(literal[li..], subject[i..])
    {
      var b := subject[i];
      if li >= ll {
        return false;
      }
      assert subject[i..][0] == b && subject[i..][1..] == subject[i + 1..];
      if b == '*' {
        // skip the token in the literal
        var from := li;
        li := SkipToken(literal, from);
        assert literal[from..][li - from..] == literal[li..];
        li := li - 1;
      } else if b == '>' {
        return true;
      } else if b != literal[li] {
        return false;
      } else {
        assert literal[li..][1..] == literal[li + 1..];
      }
      li := li + 1;
    }
    assert subject[|subject|..] == [];
    if li < ll {
      return false;
    }
    return true;
  }

  // ----- two matchers, one meaning -----

  predicate NoWildcard(t: Bytes) { forall k :: 0 <= k < |t| ==> t[k] != '*' && t[k] != '>' }

  predicate AllStars(t: Bytes) { t != [] && forall k :: 0 <= k < |t| ==> t[k] == '*' }

  /** Stars, and a '>' right behind them. */
  predicate StarsThenFwc(t: Bytes) {
    |t| > 1 && t[0] == '*' && (t[1] == '>' || StarsThenFwc(t[1..]))
  }

  /** A token the two matchers read alike: a plain token; at the end, a partial wildcard alone, or
      anything that starts as a full wildcard; before the end, any number of stars, and right
      before a full wildcard, stars and a '>'. */
  predicate Clear(toks: seq<Bytes>, k: nat)
    requires k < |toks|
  {
    var t := toks[k];
    t != [] && (
      || NoWildcard(t)
      || (k + 1 == |toks| && (t == "*" || t[0] == '>'))
      || (k + 1 < |toks| && AllStars(t))
      || (k + 2 == |toks| && toks[k + 1] != [] && toks[k + 1][0] == '>' && StarsThenFwc(t)))
  }

  predicate WellFormed(toks: seq<Bytes>) {
    forall k :: 0 <= k < |toks| ==> Clear(toks, k)
  }

  lemma {:induction false} TokenLengthOf(t: Bytes, rest: Bytes)
    requires DotFree(t) && (rest == [] || rest[0] == '.')
    ensures TokenLength(t + rest) == |t|
  {
    if t == [] {
      assert t + rest == rest;
    } else {
      TokenLengthOf(t[1..], rest);
      assert (t + rest)[1..] == t[1..] + rest;
    }
  }

  /** A plain token of the subject eats exactly an equal token of the literal. */
  lemma {:induction false} PlainToken(a: Bytes, lrest: Bytes, t: Bytes, srest: Bytes)
    requires DotFree(a) && DotFree(t) && NoWildcard(t)
    requires lrest == [] || lrest[0] == '.'
    requires srest == [] || srest[0] == '.'
    ensures ByteMatch(a + lrest, t + srest) <==> a == t && ByteMatch(lrest, srest)
    decreases |t|
  {
    if t == [] {
      assert t + srest == srest;
      if a == [] {
        assert a + lrest == lrest;
      } else {
        assert (a + lrest)[0] == a[0] != '.';
      }
    } else if a == [] {
      assert a + lrest == lrest;
      assert (t + srest)[0] == t[0] != '.';
    } else {
      PlainToken(a[1..], lrest, t[1..], srest);
      assert (a + lrest)[1..] == a[1..] + lrest && (t + srest)[1..] == t[1..] + srest;
      assert a == [a[0]] + a[1..] && t == [t[0]] + t[1..];
    }
  }

  function Rest(toks: seq<Bytes>): Bytes
    requires toks != []
  {
    if |toks| == 1 then [] else "." + Dotted(toks[1..])
  }

  lemma DottedIsFirstAndRest(toks: seq<Bytes>)
    requires toks != []
    ensures Dotted(toks) == toks[0] + Rest(toks)
  {
    assert toks[0] + [] == toks[0];
  }

  lemma RestsMatch(lt: seq<Bytes>, st: seq<Bytes>)
    requires lt != [] && st != []
    ensures ByteMatch(Rest(lt), Rest(st)) ==
            if |lt| == 1 || |st| == 1 then |lt| == |st| else ByteMatch(Dotted(lt[1..]), Dotted(st[1..]))
  {
    if |lt| > 1 && |st| > 1 {
      assert Rest(lt)[1..] == Dotted(lt[1..]) && Rest(st)[1..] == Dotted(st[1..]);
    }
  }

  /** Stars before a separator skip one token of the literal. */
  lemma {:induction false} StarsOver(a: Bytes, lrest: Bytes, t: Bytes, srest: Bytes)
    requires DotFree(a) && AllStars(t) && (lrest == [] || lrest[0] == '.') && srest != [] && srest[0] == '.'
    ensures ByteMatch(a + lrest, t + srest) <==> a + lrest != [] && ByteMatch(lrest, srest)
    decreases |t|
  {
    TokenLengthOf(a, lrest);
    assert (a + lrest)[|a|..] == lrest;
    assert (t + srest)[1..] == t[1..] + srest;
    if |t| == 1 {
      assert t[1..] + srest == srest;
    } else {
      StarsOver([], lrest, t[1..], srest);
      assert [] + lrest == lrest;
    }
  }

  /** Stars and a '>' take any literal that has another token. */
  lemma {:induction false} StarsTake(a: Bytes, lrest: Bytes, t: Bytes, srest: Bytes)
    requires DotFree(a) && StarsThenFwc(t) && (lrest == [] || lrest[0] == '.')
    ensures ByteMatch(a + lrest, t + srest) <==> a + lrest != [] && lrest != []
    decreases |t|
  {
    TokenLengthOf(a, lrest);
    assert (a + lrest)[|a|..] == lrest;
    assert (t + srest)[1..] == t[1..] + srest;
    if t[1] != '>' {
      StarsTake([], lrest, t[1..], srest);
      assert [] + lrest == lrest;
    }
  }

  lemma TailIsWellFormed(st: seq<Bytes>)
    requires |st| > 1 && WellFormed(st)
    ensures WellFormed(st[1..])
  {
    forall k: nat | k < |st| - 1 ensures Clear(st[1..], k) { assert Clear(st, k + 1); }
  }

  lemma {:induction false} MatchersAgree(lt: seq<Bytes>, st: seq<Bytes>)
    requires lt != [] && st != [] && AllDotFree(lt) && AllDotFree(st) && WellFormed(st)
    requires lt[|lt| - 1] != []
    ensures ByteMatch(Dotted(lt), Dotted(st)) == Matches(Keys(st), lt)
    decreases |st|
  {
    var a, t := lt[0], st[0];
    var lrest, srest := Rest(lt), Rest(st);
    DottedIsFirstAndRest(lt);
    DottedIsFirstAndRest(st);
    RestsMatch(lt, st);
    assert Clear(st, 0);
    if |lt| > 1 && |st| > 1 {
      TailIsWellFormed(st);
      MatchersAgree(lt[1..], st[1..]);
    }
    assert a + lrest != [];
    if NoWildcard(t) {
      PlainToken(a, lrest, t, srest);
    } else if t[0] == '>' {
      assert (t + srest)[0] == '>';
    } else if |st| == 1 {
      TokenLengthOf(a, lrest);
      assert (a + lrest)[|a|..] == lrest;
      assert (t + srest)[1..] == srest;
    } else if AllStars(t) {
      StarsOver(a, lrest, t, srest);
    } else {
      StarsTake(a, lrest, t, srest);
      assert Keys(st[1..]) == [Fwc];
    }
  }

  /** Two matchers, one meaning: matchLiteral answers as token-by-token matching does on every
      well-formed subject exactly if the literal does not end in an empty token. */
  lemma TwoMatchers(literal: Bytes)
    ensures var lt := Split(literal);
            lt[|lt| - 1] != [] <==>
            forall s: Bytes | WellFormed(Split(s)) :: ByteMatch(literal, s) == Matches(PathOf(s), lt)
  {
    var lt := Split(literal);
    DottedOfSplit(literal);
    if lt[|lt| - 1] != [] {
      forall s: Bytes | WellFormed(Split(s)) ensures ByteMatch(literal, s) == Matches(PathOf(s), lt) {
        DottedOfSplit(s);
        MatchersAgree(lt, Split(s));
      }
    } else {
      var stars := seq(|lt|, _ => "*");
      var s := Dotted(stars);
      SplitOfDotted(stars);
      StarsMatch(lt);
      StarsMissBytes(lt);
      assert forall k: nat :: k < |stars| ==> stars[k] == "*" && Clear(stars, k);
      assert WellFormed(Split(s));
    }
  }

  lemma {:induction false} StarsMatch(lt: seq<Bytes>)
    ensures Matches(Keys(seq(|lt|, _ => "*")), lt)
  {
    var stars := seq(|lt|, _ => "*");
    if lt != [] {
      StarsMatch(lt[1..]);
      assert stars[1..] == seq(|lt| - 1, _ => "*");
    }
  }

  lemma {:induction false} StarsMissBytes(lt: seq<Bytes>)
    requires lt != [] && AllDotFree(lt) && lt[|lt| - 1] == []
    ensures !ByteMatch(Dotted(lt), Dotted(seq(|lt|, _ => "*")))
  {
    var stars := seq(|lt|, _ => "*");
    if |lt| > 1 {
      StarsMissBytes(lt[1..]);
      assert stars[1..] == seq(|lt| - 1, _ => "*");
      DottedIsFirstAndRest(lt);
      DottedIsFirstAndRest(stars);
      RestsMatch(lt, stars);
      TokenLengthOf(lt[0], Rest(lt));
      assert (lt[0] + Rest(lt))[|lt[0]|..] == Rest(lt);
      assert ("*" + Rest(stars))[1..] == Rest(stars);
    }
  }

  // ----- well-formedness is exactly what it takes -----

  /** A literal the subject matches. */
  function Sample(st: seq<Bytes>): (lt: seq<Bytes>)
    ensures |lt| == |st|
  {
    if st == [] then [] else [if KeyOf(st[0]).Lit? then st[0] else "x"] + Sample(st[1..])
  }

  lemma {:induction false} SampleMatches(st: seq<Bytes>)
    requires Valid(st) && AllDotFree(st)
    ensures Matches(Keys(st), Sample(st)) && AllDotFree(Sample(st))
    ensures st != [] ==> Sample(st)[|st| - 1] != []
  {
    if st != [] {
      TailIsValid(st);
      SampleMatches(st[1..]);
      var lt := Sample(st);
      assert lt[1..] == Sample(st[1..]);
      assert forall k :: 1 <= k < |lt| ==> lt[k] == lt[1..][k - 1];
      if |st| == 1 { assert Keys(st[1..]) == [] && lt[1..] == []; }
    }
  }

  lemma TailIsValid(st: seq<Bytes>)
    requires st != [] && Valid(st)
    ensures Valid(st[1..]) && (AllDotFree(st) ==> AllDotFree(st[1..]))
  {
    assert forall k :: 0 <= k < |st| - 1 ==> st[1..][k] == st[k + 1];
  }

  /** The matchers part on this literal. */
  predicate Parts(lt: seq<Bytes>, st: seq<Bytes>) {
    lt != [] && st != [] && AllDotFree(lt) && lt[|lt| - 1] != []
        && ByteMatch(Dotted(lt), Dotted(st)) != Matches(Keys(st), lt)
  }

  /** A token with a wildcard inside: the literal token itself and another with the same
      beginning are not told apart byte by byte. */
  lemma WildcardInside(st: seq<Bytes>, n: nat) returns (lt: seq<Bytes>)
    requires st != [] && Valid(st) && AllDotFree(st) && 0 < n < |st[0]|
    requires NoWildcard(st[0][..n]) && (st[0][n] == '*' || st[0][n] == '>') && KeyOf(st[0]).Lit?
    ensures Parts(lt, st)
  {
    hide ByteMatch, TokenLength, Sample, Dotted, Rest;
    var t, tail := st[0], Sample(st[1..]);
    var p := t[..n];
    TailIsValid(st);
    SampleMatches(st[1..]);
    var same, other := [t] + tail, [p + "x"] + tail;
    assert same[1..] == tail && other[1..] == tail;
    assert (p + "x")[n] == 'x' != t[n];
    PrefixIsDotFree(t, n);
    ConsIsDotFree(t, tail);
    ConsIsDotFree(p + "x", tail);
    DottedIsFirstAndRest(same);
    DottedIsFirstAndRest(other);
    DottedIsFirstAndRest(st);
    SameRest(same, other);
    AsFarAs(p, t[n..], "x", t[n..], Rest(same), Rest(st));
    assert p + t[n..] == t;
    OnlyItself(st, tail, p + "x");
    lt := if ByteMatch(Dotted(same), Dotted(st)) then other else same;
  }

  lemma PrefixIsDotFree(t: Bytes, n: nat)
    requires DotFree(t) && n < |t|
    ensures DotFree(t[..n] + "x") && DotFree(t[n..])
  {
  }

  lemma ConsIsDotFree(a: Bytes, tail: seq<Bytes>)
    requires DotFree(a) && AllDotFree(tail)
    ensures AllDotFree([a] + tail)
  {
    assert forall k :: 1 <= k < |tail| + 1 ==> ([a] + tail)[k] == tail[k - 1];
  }

  lemma SameRest(a: seq<Bytes>, b: seq<Bytes>)
    requires a != [] && b != [] && a[1..] == b[1..]
    ensures Rest(a) == Rest(b) && (Rest(a) == [] || Rest(a)[0] == '.')
  {
  }

  /** A literal token in the subject matches only itself. */
  lemma OnlyItself(st: seq<Bytes>, tail: seq<Bytes>, other: Bytes)
    requires st != [] && KeyOf(st[0]).Lit? && Matches(Keys(st[1..]), tail) && |tail| == |st| - 1
    ensures Matches(Keys(st), [st[0]] + tail)
    ensures other != st[0] ==> !Matches(Keys(st), [other] + tail)
  {
    assert ([st[0]] + tail)[1..] == tail && ([other] + tail)[1..] == tail;
    if |st| == 1 { assert Keys(st[1..]) == [] && tail == []; }
  }

  /** Up to a wildcard in the subject only what is before it in the literal matters. */
  lemma {:induction false} AsFarAs(p: Bytes, u: Bytes, v: Bytes, w: Bytes, lrest: Bytes, srest: Bytes)
    requires NoWildcard(p) && DotFree(u) && DotFree(v) && u != [] && v != [] && (lrest == [] || lrest[0] == '.')
    requires w != [] && (w[0] == '*' || w[0] == '>')
    ensures ByteMatch((p + u) + lrest, (p + w) + srest) == ByteMatch((p + v) + lrest, (p + w) + srest)
    decreases |p|
  {
    if p == [] {
      assert p + u == u && p + v == v && p + w == w;
      TokenLengthOf(u, lrest);
      TokenLengthOf(v, lrest);
      assert (u + lrest)[|u|..] == lrest && (v + lrest)[|v|..] == lrest;
    } else {
      AsFarAs(p[1..], u, v, w, lrest, srest);
      assert ((p + u) + lrest)[1..] == (p[1..] + u) + lrest && ((p + v) + lrest)[1..] == (p[1..] + v) + lrest;
      assert ((p + w) + srest)[1..] == (p[1..] + w) + srest;
    }
  }

  lemma OneStar(t: Bytes)
    requires t != [] && t[0] == '*' && !AllStars(t)
    ensures |t| > 1
  {
  }

  lemma AllStarsTail(t: Bytes)
    requires |t| > 1 && t[0] == '*'
    ensures AllStars(t) <==> AllStars(t[1..])
  {
    assert forall k :: 1 <= k < |t| ==> t[k] == t[1..][k - 1];
  }

  /** Stars and then another byte take nothing at all. */
  lemma {:induction false} StarsMiss(a: Bytes, lrest: Bytes, t: Bytes, srest: Bytes)
    requires DotFree(a) && DotFree(t) && (lrest == [] || lrest[0] == '.')
    requires |t| > 1 && t[0] == '*' && !AllStars(t) && !StarsThenFwc(t)
    ensures !ByteMatch(a + lrest, t + srest)
    decreases |t|
  {
    TokenLengthOf(a, lrest);
    assert (a + lrest)[|a|..] == lrest;
    assert (t + srest)[1..] == t[1..] + srest;
    if t[1] == '*' {
      AllStarsTail(t);
      OneStar(t[1..]);
      StarsMiss([], lrest, t[1..], srest);
      assert [] + lrest == lrest;
    } else {
      assert t[1] != '.';
    }
  }

  /** A partial wildcard that is longer than its token, at the end. */
  lemma LongStar(st: seq<Bytes>) returns (lt: seq<Bytes>)
    requires |st| == 1 && Valid(st) && AllDotFree(st) && !Clear(st, 0) && st[0][0] == '*'
    ensures Parts(lt, st)
  {
    var t := st[0];
    lt := ["x"];
    assert t[1..] == [] ==> t == "*";
    assert TokenLength("x") == 1 by { assert "x"[1..] == ""; }
    assert ByteMatch("x", t) == ByteMatch("x"[1..], t[1..]);
    assert Keys(st) == [Pwc] && Keys(st)[1..] == [] && lt[1..] == [];
    assert Dotted(lt) == "x" && Dotted(st) == t;
  }

  lemma UnclearFirst(st: seq<Bytes>) returns (lt: seq<Bytes>)
    requires st != [] && Valid(st) && AllDotFree(st) && !Clear(st, 0)
    ensures Parts(lt, st)
  {
    var t := st[0];
    if t[0] != '*' && t[0] != '>' {
      var n := FirstWildcard(t, 0);
      lt := WildcardInside(st, n);
    } else if |st| == 1 {
      lt := LongStar(st);
    } else if StarsThenFwc(t) {
      lt := TooShortOrLong(st);
    } else {
      lt := Sample(st);
      SampleMatches(st);
      DottedIsFirstAndRest(lt);
      DottedIsFirstAndRest(st);
      assert |t| == 1 ==> AllStars(t);
      StarsMiss(lt[0], Rest(lt), t, Rest(st));
    }
  }

  lemma NotAllSeen(t: Bytes, i: nat)
    requires i <= |t| && NoWildcard(t[..i]) && !NoWildcard(t)
    ensures i < |t|
  {
    assert t[..|t|] == t;
  }

  lemma {:induction false} FirstWildcard(t: Bytes, i: nat) returns (n: nat)
    requires i <= |t| && NoWildcard(t[..i]) && !NoWildcard(t)
    ensures i <= n < |t| && NoWildcard(t[..n]) && (t[n] == '*' || t[n] == '>')
    decreases |t| - i
  {
    NotAllSeen(t, i);
    if t[i] == '*' || t[i] == '>' {
      n := i;
    } else {
      assert t[..i + 1] == t[..i] + [t[i]];
      n := FirstWildcard(t, i + 1);
    }
  }

  /** Stars and a '>' take literals with too many or too few tokens. */
  lemma TooShortOrLong(st: seq<Bytes>) returns (lt: seq<Bytes>)
    requires |st| > 1 && Valid(st) && AllDotFree(st) && !Clear(st, 0) && StarsThenFwc(st[0])
    ensures Parts(lt, st)
  {
    var t, keys := st[0], Keys(st);
    lt := if |st| == 2 then ["x", "x", "x"] else ["x", "x"];
    DottedIsFirstAndRest(lt);
    DottedIsFirstAndRest(st);
    StarsTake("x", Rest(lt), t, Rest(st));
    assert keys[0] == Pwc && keys[1..] == Keys(st[1..]) && st[1..][0] == st[1];
    if |st| == 2 {
      assert KeyOf(st[1]) != Fwc;
      assert lt[1..] == ["x", "x"] && lt[1..][1..] == ["x"] && keys[1..][1..] == [];
      assert !Matches([], ["x"]);
      assert !Matches(keys[1..], lt[1..]);
    } else {
      assert st[1] != [] && KeyOf(st[1]) != Fwc;
      assert lt[1..] == ["x"] && lt[1..][1..] == [] && keys[1..][1..] != [];
      assert !Matches(keys[1..], lt[1..]);
    }
  }

  lemma {:induction false} UnclearParts(st: seq<Bytes>) returns (lt: seq<Bytes>)
    requires st != [] && Valid(st) && AllDotFree(st) && !WellFormed(st)
    ensures Parts(lt, st)
    decreases |st|
  {
    if !Clear(st, 0) {
      lt := UnclearFirst(st);
    } else {
      var k :| 0 <= k < |st| && !Clear(st, k);
      TailIsValid(st);
      assert !Clear(st[1..], k - 1);
      var rest := UnclearParts(st[1..]);
      lt := Longer(st, rest);
    }
  }

  /** A clear token before changes nothing. */
  lemma Longer(st: seq<Bytes>, rest: seq<Bytes>) returns (lt: seq<Bytes>)
    requires |st| > 1 && Valid(st) && AllDotFree(st) && Clear(st, 0) && !WellFormed(st[1..]) && Parts(rest, st[1..])
    ensures Parts(lt, st)
  {
    hide ByteMatch, TokenLength, Clear, WellFormed, Dotted, NoWildcard, Rest;
    var t := st[0];
    var a := if NoWildcard(t) then t else "x";
    lt := [a] + rest;
    assert lt[1..] == rest;
    ConsIsDotFree(a, rest);
    SameRest(lt, lt);
    DottedIsFirstAndRest(lt);
    DottedIsFirstAndRest(st);
    RestsMatch(lt, st);
    LongerToken(a, Rest(lt), st);
  }

  lemma LongerToken(a: Bytes, lrest: Bytes, st: seq<Bytes>)
    requires |st| > 1 && Valid(st) && AllDotFree(st) && Clear(st, 0) && !WellFormed(st[1..])
    requires a == (if NoWildcard(st[0]) then st[0] else "x") && (lrest == [] || lrest[0] == '.')
    ensures ByteMatch(a + lrest, st[0] + Rest(st)) <==> ByteMatch(lrest, Rest(st))
    ensures KeyOf(st[0]) == if NoWildcard(st[0]) then Lit(a) else Pwc
  {
    var t := st[0];
    if NoWildcard(t) {
      PlainToken(a, lrest, t, Rest(st));
    } else {
      if |st| == 2 && st[1] != [] && st[1][0] == '>' { OnlyFwcIsLeft(st); }
      StarsOver(a, lrest, t, Rest(st));
    }
  }

  lemma OnlyFwcIsLeft(st: seq<Bytes>)
    requires |st| == 2 && st[1] != [] && st[1][0] == '>'
    ensures WellFormed(st[1..])
  {
    assert Clear(st[1..], 0);
  }

  /** The other side: the matchers agree on a valid subject, for every literal that does not end in
      an empty token, exactly if the subject is well formed. */
  lemma WellFormedExactly(s: Bytes)
    requires Valid(Split(s))
    ensures WellFormed(Split(s)) <==>
            forall literal: Bytes | Split(literal)[|Split(literal)| - 1] != [] ::
                  ByteMatch(literal, s) == Matches(PathOf(s), Split(literal))
  {
    DottedOfSplit(s);
    if WellFormed(Split(s)) {
      forall literal: Bytes | Split(literal)[|Split(literal)| - 1] != []
        ensures ByteMatch(literal, s) == Matches(PathOf(s), Split(literal))
      {
        DottedOfSplit(literal);
        MatchersAgree(Split(literal), Split(s));
      }
    } else {
      var lt := UnclearParts(Split(s));
      SplitOfDotted(lt);
      assert Split(Dotted(lt)) == lt;
    }
  }
}
