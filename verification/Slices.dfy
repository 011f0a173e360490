/** Go slices of bytes: a window into an array, with `append` writing into the spare capacity. */
module Slices {
  import opened Base
  import opened Args

  datatype Slice = NilSlice | Slice(arr: array<char>, off: nat, len: nat) {
    predicate Valid() { Slice? ==> off + len <= arr.Length }

    function Val(): (v: Bytes)
      requires Valid()
      reads if Slice? then {arr} else {}
      ensures |v| == Len()
    {
      if Slice? then arr[off..off + len] else []
    }

    function Len(): nat { if Slice? then len else 0 }

    /** A window of the same array inside the window `t`. */
    predicate Within(t: Slice) {
      Slice? && t.Slice? && arr == t.arr && t.off <= off && off + len <= t.off + t.len
    }
  }

  /** append(s, bs...): in place when the capacity suffices, else into a new array of
      unspecified larger capacity. */
  method Append(s: Slice, bs: Bytes) returns (r: Slice)
    requires s.Slice? && s.Valid()
    modifies s.arr
    ensures r.Slice? && r.Valid() && r.Val() == old(s.Val()) + bs && r.off <= s.off
    ensures r.arr == s.arr ==> r.off == s.off
    ensures s.off + s.len + |bs| <= s.arr.Length ==> r.arr == s.arr
    ensures r.arr == s.arr || (fresh(r.arr) && r.off == 0)
    ensures forall k :: 0 <= k < s.off + s.len ==> s.arr[k] == old(s.arr[k])
  {
    var end := s.off + s.len;
    if end + |bs| <= s.arr.Length {
      forall k | 0 <= k < |bs| {
        s.arr[end + k] := bs[k];
      }
      r := Slice(s.arr, s.off, s.len + |bs|);
      assert r.Val() == old(s.Val()) + bs;
    } else {
      var cap: nat :| cap >= s.len + |bs|;
      var fill := s.Val() + bs;
      var grown := new char[cap](k => if 0 <= k < |fill| then fill[k] else '\0');
      r := Slice(grown, 0, s.len + |bs|);
      assert r.Val() == fill;
    }
  }

  /** The loop invariant of splitArg: `done` fields found, the rest of the fields in `rest`. */
  predicate Splitting(a: Bytes, done: seq<Bytes>, rest: Bytes) {
    Fields(a) == done + Fields(rest)
  }

  /** In a field that began at `start` and has come to `i`. */
  predicate InField(a: Bytes, done: seq<Bytes>, start: nat, i: nat) {
    && start < i <= |a| && (forall k :: start <= k < i ==> !IsSpace(a[k]))
    && Splitting(a, done, a[start..])
  }

  lemma FieldStarts(a: Bytes, done: seq<Bytes>, i: nat)
    requires i < |a| && !IsSpace(a[i]) && Splitting(a, done, a[i..])
    ensures InField(a, done, i, i + 1)
  {
  }

  lemma FieldGoesOn(a: Bytes, done: seq<Bytes>, start: nat, i: nat)
    requires i < |a| && !IsSpace(a[i]) && InField(a, done, start, i)
    ensures InField(a, done, start, i + 1)
  {
  }

  lemma FieldEnds(a: Bytes, done: seq<Bytes>, start: nat, i: nat)
    requires InField(a, done, start, i)
    requires i == |a| || IsSpace(a[i])
    ensures Splitting(a, done + [a[start..i]], a[i..])
  {
    hide IsSpace, Fields;
    var w, rest := a[start..i], a[i..];
    assert NoSpace(w);
    FieldsOfWord(w, rest);
    assert a[start..] == w + rest;
    assert done + ([w] + Fields(rest)) == done + [w] + Fields(rest);
  }

  lemma SpaceSkipped(a: Bytes, done: seq<Bytes>, i: nat)
    requires i < |a| && IsSpace(a[i]) && Splitting(a, done, a[i..])
    ensures Splitting(a, done, a[i + 1..])
  {
    assert a[i..][1..] == a[i + 1..];
  }

  lemma AllSplit(a: Bytes, done: seq<Bytes>)
    requires Splitting(a, done, [])
    ensures done == Fields(a)
  {
  }

  /** The window `w` of `arg` shows `v`, when `arg` shows `a`. */
  ghost predicate Shows(w: Slice, arg: Slice, a: Bytes, v: Bytes) {
    w.Within(arg) && arg.len == |a| && v == a[w.off - arg.off..w.off - arg.off + w.len]
  }

  lemma ShownValue(w: Slice, arg: Slice, v: Bytes)
    requires arg.Slice? && arg.Valid() && Shows(w, arg, arg.Val(), v)
    ensures w.Valid() && w.Val() == v
  {
    assert w.Val() == w.arr[..][w.off..w.off + w.len];
    assert arg.Val() == arg.arr[..][arg.off..arg.off + arg.len];
    PartOfPart(arg.arr[..], arg.off, arg.off + arg.len, w.off - arg.off, w.off - arg.off + w.len);
  }

  lemma PartOfPart(h: Bytes, p: nat, q: nat, i: nat, j: nat)
    requires p <= q <= |h| && i <= j <= q - p
    ensures h[p..q][i..j] == h[p + i..p + j]
  {
    var inner := h[p..q];
    forall k | 0 <= k < j - i ensures inner[i..j][k] == h[p + i..p + j][k] {
      assert inner[i + k] == h[p + i + k];
    }
  }

  /** A window of a window. */
  lemma ShownFurther(w: Slice, arg: Slice, a: Bytes, home: Slice, h: Bytes, v: Bytes)
    requires Shows(w, arg, a, v) && Shows(arg, home, h, a)
    ensures Shows(w, home, h, v)
  {
    var p := arg.off - home.off;
    PartOfPart(h, p, p + arg.len, w.off - arg.off, w.off - arg.off + w.len);
  }

  ghost predicate AllShow(ws: seq<Slice>, arg: Slice, a: Bytes, vs: seq<Bytes>) {
    |ws| == |vs| && forall k :: 0 <= k < |ws| ==> Shows(ws[k], arg, a, vs[k])
  }

  lemma ShowOneMore(ws: seq<Slice>, arg: Slice, a: Bytes, vs: seq<Bytes>, w: Slice, v: Bytes)
    requires AllShow(ws, arg, a, vs) && Shows(w, arg, a, v)
    ensures AllShow(ws + [w], arg, a, vs + [v])
  {
  }

  /** splitArg, which processPub and processMsgArgs repeat inline: the fields as windows of
      the argument. */
  method SplitArg(arg: Slice) returns (args: seq<Slice>)
    requires arg.Slice? && arg.Valid()
    ensures AllShow(args, arg, arg.Val(), Fields(arg.Val()))
  {
    ghost var a := arg.Val();
    ghost var done: seq<Bytes> := [];
    assert a[0..] == a && AllShow([], arg, a, []);
    hide Shows, AllShow, Splitting, InField, IsSpace, Fields;
    args := [];
    var start := -1;
    for i := 0 to arg.len
      invariant -1 <= start <= i
      invariant AllShow(args, arg, a, done)
      invariant start == -1 ==> Splitting(a, done, a[i..])
      invariant start >= 0 ==> start < i && InField(a, done, start, i)
    {
      var b := arg.arr[arg.off + i];
      assert b == a[i];
      if IsSpace(b) {
        if start >= 0 {
          FieldEnds(a, done, start, i);
          ShowOneMore(args, arg, a, done, Window(arg, start, i), a[start..i]);
          args, done := args + [Window(arg, start, i)], done + [a[start..i]];
          start := -1;
        }
        SpaceSkipped(a, done, i);
      } else if start < 0 {
        FieldStarts(a, done, i);
        start := i;
      } else {
        FieldGoesOn(a, done, start, i);
      }
    }
    assert a[arg.len..] == [];
    if start >= 0 {
      FieldEnds(a, done, start, arg.len);
      ShowOneMore(args, arg, a, done, Window(arg, start, arg.len), a[start..arg.len]);
      args, done := args + [Window(arg, start, arg.len)], done + [a[start..arg.len]];
    }
    AllSplit(a, done);
  }

  /** arg[start:end] */
  function Window(arg: Slice, start: nat, end: nat): (w: Slice)
    requires arg.Slice? && start <= end <= arg.len
    ensures forall a: Bytes :: |a| == arg.len ==> Shows(w, arg, a, a[start..end])
  {
    Slice(arg.arr, arg.off + start, end - start)
  }
}
