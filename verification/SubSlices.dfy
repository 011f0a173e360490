/** Slices of subscribers: those of a trie node, and the results of a match. */
module SubSlices {
  import opened Index

  /** The first `len` elements of `arr`; the rest of `arr` is spare capacity. */
  datatype SubSlice = SubSlice(arr: array<SubId>, len: nat) {
    function Val(): seq<SubId>
      requires len <= arr.Length
      reads arr
    {
      arr[..len]
    }
  }

  /** A new array holding `items`, with spare capacity as make and append leave it. */
  method Collect(items: seq<SubId>) returns (r: SubSlice)
    ensures fresh(r.arr) && r.len == |items| <= r.arr.Length && r.Val() == items
  {
    var cap: nat :| cap >= |items|;
    var arr := new SubId[cap](k => if 0 <= k < |items| then items[k] else 0);
    r := SubSlice(arr, |items|);
  }

  /** append: into the spare capacity, or into a new array. */
  method Append(r: SubSlice, x: SubId) returns (s: SubSlice)
    requires r.len <= r.arr.Length
    modifies r.arr
    ensures s.len == r.len + 1 <= s.arr.Length && s.Val() == old(r.Val()) + [x]
    ensures s.arr == r.arr || fresh(s.arr)
    ensures forall k :: 0 <= k < r.len ==> r.arr[k] == old(r.arr[k])
  {
    if r.len < r.arr.Length {
      r.arr[r.len] := x;
      s := SubSlice(r.arr, r.len + 1);
    } else {
      s := Collect(r.Val() + [x]);
    }
  }

  /** removeFromNode: the elements behind the first `x` move down in place. */
  method Take(r: SubSlice, x: SubId) returns (s: SubSlice, found: bool)
    requires r.len <= r.arr.Length
    modifies r.arr
    ensures found <==> x in old(r.Val())
    ensures s.arr == r.arr && s.len <= s.arr.Length && s.Val() == RemoveFirst(old(r.Val()), x)
    ensures !found ==> s == r && r.arr[..] == old(r.arr[..])
  {
    ghost var v := r.Val();
    var i := 0;
    while i < r.len && r.arr[i] != x
      invariant i <= r.len && forall k :: 0 <= k < i ==> v[k] != x
    {
      i := i + 1;
    }
    if i == r.len {
      RemoveFirstIsRemoval(v, x);
      return r, false;
    }
    RemoveFirstAt(v, x, i);
    forall k | i <= k < r.len - 1 {
      r.arr[k] := r.arr[k + 1];
    }
    s, found := SubSlice(r.arr, r.len - 1), true;
    MovedDown(s.Val(), v, i);
  }

  lemma MovedDown<T>(w: seq<T>, v: seq<T>, i: nat)
    requires |w| + 1 == |v| && i <= |w|
    requires (forall k :: 0 <= k < i ==> w[k] == v[k]) && forall k :: i <= k < |w| ==> w[k] == v[k + 1]
    ensures w == v[..i] + v[i + 1..]
  {
  }

  lemma {:induction false} RemoveFirstAt<T>(s: seq<T>, x: T, i: nat)
    requires i < |s| && s[i] == x && forall k :: 0 <= k < i ==> s[k] != x
    ensures RemoveFirst(s, x) == s[..i] + s[i + 1..]
  {
    if i > 0 {
      RemoveFirstAt(s[1..], x, i - 1);
      assert s[..i] == [s[0]] + s[1..][..i - 1] && s[1..][i..] == s[i + 1..];
    }
  }
}
