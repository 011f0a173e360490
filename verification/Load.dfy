/** The load of the hash table of hashmap/hashmap.go: when it is resized, what that costs, and
    why the cost is paid for. */
module Load {
  import opened Bits

  const BSZ: nat := 8
  const MAX_BKT_SIZE: nat := 0x7fff_ffff

  /** What a call of Set or Remove comes to. */
  datatype Call = Added | Replaced | Dropped | Missed

  /** Buckets, entries, and the entries copied by all resizes so far. */
  datatype Size = Size(len: nat, used: nat, copied: nat)

  function Step(s: Size, c: Call): Size {
    match c
    case Added =>
      if s.used + 1 > s.len && s.len < MAX_BKT_SIZE then Size(2 * s.len, s.used + 1, s.copied + s.used + 1)
      else s.(used := s.used + 1)
    case Dropped =>
      if s.used == 0 then s
      else if s.len > BSZ && s.used - 1 < s.len / 4 then Size(s.len / 2, s.used - 1, s.copied + s.used - 1)
      else s.(used := s.used - 1)
    case Replaced => s
    case Missed => s
  }

  /** A table made by New, after the calls. */
  function After(calls: seq<Call>): Size {
    if calls == [] then Size(BSZ, 0, 0) else Step(After(calls[..|calls| - 1]), calls[|calls| - 1])
  }

  lemma AfterSnoc(calls: seq<Call>, c: Call)
    ensures After(calls + [c]) == Step(After(calls), c)
  {
    assert (calls + [c])[..|calls|] == calls;
  }

  /** The copies saved up for the next resize: two for each entry above half of the buckets,
      one for each below. */
  function Savings(s: Size): nat {
    if 2 * s.used >= s.len then 2 * s.used - s.len else s.len / 2 - s.used
  }

  predicate Balanced(s: Size, ops: nat) {
    && s.copied + Savings(s) <= 3 * ops + 4
    && BSZ <= s.len && PowerOfTwo(s.len)
    && (s.len > BSZ ==> s.used >= s.len / 4)
    && (s.len < MAX_BKT_SIZE ==> s.used <= s.len)
  }

  lemma Halves(n: nat)
    requires PowerOfTwo(n) && n > 1
    ensures n == 2 * (n / 2) && PowerOfTwo(n / 2)
  {
  }

  lemma PowersFrom8(len: nat)
    requires PowerOfTwo(len) && len > 8
    ensures len >= 16 && len == 4 * (len / 4) && len / 2 == 2 * (len / 4) && PowerOfTwo(len / 2)
  {
    Halves(len);
    Halves(len / 2);
    Halves(len / 2 / 2);
    var e := len / 2 / 2 / 2;
    assert PowerOfTwo(e) && len == 8 * e;
  }

  /** A new entry, and the growth that may follow. */
  lemma AddIsBalanced(s: Size, ops: nat)
    requires Balanced(s, ops)
    ensures Balanced(Step(s, Added), ops + 1)
  {
    Doubled(s.len);
  }

  /** An entry less, and the shrinking that may follow. */
  lemma DropIsBalanced(s: Size, ops: nat)
    requires Balanced(s, ops)
    ensures Balanced(Step(s, Dropped), ops + 1)
  {
    if s.len > BSZ { PowersFrom8(s.len); }
  }

  lemma StepIsBalanced(s: Size, c: Call, ops: nat)
    requires Balanced(s, ops)
    ensures Balanced(Step(s, c), ops + 1)
  {
    if c == Added {
      AddIsBalanced(s, ops);
    } else if c == Dropped {
      DropIsBalanced(s, ops);
    } else {
      assert Step(s, c) == s;
    }
  }

  /** Any run of m calls copies at most 3m + 4 entries over all resizes, and leaves a table
      that is a power of two of at least 8, not overfull, and if larger than 8 a quarter full. */
  lemma {:induction false} RunIsBalanced(calls: seq<Call>)
    ensures Balanced(After(calls), |calls|) && After(calls).copied <= 3 * |calls| + 4
  {
    if calls == [] {
      assert PowerOfTwo(2) && PowerOfTwo(4);
    } else {
      var before := calls[..|calls| - 1];
      RunIsBalanced(before);
      StepIsBalanced(After(before), calls[|calls| - 1], |before|);
    }
  }

  /** Insertions of new keys. */
  function Additions(n: nat): seq<Call> { if n == 0 then [] else Additions(n - 1) + [Added] }

  /** With `n` of them and nothing else, the table has the least power of two of buckets, from 8 on, that is
      not below `n`. */
  lemma {:induction false} JustEnough(n: nat)
    requires n <= MAX_BKT_SIZE
    ensures var s := After(Additions(n));
            s.used == n <= s.len && PowerOfTwo(s.len) && BSZ <= s.len && (s.len > BSZ ==> s.len / 2 < n)
  {
    hide After;
    if n == 0 {
      AfterNothing();
    } else {
      AfterSnoc(Additions(n - 1), Added);
      JustEnough(n - 1);
      Doubled(After(Additions(n - 1)).len);
    }
  }

  lemma AfterNothing()
    ensures After([]) == Size(BSZ, 0, 0) && PowerOfTwo(BSZ)
  {
    assert PowerOfTwo(2) && PowerOfTwo(4);
  }
}
