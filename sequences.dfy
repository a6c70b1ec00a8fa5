/** Facts about sequences shared by the element list of the coordinate reader and
    the list of removed files: both are built by appending a value only when it is
    not already present, which is an order-preserving deduplication. */
module Sequences {
  import opened Wrappers

  /** No value occurs twice in `s`. */
  predicate NoDuplicates<T(==)>(s: seq<T>) {
    forall i, j :: 0 <= i < j < |s| ==> s[i] != s[j]
  }

  /** The position of the first occurrence of `x` in `s`. */
  function FirstIndex<T(==)>(s: seq<T>, x: T): (i: nat)
    requires x in s
    ensures i < |s| && s[i] == x && x !in s[..i]
  {
    if s[0] == x then 0
    else
      assert s == [s[0]] + s[1..];
      var k := FirstIndex(s[1..], x);
      assert s[..k + 1] == [s[0]] + s[1..][..k];
      k + 1
  }

  /** Every value of `s` occurs in `reference`, and the values of `s` come in the
      order of their first occurrences in `reference`. */
  predicate OrderedBy<T(==)>(s: seq<T>, reference: seq<T>) {
    (forall i :: 0 <= i < |s| ==> s[i] in reference) &&
    (forall i, j :: 0 <= i < j < |s| && s[i] in reference && s[j] in reference ==>
       FirstIndex(reference, s[i]) < FirstIndex(reference, s[j]))
  }

  /** The distinct values of `s` in the order in which they are first seen: a
      left-to-right scan that appends each value not already collected. */
  function Dedup<T(==)>(s: seq<T>): seq<T>
  {
    if s == [] then []
    else
      var before := Dedup(s[..|s| - 1]);
      if s[|s| - 1] in before then before else before + [s[|s| - 1]]
  }

  /** One step of the scan: appending `x` to the input appends `x` to the output
      exactly when it has not been collected yet. */
  lemma DedupSnoc<T>(s: seq<T>, x: T)
    ensures Dedup(s + [x]) == if x in Dedup(s) then Dedup(s) else Dedup(s) + [x]
  {
    assert (s + [x])[..|s|] == s;
  }

  /** The scan keeps exactly the values of its input. */
  lemma {:induction false} DedupMembers<T>(s: seq<T>, x: T)
    ensures x in Dedup(s) <==> x in s
  {
    if s != [] {
      var init := s[..|s| - 1];
      assert s == init + [s[|s| - 1]];
      DedupMembers(init, x);
    }
  }

  /** The scan never collects a value twice. */
  lemma {:induction false} DedupNoDuplicates<T>(s: seq<T>)
    ensures NoDuplicates(Dedup(s))
  {
    if s != [] {
      var init := s[..|s| - 1];
      DedupNoDuplicates(init);
    }
  }

  /** On an input without repetitions the scan is the identity. */
  lemma {:induction false} DedupOfDistinct<T>(s: seq<T>)
    requires NoDuplicates(s)
    ensures Dedup(s) == s
  {
    if s != [] {
      var init := s[..|s| - 1];
      assert s == init + [s[|s| - 1]];
      DedupOfDistinct(init);
      DedupMembers(init, s[|s| - 1]);
    }
  }

  /** A position holding `x` with no `x` before it is the first occurrence of `x`. */
  lemma FirstIndexUnique<T>(s: seq<T>, x: T, i: nat)
    requires i < |s| && s[i] == x && x !in s[..i]
    ensures FirstIndex(s, x) == i
  {
    var f := FirstIndex(s, x);
    forall k | 0 <= k < i ensures s[k] != x { assert s[k] == s[..i][k]; }
    forall k | 0 <= k < f ensures s[k] != x { assert s[k] == s[..f][k]; }
  }

  /** Appending a value does not move the first occurrence of a value already present. */
  lemma FirstIndexSnoc<T>(s: seq<T>, x: T, y: T)
    requires y in s
    ensures y in s + [x] && FirstIndex(s + [x], y) == FirstIndex(s, y)
  {
    var i := FirstIndex(s, y);
    assert (s + [x])[..i] == s[..i];
    FirstIndexUnique(s + [x], y, i);
  }

  /** The scan lists the values in the order of their first occurrence in the input. */
  lemma {:induction false} DedupFirstSeenOrder<T>(s: seq<T>)
    ensures OrderedBy(Dedup(s), s)
  {
    if s != [] {
      var init, x := s[..|s| - 1], s[|s| - 1];
      assert s == init + [x];
      DedupFirstSeenOrder(init);
      var d := Dedup(init);
      forall i | 0 <= i < |d|
        ensures d[i] in init && FirstIndex(s, d[i]) == FirstIndex(init, d[i])
      {
        FirstIndexSnoc(init, x, d[i]);
      }
      if x !in d {
        DedupMembers(init, x);
        assert s[..|init|] == init;
        FirstIndexUnique(s, x, |init|);
      }
    }
  }

  lemma FirstIndexCons<T>(s: seq<T>, y: T)
    requires s != [] && y in s[1..] && y != s[0]
    ensures FirstIndex(s, y) == 1 + FirstIndex(s[1..], y)
  {
    var i := FirstIndex(s[1..], y);
    assert s[..i + 1] == [s[0]] + s[1..][..i];
    FirstIndexUnique(s, y, i + 1);
  }

  /** Order relative to the tail of a duplicate-free reference is order relative to
      the whole reference, and its head is not among the values. */
  lemma OrderedByTail<T>(s: seq<T>, reference: seq<T>)
    requires reference != [] && NoDuplicates(reference) && OrderedBy(s, reference[1..])
    ensures OrderedBy(s, reference)
    ensures forall i :: 0 <= i < |s| ==>
              (s[i] != reference[0] && FirstIndex(reference, s[i]) == 1 + FirstIndex(reference[1..], s[i]))
  {
    forall i | 0 <= i < |s|
      ensures s[i] in reference && s[i] != reference[0]
      ensures FirstIndex(reference, s[i]) == 1 + FirstIndex(reference[1..], s[i])
    {
      var k := FirstIndex(reference[1..], s[i]);
      assert reference[k + 1] == s[i];
      FirstIndexCons(reference, s[i]);
    }
  }

  /** Putting the head of the reference in front keeps the order. */
  lemma OrderedByCons<T>(s: seq<T>, reference: seq<T>)
    requires reference != [] && NoDuplicates(reference) && OrderedBy(s, reference[1..])
    ensures OrderedBy([reference[0]] + s, reference)
  {
    OrderedByTail(s, reference);
    var t := [reference[0]] + s;
    assert FirstIndex(reference, reference[0]) == 0;
    forall i | 0 <= i < |t| ensures t[i] in reference {
      if i > 0 { assert t[i] == s[i - 1]; }
    }
    forall i, j | 0 <= i < j < |t| ensures FirstIndex(reference, t[i]) < FirstIndex(reference, t[j]) {
      assert t[j] == s[j - 1];
      if i > 0 { assert t[i] == s[i - 1]; }
    }
  }

  /** The values of `s` that `keep` accepts, in their order in `s`. */
  function Filter<T>(s: seq<T>, keep: T -> bool): seq<T>
  {
    if s == [] then [] else (if keep(s[0]) then [s[0]] else []) + Filter(s[1..], keep)
  }

  lemma {:induction false} FilterMembers<T>(s: seq<T>, keep: T -> bool, x: T)
    ensures x in Filter(s, keep) <==> x in s && keep(x)
  {
    if s != [] {
      FilterMembers(s[1..], keep, x);
      assert s == [s[0]] + s[1..];
    }
  }

  /** Filtering a duplicate-free sequence keeps its order. */
  lemma {:induction false} FilterOrdered<T>(s: seq<T>, keep: T -> bool)
    requires NoDuplicates(s)
    ensures OrderedBy(Filter(s, keep), s)
  {
    if s != [] {
      var rest := s[1..];
      assert NoDuplicates(rest);
      FilterOrdered(rest, keep);
      OrderedByTail(Filter(rest, keep), s);
      if keep(s[0]) {
        OrderedByCons(Filter(rest, keep), s);
      }
    }
  }

  /** Values in strictly increasing first-occurrence order are distinct. */
  lemma OrderedByNoDuplicates<T>(s: seq<T>, reference: seq<T>)
    requires OrderedBy(s, reference)
    ensures NoDuplicates(s)
  {
  }

  /** Two filters that agree on every value of `s` select the same values. */
  lemma {:induction false} FilterCongruent<T>(s: seq<T>, keep1: T -> bool, keep2: T -> bool)
    requires forall i :: 0 <= i < |s| ==> keep1(s[i]) == keep2(s[i])
    ensures Filter(s, keep1) == Filter(s, keep2)
  {
    if s != [] {
      assert keep1(s[0]) == keep2(s[0]);
      forall i | 0 <= i < |s[1..]| ensures keep1(s[1..][i]) == keep2(s[1..][i]) {
        assert s[1..][i] == s[i + 1];
      }
      FilterCongruent(s[1..], keep1, keep2);
    }
  }

  /** Filtering one more value at the end keeps or drops that value alone. */
  lemma {:induction false} FilterSnoc<T>(s: seq<T>, keep: T -> bool, x: T)
    ensures Filter(s + [x], keep) == Filter(s, keep) + (if keep(x) then [x] else [])
  {
    if s == [] {
      assert [] + [x] == [x];
      assert [x][1..] == [];
    } else {
      assert (s + [x])[1..] == s[1..] + [x];
      FilterSnoc(s[1..], keep, x);
    }
  }

  /** The middle of `s` between a leading `head` and a trailing `tail`, when `s`
      starts with `head` and ends with `tail` without the two overlapping. */
  function Unwrap<T(==)>(head: seq<T>, tail: seq<T>, s: seq<T>): Option<seq<T>>
  {
    if |s| >= |head| + |tail| && s[..|head|] == head && s[|s| - |tail|..] == tail
    then Some(s[|head|..|s| - |tail|])
    else None
  }

  /** Unwrapping recovers what was wrapped. */
  lemma UnwrapWrap<T>(head: seq<T>, middle: seq<T>, tail: seq<T>)
    ensures Unwrap(head, tail, head + middle + tail) == Some(middle)
  {
    var s := head + middle + tail;
    assert s[..|head|] == head;
    assert s[|s| - |tail|..] == tail;
    assert s[|head|..|s| - |tail|] == middle;
  }

  /** Whatever unwraps is the wrapping of its middle. */
  lemma WrapUnwrap<T>(head: seq<T>, tail: seq<T>, s: seq<T>)
    requires Unwrap(head, tail, s).Some?
    ensures head + Unwrap(head, tail, s).value + tail == s
  {
    assert s == s[..|head|] + s[|head|..|s| - |tail|] + s[|s| - |tail|..];
  }

  /** Wrapping in a fixed head and tail loses nothing about the middle. */
  lemma WrapInjective<T>(head: seq<T>, a: seq<T>, b: seq<T>, tail: seq<T>)
    ensures head + a + tail == head + b + tail <==> a == b
  {
    UnwrapWrap(head, a, tail);
    UnwrapWrap(head, b, tail);
  }

  /** Extending a slice by one position appends the value at that position. */
  lemma SliceSnoc<T>(s: seq<T>, from: nat, to: nat)
    requires from <= to < |s|
    ensures s[from..to + 1] == s[from..to] + [s[to]]
  {
  }
}
