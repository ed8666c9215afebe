/** Erasing, in one pass and in order, the elements of a vector that fail a test:
    the pattern `it = v.erase(it)` / `++it` the sprite systems use. */
module Seqs {

  /** The elements of `s` that pass `keep`, in their original order. */
  function Filter<T>(s: seq<T>, keep: T -> bool): (r: seq<T>)
    ensures |r| <= |s|
  {
    if s == [] then []
    else
      var init := Filter(s[..|s| - 1], keep);
      if keep(s[|s| - 1]) then init + [s[|s| - 1]] else init
  }

  /** One more element examined: it is kept exactly when it passes. */
  lemma FilterSnoc<T>(s: seq<T>, x: T, keep: T -> bool)
    ensures Filter(s + [x], keep) == Filter(s, keep) + (if keep(x) then [x] else [])
  {
    assert (s + [x])[..|s|] == s;
  }

  /** The prefix form of FilterSnoc, as loop invariants use it. */
  lemma FilterPrefix<T>(s: seq<T>, k: nat, keep: T -> bool)
    requires k < |s|
    ensures Filter(s[..k + 1], keep) == Filter(s[..k], keep) + (if keep(s[k]) then [s[k]] else [])
  {
    assert s[..k + 1] == s[..k] + [s[k]];
    FilterSnoc(s[..k], s[k], keep);
  }

  /** Filtering distributes over concatenation, so the survivors keep their
      relative order. */
  lemma {:induction false} FilterConcat<T>(a: seq<T>, b: seq<T>, keep: T -> bool)
    ensures Filter(a + b, keep) == Filter(a, keep) + Filter(b, keep)
    decreases |b|
  {
    if b == [] {
      assert a + b == a;
    } else {
      var b0, x := b[..|b| - 1], b[|b| - 1];
      assert b == b0 + [x];
      assert a + b == (a + b0) + [x];
      FilterConcat(a, b0, keep);
      FilterSnoc(a + b0, x, keep);
      FilterSnoc(b0, x, keep);
    }
  }

  /** Only elements of `s` that pass are kept. */
  lemma {:induction false} FilterMembers<T>(s: seq<T>, keep: T -> bool)
    ensures forall x :: x in Filter(s, keep) ==> x in s && keep(x)
    decreases |s|
  {
    if s != [] {
      FilterMembers(s[..|s| - 1], keep);
    }
  }

  /** A pass that keeps as many elements as it saw erased nothing. */
  lemma {:induction false} FilterKeepsAll<T>(s: seq<T>, keep: T -> bool)
    requires |Filter(s, keep)| == |s|
    ensures Filter(s, keep) == s
    decreases |s|
  {
    if s != [] {
      var init := s[..|s| - 1];
      assert |Filter(init, keep)| <= |init|;
      FilterKeepsAll(init, keep);
      assert init + [s[|s| - 1]] == s;
    }
  }

  /** Exactly the elements that pass are kept, each as often as it occurs. */
  lemma {:induction false} FilterCount<T>(s: seq<T>, keep: T -> bool, x: T)
    ensures multiset(Filter(s, keep))[x] == if keep(x) then multiset(s)[x] else 0
    decreases |s|
  {
    if s != [] {
      var init, y := s[..|s| - 1], s[|s| - 1];
      assert s == init + [y];
      FilterCount(init, keep, x);
    }
  }

  /** Nothing is erased when every element passes. */
  lemma {:induction false} FilterAll<T>(s: seq<T>, keep: T -> bool)
    requires forall i :: 0 <= i < |s| ==> keep(s[i])
    ensures Filter(s, keep) == s
    decreases |s|
  {
    if s != [] {
      FilterAll(s[..|s| - 1], keep);
      assert s[..|s| - 1] + [s[|s| - 1]] == s;
    }
  }

  /** Erasing position `i` shifts every later element down by one. */
  lemma EraseAt<T>(s: seq<T>, i: nat)
    requires i < |s|
    ensures var r := s[..i] + s[i + 1..];
      && |r| == |s| - 1
      && (forall k :: 0 <= k < i ==> r[k] == s[k])
      && (forall k :: i <= k < |r| ==> r[k] == s[k + 1])
  {
  }

  /** One step of the erase-while-iterating loop. After `k` elements of `s`
      have been examined, the vector `cur` holds `Filter(s[..k]) + s[k..]` and
      the iterator `i` stands on `s[k]`; keeping it (advancing `i`) or erasing
      it yields the state after `k + 1` elements. */
  lemma EraseStep<T>(s: seq<T>, k: nat, keep: T -> bool, cur: seq<T>, i: nat)
    requires k < |s|
    requires i == |Filter(s[..k], keep)| && cur == Filter(s[..k], keep) + s[k..]
    ensures i < |cur| && cur[i] == s[k]
    ensures keep(s[k]) ==> i + 1 == |Filter(s[..k + 1], keep)| && cur == Filter(s[..k + 1], keep) + s[k + 1..]
    ensures !keep(s[k]) ==> i == |Filter(s[..k + 1], keep)| && cur[..i] + cur[i + 1..] == Filter(s[..k + 1], keep) + s[k + 1..]
  {
    var done := Filter(s[..k], keep);
    assert s[k..] == [s[k]] + s[k + 1..];
    FilterPrefix(s, k, keep);
    if keep(s[k]) {
      assert (done + [s[k]]) + s[k + 1..] == cur;
    } else {
      assert cur[..i] == done;
      assert cur[i + 1..] == s[k + 1..];
    }
  }
}
