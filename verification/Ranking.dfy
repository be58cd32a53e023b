/**
 Total preorders on rows and what it means for a sequence to be the first `k` rows of a bag
 of rows. `le(x, y)` says that `x` may come before `y`; rows that tie satisfy it both ways.
 */
module Ranking {
  import opened Sequences

  ghost predicate TotalPreorder<T(!new)>(le: (T, T) -> bool) {
    && (forall x, y :: le(x, y) || le(y, x))
    && (forall x, y, z :: le(x, y) && le(y, z) ==> le(x, z))
  }

  ghost predicate Sorted<T>(le: (T, T) -> bool, s: seq<T>) {
    forall i, j | 0 <= i < j < |s| :: le(s[i], s[j])
  }

  /** Every element of `a` may come before every element of `b`. */
  ghost predicate Below<T>(le: (T, T) -> bool, a: seq<T>, b: seq<T>) {
    forall i, j | 0 <= i < |a| && 0 <= j < |b| :: le(a[i], b[j])
  }

  /**
   `out` is a first-`k` selection and `rest` what it left behind: `out` is sorted, nothing in
   `rest` has to come before anything in `out`, and something was left behind only when `out` is full.
   */
  ghost predicate TopOf<T>(le: (T, T) -> bool, out: seq<T>, rest: seq<T>, k: nat) {
    Sorted(le, out) && Below(le, out, rest) && |out| <= k && (|out| == k || rest == [])
  }

  /** The two sequences tie position by position, so their sort keys are equal. */
  ghost predicate SameKeys<T>(le: (T, T) -> bool, a: seq<T>, b: seq<T>) {
    |a| == |b| && forall i | 0 <= i < |a| :: le(a[i], b[i]) && le(b[i], a[i])
  }

  // ----- counting -----

  /** How many elements of `s` may come before `v`. */
  ghost function Rank<T>(le: (T, T) -> bool, s: seq<T>, v: T): nat {
    if s == [] then 0 else (if le(s[0], v) then 1 else 0) + Rank(le, s[1..], v)
  }

  lemma {:induction false} RankConcat<T>(le: (T, T) -> bool, a: seq<T>, b: seq<T>, v: T)
    ensures Rank(le, a + b, v) == Rank(le, a, v) + Rank(le, b, v)
  {
    if a == [] {
      assert a + b == b;
    } else {
      assert (a + b)[1..] == a[1..] + b;
      RankConcat(le, a[1..], b, v);
    }
  }

  lemma RankWithout<T>(le: (T, T) -> bool, s: seq<T>, i: nat, v: T)
    requires i < |s|
    ensures Rank(le, s, v) == (if le(s[i], v) then 1 else 0) + Rank(le, s[..i] + s[i + 1..], v)
  {
    RankConcat(le, s[..i], s[i + 1..], v);
    RankConcat(le, s[..i], s[i..], v);
    assert s == s[..i] + s[i..];
  }

  /** The rank depends only on the bag of elements. */
  lemma {:induction false} RankPermutation<T>(le: (T, T) -> bool, a: seq<T>, b: seq<T>, v: T)
    requires multiset(a) == multiset(b)
    ensures Rank(le, a, v) == Rank(le, b, v)
    decreases |a|
  {
    if a == [] {
      assert |b| == |multiset(b)|;
    } else {
      var i := PlaceOfFirst(a, b);
      RankPermutation(le, a[1..], b[..i] + b[i + 1..], v);
      RankWithout(le, b, i, v);
    }
  }

  lemma {:induction false} RankAll<T>(le: (T, T) -> bool, s: seq<T>, v: T)
    requires forall i | 0 <= i < |s| :: le(s[i], v)
    ensures Rank(le, s, v) == |s|
  {
    if s != [] {
      RankAll(le, s[1..], v);
    }
  }

  lemma {:induction false} RankNone<T>(le: (T, T) -> bool, s: seq<T>, v: T)
    requires forall i | 0 <= i < |s| :: !le(s[i], v)
    ensures Rank(le, s, v) == 0
  {
    if s != [] {
      RankNone(le, s[1..], v);
    }
  }

  lemma {:induction false} RankBound<T>(le: (T, T) -> bool, s: seq<T>, v: T)
    ensures Rank(le, s, v) <= |s|
  {
    if s != [] {
      RankBound(le, s[1..], v);
    }
  }

  /** At least `i + 1` elements come before position `i` of a selection. */
  lemma RankAtLeast<T(!new)>(le: (T, T) -> bool, s: seq<T>, i: nat)
    requires TotalPreorder(le) && Sorted(le, s) && i < |s|
    ensures Rank(le, s, s[i]) >= i + 1
  {
    var front, back := s[..i + 1], s[i + 1..];
    assert s == front + back;
    RankConcat(le, front, back, s[i]);
    forall j | 0 <= j < |front| ensures le(front[j], s[i]) {
    }
    RankAll(le, front, s[i]);
  }

  /** At most `i` elements of a selection and its rest may come before a row that precedes position `i` strictly. */
  lemma RankAtMost<T(!new)>(le: (T, T) -> bool, out: seq<T>, rest: seq<T>, i: nat, v: T)
    requires TotalPreorder(le) && Sorted(le, out) && Below(le, out, rest) && i < |out|
    requires !le(out[i], v)
    ensures Rank(le, out + rest, v) <= i
  {
    var front, back := out[..i], out[i..] + rest;
    assert out + rest == front + back;
    RankConcat(le, front, back, v);
    forall j | 0 <= j < |back| ensures !le(back[j], v) {
      assert le(out[i], back[j]);
    }
    RankNone(le, back, v);
    RankBound(le, front, v);
  }

  /**
   A first-`k` selection has the same sort keys as the first `k` rows of any sorted
   arrangement of all the rows.
   */
  lemma TopIsPrefix<T(!new)>(le: (T, T) -> bool, out: seq<T>, rest: seq<T>, k: nat, all: seq<T>)
    requires TotalPreorder(le) && TopOf(le, out, rest, k)
    requires Sorted(le, all) && multiset(all) == multiset(out + rest)
    ensures |out| == if k < |all| then k else |all|
    ensures SameKeys(le, out, all[..|out|])
  {
    assert |all| == |multiset(all)| == |out + rest|;
    forall i | 0 <= i < |out| ensures le(out[i], all[i]) && le(all[i], out[i]) {
      if !le(out[i], all[i]) {
        RankAtMost(le, out, rest, i, all[i]);
        RankAtLeast(le, all, i);
        RankPermutation(le, all, out + rest, all[i]);
      }
      if !le(all[i], out[i]) {
        SelectionTooLow(le, out, rest, all, i);
      }
    }
  }

  /** A sorted arrangement cannot strictly exceed a selection at a position. */
  lemma SelectionTooLow<T(!new)>(le: (T, T) -> bool, out: seq<T>, rest: seq<T>, all: seq<T>, i: nat)
    requires TotalPreorder(le) && Sorted(le, out) && Sorted(le, all) && i < |out| <= |all|
    requires multiset(all) == multiset(out + rest)
    ensures le(all[i], out[i])
  {
    if !le(all[i], out[i]) {
      assert all + [] == all;
      RankAtMost(le, all, [], i, out[i]);
      RankAtLeast(le, out, i);
      RankConcat(le, out, rest, out[i]);
      RankPermutation(le, all, out + rest, out[i]);
    }
  }
}
