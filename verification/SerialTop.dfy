/**
 One tasklet that calls Top several times: every call gives the first rows of its own input
 (src/executor/operator/physical_top.cpp). When is what comes out the first rows of all input?
 */
module SerialTop {
  import opened Ranking
  import opened DataBlocks

  /** The requested window of a sorted arrangement of all rows. */
  ghost predicate TopRows<T(!new)>(le: (T, T) -> bool, rows: seq<T>, limit: nat, offset: nat, result: seq<T>) {
    exists all :: Sorted(le, all) && multiset(all) == multiset(rows) && result == Window(all, offset, limit)
  }

  /** `out` is a sorted first-k selection of `rows`. */
  ghost predicate IsTop<T(!new)>(le: (T, T) -> bool, rows: seq<T>, out: seq<T>, k: nat) {
    exists rest :: TopOf(le, out, rest, k) && multiset(out) + multiset(rest) == multiset(rows)
  }

  ghost predicate EachTop<T(!new)>(le: (T, T) -> bool, inputs: seq<seq<T>>, outs: seq<seq<T>>, k: nat) {
    |inputs| == |outs| && forall i | 0 <= i < |inputs| :: IsTop(le, inputs[i], outs[i], k)
  }

  ghost predicate AtMostOneInput<T>(inputs: seq<seq<T>>) {
    forall i, j | 0 <= i < j < |inputs| :: inputs[i] == [] || inputs[j] == []
  }

  ghost predicate InputsInOrder<T>(le: (T, T) -> bool, inputs: seq<seq<T>>) {
    forall i, j | 0 <= i < j < |inputs| :: Below(le, inputs[i], inputs[j])
  }

  /**
   The condition on the inputs of the calls: at most one has rows, or there are no more rows than the
   limit and no row of a later call has to come before a row of an earlier one.
   */
  ghost predicate SerialCondition<T>(le: (T, T) -> bool, inputs: seq<seq<T>>, k: nat) {
    AtMostOneInput(inputs) || (|Concat(inputs)| <= k && InputsInOrder(le, inputs))
  }

  // ----- one call -----

  lemma TopLength<T(!new)>(le: (T, T) -> bool, rows: seq<T>, out: seq<T>, k: nat)
    requires IsTop(le, rows, out, k)
    ensures |out| == Min(k, |rows|) && Sorted(le, out)
    ensures |rows| <= k ==> multiset(out) == multiset(rows)
  {
    var rest :| TopOf(le, out, rest, k) && multiset(out) + multiset(rest) == multiset(rows);
    assert |multiset(out)| + |multiset(rest)| == |multiset(rows)|;
    if |rest| == 0 {
      assert rest == [];
    }
  }

  lemma FrontTops<T(!new)>(le: (T, T) -> bool, inputs: seq<seq<T>>, outs: seq<seq<T>>, k: nat)
    requires EachTop(le, inputs, outs, k) && inputs != []
    ensures var n := |inputs| - 1; EachTop(le, inputs[..n], outs[..n], k) && IsTop(le, inputs[n], outs[n], k)
  {
  }

  lemma LastEmpty<T(!new)>(le: (T, T) -> bool, inputs: seq<seq<T>>, outs: seq<seq<T>>, k: nat)
    requires EachTop(le, inputs, outs, k) && inputs != [] && inputs[|inputs| - 1] == []
    ensures Concat(inputs) == Concat(inputs[..|inputs| - 1]) && Concat(outs) == Concat(outs[..|inputs| - 1])
  {
    TopLength(le, inputs[|inputs| - 1], outs[|inputs| - 1], k);
  }

  // ----- counting -----

  lemma {:induction false} AtLeast<T(!new)>(le: (T, T) -> bool, inputs: seq<seq<T>>, outs: seq<seq<T>>, k: nat)
    requires EachTop(le, inputs, outs, k)
    ensures |Concat(outs)| >= Min(k, |Concat(inputs)|)
    ensures |Concat(inputs)| == 0 ==> |Concat(outs)| == 0
    decreases |inputs|
  {
    if inputs != [] {
      var n := |inputs| - 1;
      FrontTops(le, inputs, outs, k);
      AtLeast(le, inputs[..n], outs[..n], k);
      TopLength(le, inputs[n], outs[n], k);
    }
  }

  lemma {:induction false} Among<T>(s: seq<seq<T>>, i: nat)
    requires i < |s|
    ensures forall x | x in s[i] :: x in Concat(s)
    ensures |s[i]| <= |Concat(s)|
    decreases |s|
  {
    if i < |s| - 1 {
      Among(s[..|s| - 1], i);
    }
  }

  lemma LastTooMany<T(!new)>(le: (T, T) -> bool, inputs: seq<seq<T>>, outs: seq<seq<T>>, k: nat)
    requires EachTop(le, inputs, outs, k) && |Concat(inputs)| > k > 0 && inputs != [] && inputs[|inputs| - 1] != []
    requires |Concat(inputs[..|inputs| - 1])| > 0
    ensures |Concat(outs)| > k
  {
    var n := |inputs| - 1;
    FrontTops(le, inputs, outs, k);
    TopLength(le, inputs[n], outs[n], k);
    AtLeast(le, inputs[..n], outs[..n], k);
  }

  /** With two inputs that have rows, and more rows than the limit, too many rows come out. */
  lemma {:induction false} TooMany<T(!new)>(le: (T, T) -> bool, inputs: seq<seq<T>>, outs: seq<seq<T>>, k: nat)
    requires EachTop(le, inputs, outs, k) && !AtMostOneInput(inputs) && |Concat(inputs)| > k > 0
    ensures |Concat(outs)| > k
    decreases |inputs|
  {
    var n := |inputs| - 1;
    FrontTops(le, inputs, outs, k);
    var i, j :| 0 <= i < j < |inputs| && inputs[i] != [] && inputs[j] != [];
    if inputs[n] == [] {
      assert inputs[..n][i] != [] && inputs[..n][j] != [];
      LastEmpty(le, inputs, outs, k);
      TooMany(le, inputs[..n], outs[..n], k);
    } else {
      assert inputs[..n][i] != [];
      Among(inputs[..n], i);
      LastTooMany(le, inputs, outs, k);
    }
  }

  // ----- order -----

  lemma BelowArranged<T>(le: (T, T) -> bool, a: seq<T>, b: seq<T>, a': seq<T>, b': seq<T>)
    requires Below(le, a, b) && multiset(a) == multiset(a') && multiset(b) == multiset(b')
    ensures Below(le, a', b')
  {
    forall i, j | 0 <= i < |a'| && 0 <= j < |b'| ensures le(a'[i], b'[j]) {
      assert a'[i] in multiset(a) && b'[j] in multiset(b);
      var p :| 0 <= p < |a| && a[p] == a'[i];
      var q :| 0 <= q < |b| && b[q] == b'[j];
      assert le(a[p], b[q]);
    }
  }

  lemma {:induction false} ConcatBelow<T>(le: (T, T) -> bool, s: seq<seq<T>>, b: seq<T>)
    requires forall i | 0 <= i < |s| :: Below(le, s[i], b)
    ensures Below(le, Concat(s), b)
    decreases |s|
  {
    if s != [] {
      ConcatBelow(le, s[..|s| - 1], b);
      assert Below(le, s[|s| - 1], b);
    }
  }

  /** Sorted outputs in order, one after the other, are sorted. */
  lemma {:induction false} SortedConcat<T>(le: (T, T) -> bool, outs: seq<seq<T>>)
    requires InputsInOrder(le, outs) && forall i | 0 <= i < |outs| :: Sorted(le, outs[i])
    ensures Sorted(le, Concat(outs))
    decreases |outs|
  {
    if outs != [] {
      var n := |outs| - 1;
      SortedConcat(le, outs[..n]);
      forall i | 0 <= i < n ensures Below(le, outs[..n][i], outs[n]) {
        assert Below(le, outs[i], outs[n]);
      }
      ConcatBelow(le, outs[..n], outs[n]);
      SortedPair(le, Concat(outs[..n]), outs[n]);
    }
  }

  lemma SortedPair<T>(le: (T, T) -> bool, a: seq<T>, b: seq<T>)
    ensures Sorted(le, a + b) <==> Sorted(le, a) && Sorted(le, b) && Below(le, a, b)
  {
    var s := a + b;
    if Sorted(le, s) {
      forall i, j | 0 <= i < j < |a| ensures le(a[i], a[j]) {
        assert s[i] == a[i] && s[j] == a[j];
      }
      forall i, j | 0 <= i < j < |b| ensures le(b[i], b[j]) {
        assert s[|a| + i] == b[i] && s[|a| + j] == b[j];
      }
      forall i, j | 0 <= i < |a| && 0 <= j < |b| ensures le(a[i], b[j]) {
        assert s[i] == a[i] && s[|a| + j] == b[j];
      }
    }
  }

  lemma {:induction false} SortedParts<T>(le: (T, T) -> bool, outs: seq<seq<T>>, i: nat, j: nat)
    requires Sorted(le, Concat(outs)) && i < j < |outs|
    ensures Below(le, outs[i], outs[j])
    decreases |outs|
  {
    var n := |outs| - 1;
    var front := outs[..n];
    SortedPair(le, Concat(front), outs[n]);
    if j < n {
      SortedParts(le, front, i, j);
    } else {
      Among(front, i);
      forall p, q | 0 <= p < |outs[i]| && 0 <= q < |outs[n]| ensures le(outs[i][p], outs[n][q]) {
        assert front[i][p] in Concat(front);
        var r :| 0 <= r < |Concat(front)| && Concat(front)[r] == outs[i][p];
        assert le(Concat(front)[r], outs[n][q]);
      }
    }
  }

  lemma {:induction false} AllPassed<T(!new)>(le: (T, T) -> bool, inputs: seq<seq<T>>, outs: seq<seq<T>>, k: nat)
    requires EachTop(le, inputs, outs, k) && |Concat(inputs)| <= k
    ensures multiset(Concat(outs)) == multiset(Concat(inputs))
    ensures forall i | 0 <= i < |inputs| :: multiset(outs[i]) == multiset(inputs[i])
    decreases |inputs|
  {
    if inputs != [] {
      var n := |inputs| - 1;
      FrontTops(le, inputs, outs, k);
      AllPassed(le, inputs[..n], outs[..n], k);
      TopLength(le, inputs[n], outs[n], k);
      forall i | 0 <= i < |inputs| ensures multiset(outs[i]) == multiset(inputs[i]) {
        if i < n {
          assert outs[i] == outs[..n][i] && inputs[i] == inputs[..n][i];
        }
      }
    }
  }

  // ----- exactly when -----

  lemma {:induction false} AllEmpty<T>(s: seq<seq<T>>)
    requires forall i | 0 <= i < |s| :: s[i] == []
    ensures Concat(s) == []
    decreases |s|
  {
    if s != [] {
      AllEmpty(s[..|s| - 1]);
    }
  }

  lemma OnlyLast<T(!new)>(le: (T, T) -> bool, inputs: seq<seq<T>>, outs: seq<seq<T>>, k: nat)
    requires EachTop(le, inputs, outs, k) && inputs != [] && forall i | 0 <= i < |inputs| - 1 :: inputs[i] == []
    ensures IsTop(le, Concat(inputs), Concat(outs), k)
  {
    var n := |inputs| - 1;
    FrontTops(le, inputs, outs, k);
    AllEmpty(inputs[..n]);
    AtLeast(le, inputs[..n], outs[..n], k);
    assert Concat(inputs) == inputs[n] && Concat(outs) == outs[n];
  }

  /** Only one input has rows: then its output is all there is. */
  lemma {:induction false} OnlyOne<T(!new)>(le: (T, T) -> bool, inputs: seq<seq<T>>, outs: seq<seq<T>>, k: nat)
    requires EachTop(le, inputs, outs, k) && AtMostOneInput(inputs)
    ensures IsTop(le, Concat(inputs), Concat(outs), k)
    decreases |inputs|
  {
    if inputs == [] {
      assert TopOf(le, Concat(outs), [], k);
    } else if inputs[|inputs| - 1] == [] {
      FrontTops(le, inputs, outs, k);
      OnlyOne(le, inputs[..|inputs| - 1], outs[..|inputs| - 1], k);
      LastEmpty(le, inputs, outs, k);
    } else {
      OnlyLast(le, inputs, outs, k);
    }
  }

  lemma InOrderAnswers<T(!new)>(le: (T, T) -> bool, inputs: seq<seq<T>>, outs: seq<seq<T>>, k: nat)
    requires EachTop(le, inputs, outs, k) && |Concat(inputs)| <= k && InputsInOrder(le, inputs)
    ensures TopRows(le, Concat(inputs), k, 0, Concat(outs))
  {
    AllPassed(le, inputs, outs, k);
    forall i | 0 <= i < |outs| ensures Sorted(le, outs[i]) {
      TopLength(le, inputs[i], outs[i], k);
    }
    forall i, j | 0 <= i < j < |outs| ensures Below(le, outs[i], outs[j]) {
      BelowArranged(le, inputs[i], inputs[j], outs[i], outs[j]);
    }
    SortedConcat(le, outs);
    var all := Concat(outs);
    assert |multiset(all)| == |multiset(Concat(inputs))|;
    assert Window(all, 0, k) == all;
  }

  lemma AnswersInOrder<T(!new)>(le: (T, T) -> bool, inputs: seq<seq<T>>, outs: seq<seq<T>>, k: nat)
    requires EachTop(le, inputs, outs, k) && k > 0 && TopRows(le, Concat(inputs), k, 0, Concat(outs))
    ensures SerialCondition(le, inputs, k)
  {
    if !AtMostOneInput(inputs) {
      var all :| Sorted(le, all) && multiset(all) == multiset(Concat(inputs)) && Concat(outs) == Window(all, 0, k);
      assert |multiset(all)| == |multiset(Concat(inputs))|;
      if |Concat(inputs)| > k {
        TooMany(le, inputs, outs, k);
      } else {
        assert Concat(outs) == all;
        AllPassed(le, inputs, outs, k);
        forall i, j | 0 <= i < j < |inputs| ensures Below(le, inputs[i], inputs[j]) {
          SortedParts(le, outs, i, j);
          BelowArranged(le, outs[i], outs[j], inputs[i], inputs[j]);
        }
      }
    }
  }
}
