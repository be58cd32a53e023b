/**
 The plan that src/executor/physical_planner.cpp builds for LIMIT over several tasklets, with the operators in
 their plain meaning: the tasklets share one counter that lets `limit + offset` of their rows through, and of the rows
 that arrive, in any order the tasklets allow, `offset` are skipped and `limit` are taken.
 */
module LimitPlan {
  import opened Integers
  import opened Wrappers
  import opened DataBlocks
  import opened Limit

  /** `rows` is one way to mix the streams, each kept in its own order; `picks` tells where each row is from. */
  ghost predicate Mixes<T>(rows: seq<T>, streams: seq<seq<T>>, picks: seq<nat>) {
    && |picks| == |rows|
    && (if rows == [] then forall i | 0 <= i < |streams| :: streams[i] == []
        else
          var p := picks[0];
          && p < |streams| && streams[p] != [] && streams[p][0] == rows[0]
          && Mixes(rows[1..], streams[p := streams[p][1..]], picks[1..]))
  }

  /** What is left of the streams after the given prefixes. */
  ghost function Remainders<T>(streams: seq<seq<T>>, cut: seq<seq<T>>): seq<seq<T>>
    requires Prefixes(cut, streams)
  {
    seq(|streams|, i requires 0 <= i < |streams| => streams[i][|cut[i]|..])
  }

  ghost predicate Prefixes<T>(cut: seq<seq<T>>, streams: seq<seq<T>>) {
    |cut| == |streams| && forall i | 0 <= i < |streams| :: cut[i] <= streams[i]
  }

  lemma {:induction false} NoRows<T>(streams: seq<seq<T>>)
    requires forall i | 0 <= i < |streams| :: streams[i] == []
    ensures Concat(streams) == []
  {
    if streams != [] {
      assert streams == [streams[0]] + streams[1..];
      ConcatCons(streams[0], streams[1..]);
      NoRows(streams[1..]);
    }
  }

  lemma OneTaken<T>(streams: seq<seq<T>>, p: nat)
    requires p < |streams| && streams[p] != []
    ensures |Concat(streams[p := streams[p][1..]])| == |Concat(streams)| - 1
  {
    var rest := streams[p := streams[p][1..]];
    ConcatAround(streams, p);
    ConcatAround(rest, p);
    assert rest[..p] == streams[..p] && rest[p + 1..] == streams[p + 1..];
  }

  lemma {:induction false} MixedCount<T>(rows: seq<T>, streams: seq<seq<T>>, picks: seq<nat>)
    requires Mixes(rows, streams, picks)
    ensures |rows| == |Concat(streams)|
  {
    if rows == [] {
      NoRows(streams);
    } else {
      var p := picks[0];
      MixedCount(rows[1..], streams[p := streams[p][1..]], picks[1..]);
      OneTaken(streams, p);
    }
  }

  /** One stream after the other is one way to mix them. */
  lemma {:induction false} OneAfterTheOther<T>(streams: seq<seq<T>>, i: nat) returns (picks: seq<nat>)
    requires i <= |streams| && forall k | 0 <= k < i :: streams[k] == []
    ensures Mixes(RowsFrom(streams, i), streams, picks)
    decreases |streams| - i, if i < |streams| then |streams[i]| else 0
  {
    if i == |streams| {
      picks := [];
    } else if streams[i] == [] {
      picks := OneAfterTheOther(streams, i + 1);
      assert RowsFrom(streams, i) == RowsFrom(streams, i + 1);
    } else {
      var rest := streams[i := streams[i][1..]];
      var later := OneAfterTheOther(rest, i);
      SameFrom(streams, rest, i + 1);
      assert RowsFrom(streams, i)[1..] == RowsFrom(rest, i);
      picks := [i] + later;
      assert picks[1..] == later;
    }
  }

  lemma {:induction false} SameFrom<T>(a: seq<seq<T>>, b: seq<seq<T>>, i: nat)
    requires |a| == |b| && i <= |a| && forall k | i <= k < |a| :: a[k] == b[k]
    ensures RowsFrom(a, i) == RowsFrom(b, i)
    decreases |a| - i
  {
    if i < |a| {
      SameFrom(a, b, i + 1);
    }
  }

  /** A mix of prefixes of the streams, followed by what is left of them, is a mix of the streams. */
  lemma {:induction false} Extended<T>(rows: seq<T>, cut: seq<seq<T>>, streams: seq<seq<T>>, picks: seq<nat>)
    returns (all: seq<nat>)
    requires Prefixes(cut, streams) && Mixes(rows, cut, picks)
    ensures Mixes(rows + Concat(Remainders(streams, cut)), streams, all)
  {
    var left := Remainders(streams, cut);
    if rows == [] {
      assert left == streams;
      all := OneAfterTheOther(streams, 0);
      FromStart(streams);
      assert rows + Concat(left) == Concat(left);
    } else {
      var p := picks[0];
      var cut', streams' := cut[p := cut[p][1..]], streams[p := streams[p][1..]];
      assert Remainders(streams', cut') == left;
      var later := Extended(rows[1..], cut', streams', picks[1..]);
      assert (rows + Concat(left))[1..] == rows[1..] + Concat(left);
      all := [p] + later;
      assert all[1..] == later;
    }
  }

  /** The streams cut by one counter: some first rows of each, `n` in all or everything there is. */
  ghost predicate CutTogether<T>(cut: seq<seq<T>>, streams: seq<seq<T>>, n: nat) {
    Prefixes(cut, streams) && |Concat(cut)| == Min(|Concat(streams)|, n)
  }

  lemma SameWindow<T>(rows: seq<T>, more: seq<T>, offset: nat, limit: nat)
    requires |rows| >= limit + offset || more == []
    ensures Window(rows + more, offset, limit) == Window(rows, offset, limit)
    ensures |Window(rows, offset, limit)| == Min(limit, Beyond(|rows + more|, offset))
  {
    if more == [] {
      assert rows + more == rows;
    } else if offset < |rows| {
      assert (rows + more)[offset..offset + limit] == rows[offset..offset + limit];
    }
  }

  /**
   Letting only `limit + offset` rows of all tasklets through does not change what can come out: whichever rows those
   are and however they are mixed, the rows taken from them are those taken from a mix of the whole streams, and
   they are as many as the query asks for and the input holds.
   */
  lemma LimitRewrite<T>(streams: seq<seq<T>>, cut: seq<seq<T>>, offset: nat, limit: nat, rows: seq<T>, picks: seq<nat>)
    returns (uncut: seq<T>, all: seq<nat>)
    requires CutTogether(cut, streams, limit + offset) && Mixes(rows, cut, picks)
    ensures Mixes(uncut, streams, all)
    ensures Window(rows, offset, limit) == Window(uncut, offset, limit)
    ensures |Window(rows, offset, limit)| == Min(limit, Beyond(|Concat(streams)|, offset))
  {
    all := Extended(rows, cut, streams, picks);
    var left := Concat(Remainders(streams, cut));
    uncut := rows + left;
    MixedCount(rows, cut, picks);
    MixedCount(uncut, streams, all);
    SameWindow(rows, left, offset, limit);
  }

  /** The first `m` rows of a mix are a mix of first rows of the streams. */
  lemma {:induction false} FirstOfMix<T>(rows: seq<T>, streams: seq<seq<T>>, picks: seq<nat>, m: nat)
    returns (cut: seq<seq<T>>)
    requires Mixes(rows, streams, picks) && m <= |rows|
    ensures Prefixes(cut, streams) && Mixes(rows[..m], cut, picks[..m])
    decreases m
  {
    if m == 0 {
      cut := seq(|streams|, _ => []);
    } else {
      var p := picks[0];
      var streams' := streams[p := streams[p][1..]];
      var cut' := FirstOfMix(rows[1..], streams', picks[1..], m - 1);
      cut := cut'[p := [rows[0]] + cut'[p]];
      OneBefore(streams, cut', p);
      assert rows[..m][1..] == rows[1..][..m - 1] && picks[..m][1..] == picks[1..][..m - 1];
      assert cut[p := cut[p][1..]] == cut';
    }
  }

  lemma OneBefore<T>(streams: seq<seq<T>>, cut: seq<seq<T>>, p: nat)
    requires p < |streams| && streams[p] != [] && Prefixes(cut, streams[p := streams[p][1..]])
    ensures Prefixes(cut[p := [streams[p][0]] + cut[p]], streams)
  {
    var rest := streams[p][1..];
    assert streams[p] == [streams[p][0]] + rest;
    assert cut[p] <= streams[p := rest][p];
    assert rest == cut[p] + rest[|cut[p]|..];
    assert streams[p] == [streams[p][0]] + cut[p] + rest[|cut[p]|..];
    forall i | 0 <= i < |streams| && i != p ensures cut[i] <= streams[i] {
      assert streams[p := rest][i] == streams[i];
    }
  }

  /** What a mix of the whole streams gives, the cut streams can give. */
  lemma LimitRewriteBack<T>(streams: seq<seq<T>>, offset: nat, limit: nat, rows: seq<T>, picks: seq<nat>)
    returns (cut: seq<seq<T>>, short: seq<T>, some: seq<nat>)
    requires Mixes(rows, streams, picks)
    ensures CutTogether(cut, streams, limit + offset) && Mixes(short, cut, some)
    ensures Window(short, offset, limit) == Window(rows, offset, limit)
  {
    var m := Min(|rows|, limit + offset);
    cut := FirstOfMix(rows, streams, picks, m);
    short, some := rows[..m], picks[..m];
    MixedCount(rows, streams, picks);
    MixedCount(short, cut, some);
    assert rows == rows[..m] + rows[m..];
    SameWindow(short, rows[m..], offset, limit);
  }

  // ----- the plan -----

  /** A single Limit, or a Limit over the tasklets under a MergeLimit. */
  datatype Plan = OnlyLimit(offset: int, limit: int) | LimitThenMerge(childLimit: int, offset: int, limit: int)

  ghost predicate Usable(plan: Plan) {
    plan.offset >= 0 && plan.limit >= 0 && (plan.LimitThenMerge? ==> plan.childLimit >= 0)
  }

  /** The rows that reach the operator that skips and takes. */
  ghost predicate Arrive<T>(plan: Plan, streams: seq<seq<T>>, passed: seq<seq<T>>)
    requires Usable(plan)
  {
    if plan.OnlyLimit? then passed == streams else CutTogether(passed, streams, plan.childLimit)
  }

  /** The plan can give these rows over the tasklets' streams. */
  ghost predicate CanGive<T(!new)>(plan: Plan, streams: seq<seq<T>>, result: seq<T>)
    requires Usable(plan)
  {
    exists passed, rows, picks ::
      Arrive(plan, streams, passed) && Mixes(rows, passed, picks) && result == Window(rows, plan.offset, plan.limit)
  }

  lemma MergeGivesNoOther<T(!new)>(limit: nat, offset: nat, streams: seq<seq<T>>, result: seq<T>)
    requires CanGive(LimitThenMerge(limit + offset, offset, limit), streams, result)
    ensures CanGive(OnlyLimit(offset, limit), streams, result)
  {
    var plan := LimitThenMerge(limit + offset, offset, limit);
    var cut, rows, picks :|
      Arrive(plan, streams, cut) && Mixes(rows, cut, picks) && result == Window(rows, offset, limit);
    var uncut, all := LimitRewrite(streams, cut, offset, limit, rows, picks);
    assert Arrive(OnlyLimit(offset, limit), streams, streams);
  }

  lemma MergeGivesAll<T(!new)>(limit: nat, offset: nat, streams: seq<seq<T>>, result: seq<T>)
    requires CanGive(OnlyLimit(offset, limit), streams, result)
    ensures CanGive(LimitThenMerge(limit + offset, offset, limit), streams, result)
  {
    var passed, rows, picks :|
      && Arrive(OnlyLimit(offset, limit), streams, passed) && Mixes(rows, passed, picks)
      && result == Window(rows, offset, limit);
    var cut, short, some := LimitRewriteBack(streams, offset, limit, rows, picks);
    assert Arrive(LimitThenMerge(limit + offset, offset, limit), streams, cut);
  }

  /** The plan for several tasklets can give exactly what a single Limit over all their rows can give. */
  lemma PlanKeepsMeaning<T(!new)>(limit: nat, offset: nat, streams: seq<seq<T>>, result: seq<T>)
    ensures CanGive(LimitThenMerge(limit + offset, offset, limit), streams, result)
      <==> CanGive(OnlyLimit(offset, limit), streams, result)
  {
    if CanGive(OnlyLimit(offset, limit), streams, result) {
      MergeGivesAll(limit, offset, streams, result);
    } else if CanGive(LimitThenMerge(limit + offset, offset, limit), streams, result) {
      MergeGivesNoOther(limit, offset, streams, result);
    }
  }

  /** Two plans that can give the same results over the same streams, whatever these are. */
  ghost predicate SameMeaning<T(!new)>(p: Plan, q: Plan)
    requires Usable(p) && Usable(q)
  {
    forall streams: seq<seq<T>>, result: seq<T> :: CanGive(p, streams, result) <==> CanGive(q, streams, result)
  }

  /**
   The plan for one or several tasklets. It means LIMIT and OFFSET exactly when their sum fits in 63 bits;
   otherwise the tasklets' limit is negative, which the operator refuses.
   */
  method BuildLimit<T(!new)>(limit: int, offset: Option<int>, taskletCount: nat) returns (plan: Plan)
    requires IsI64(limit) && (offset.Some? ==> IsI64(offset.value))
    ensures plan.OnlyLimit? <==> taskletCount <= 1
    ensures plan.limit == limit && plan.offset == (if offset.Some? then offset.value else 0)
    ensures limit >= 0 && plan.offset >= 0 ==> (Usable(plan) <==> taskletCount <= 1 || limit + plan.offset < TWO63)
    ensures Usable(plan) ==> SameMeaning<T>(plan, OnlyLimit(plan.offset, limit))
  {
    var skipped := if offset.Some? then offset.value else 0;
    if taskletCount <= 1 {
      return OnlyLimit(skipped, limit);
    }
    var childLimit := limit;
    if offset.Some? {
      childLimit := Wrap64(childLimit + offset.value);
    }
    plan := LimitThenMerge(childLimit, skipped, limit);
    if Usable(plan) {
      forall streams: seq<seq<T>>, result: seq<T>
        ensures CanGive(plan, streams, result) <==> CanGive(OnlyLimit(skipped, limit), streams, result)
      {
        PlanKeepsMeaning(limit, skipped, streams, result);
      }
    }
  }
}
