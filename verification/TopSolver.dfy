/**
 The bounded heap of src/executor/operator/physical_top.cpp: a row enters while there is room,
 later rows only replace a strictly worse top, and a heap sort leaves the kept rows in order.
 Heap positions start at 1 as in the source, so position `p` is array element `p - 1`.
 */
module TopSolver {
  import opened Ranking
  import opened DataBlocks

  // ----- heap order on sequences -----

  /** Both children of heap position `p`, as far as there are any, may come before `v`. */
  ghost predicate ChildrenBefore<T>(le: (T, T) -> bool, h: seq<T>, p: nat, v: T) {
    && 1 <= p
    && (2 * p <= |h| ==> le(h[2 * p - 1], v))
    && (2 * p + 1 <= |h| ==> le(h[2 * p], v))
  }

  /** Heap order holds at position `p`. */
  ghost predicate ParentOk<T>(le: (T, T) -> bool, h: seq<T>, p: nat)
    requires 1 <= p <= |h|
  {
    ChildrenBefore(le, h, p, h[p - 1])
  }

  /** Heap order holds at every position from `lo` on. */
  ghost predicate Heap<T>(le: (T, T) -> bool, h: seq<T>, lo: nat) {
    forall p: nat | 1 <= p <= |h| && lo <= p :: ParentOk(le, h, p)
  }

  /** Heap order holds from `lo` on except at `hole`, whose children fit under `hole`'s parent. */
  ghost predicate Sifting<T>(le: (T, T) -> bool, g: seq<T>, lo: nat, hole: nat)
    requires 1 <= lo <= hole <= |g|
  {
    && (forall p: nat | lo <= p <= |g| && p != hole :: ParentOk(le, g, p))
    && (lo <= hole / 2 ==> ChildrenBefore(le, g, hole, g[hole / 2 - 1]))
  }

  ghost function Swap<T>(s: seq<T>, i: nat, j: nat): (r: seq<T>)
    requires i < |s| && j < |s|
    ensures |r| == |s|
  {
    s[i := s[j]][j := s[i]]
  }

  lemma SwapPermutes<T>(s: seq<T>, i: nat, j: nat)
    requires i < |s| && j < |s|
    ensures multiset(Swap(s, i, j)) == multiset(s)
  {
  }

  /** `sub` is the larger child of `hole`. */
  ghost predicate LargerChild<T>(le: (T, T) -> bool, g: seq<T>, hole: nat, sub: nat) {
    && 1 <= hole && hole < sub <= |g| && (sub == 2 * hole || sub == 2 * hole + 1)
    && ChildrenBefore(le, g, hole, g[sub - 1])
  }

  /** Before anything moved, the hole is at `lo` itself; without children there is nothing to do. */
  lemma SiftStart<T>(le: (T, T) -> bool, g: seq<T>, lo: nat)
    requires 1 <= lo && Heap(le, g, lo + 1)
    ensures lo <= |g| ==> Sifting(le, g, lo, lo)
    ensures 2 * lo > |g| ==> Heap(le, g, lo)
  {
    if 2 * lo > |g| {
      forall p: nat | 1 <= p <= |g| && lo <= p ensures ParentOk(le, g, p) {
      }
    }
  }

  /** Moving the larger child into the hole moves the hole down. */
  lemma SiftDown<T(!new)>(le: (T, T) -> bool, g: seq<T>, lo: nat, hole: nat, sub: nat)
    requires TotalPreorder(le)
    requires 1 <= lo <= hole < sub <= |g| && Sifting(le, g, lo, hole)
    requires LargerChild(le, g, hole, sub) && !le(g[sub - 1], g[hole - 1])
    ensures Sifting(le, Swap(g, hole - 1, sub - 1), lo, sub)
  {
    var g' := Swap(g, hole - 1, sub - 1);
    forall p: nat | lo <= p <= |g'| && p != sub ensures ParentOk(le, g', p) {
      if p != hole {
        assert ParentOk(le, g, p);
      }
    }
    assert ParentOk(le, g, sub);
  }

  /** The child that `HeapifyDown` compares with is the larger one. */
  lemma PicksLarger<T(!new)>(le: (T, T) -> bool, g: seq<T>, hole: nat, sub: nat)
    requires TotalPreorder(le) && 1 <= hole && 2 * hole <= |g|
    requires sub == if 2 * hole + 1 <= |g| && !le(g[2 * hole], g[2 * hole - 1]) then 2 * hole + 1 else 2 * hole
    ensures LargerChild(le, g, hole, sub)
  {
  }

  /** The hole can stop where its larger child may come before it, or where it has no child. */
  lemma SiftDone<T(!new)>(le: (T, T) -> bool, g: seq<T>, lo: nat, hole: nat, sub: nat)
    requires TotalPreorder(le)
    requires 1 <= lo <= hole <= |g| && Sifting(le, g, lo, hole)
    requires 2 * hole > |g| || (LargerChild(le, g, hole, sub) && le(g[sub - 1], g[hole - 1]))
    ensures Heap(le, g, lo)
  {
    forall p: nat | 1 <= p <= |g| && lo <= p ensures ParentOk(le, g, p) {
    }
  }

  /** The first position of a heap holds a row no other has to come after. */
  lemma {:induction false} HeapTop<T(!new)>(le: (T, T) -> bool, h: seq<T>, c: nat)
    requires TotalPreorder(le) && Heap(le, h, 1) && 1 <= c <= |h|
    ensures le(h[c - 1], h[0])
  {
    if c >= 2 {
      assert ParentOk(le, h, c / 2);
      HeapTop(le, h, c / 2);
    }
  }

  /** Positions without children are in heap order. */
  lemma LeavesHeap<T>(le: (T, T) -> bool, h: seq<T>)
    ensures Heap(le, h, |h| / 2 + 1)
  {
    forall p: nat | 1 <= p <= |h| && |h| / 2 + 1 <= p ensures ParentOk(le, h, p) {
    }
  }

  /** Writing the first position disturbs heap order only there. */
  lemma HeapBelowTop<T>(le: (T, T) -> bool, h: seq<T>, h': seq<T>)
    requires Heap(le, h, 1) && |h'| <= |h|
    requires forall i | 1 <= i < |h'| :: h'[i] == h[i]
    ensures Heap(le, h', 2)
  {
    forall p: nat | 1 <= p <= |h'| && 2 <= p ensures ParentOk(le, h', p) {
      assert ParentOk(le, h, p);
    }
  }

  // ----- candidates and dropped rows -----

  lemma BelowPermuted<T(!new)>(le: (T, T) -> bool, a: seq<T>, b: seq<T>, rest: seq<T>)
    requires multiset(a) == multiset(b) && Below(le, a, rest)
    ensures Below(le, b, rest)
  {
    forall i, j | 0 <= i < |b| && 0 <= j < |rest| ensures le(b[i], rest[j]) {
      assert b[i] in multiset(a);
      var k :| 0 <= k < |a| && a[k] == b[i];
    }
  }

  /** A full heap may drop its top for a row that has to come before it. */
  lemma ReplaceTop<T(!new)>(le: (T, T) -> bool, h: seq<T>, dropped: seq<T>, add: T)
    requires TotalPreorder(le) && Heap(le, h, 1) && |h| >= 1 && Below(le, h, dropped)
    requires !le(h[0], add)
    ensures Below(le, h[0 := add], dropped + [h[0]])
  {
    var h', d' := h[0 := add], dropped + [h[0]];
    forall i, j | 0 <= i < |h'| && 0 <= j < |d'| ensures le(h'[i], d'[j]) {
      HeapTop(le, h, i + 1);
      assert le(add, h[0]);
      assert j < |dropped| ==> le(h[0], dropped[j]) && le(h[i], dropped[j]);
    }
  }

  /** A full heap may drop a row that need not come before its top. */
  lemma DropNew<T(!new)>(le: (T, T) -> bool, h: seq<T>, dropped: seq<T>, add: T)
    requires TotalPreorder(le) && Heap(le, h, 1) && |h| >= 1 && Below(le, h, dropped)
    requires le(h[0], add)
    ensures Below(le, h, dropped + [add])
  {
    forall i | 0 <= i < |h| ensures le(h[i], add) {
      HeapTop(le, h, i + 1);
    }
  }

  /** One more row in front of a sorted tail that it may come before. */
  lemma SortedCons<T(!new)>(le: (T, T) -> bool, x: T, s: seq<T>)
    requires Sorted(le, s) && Below(le, [x], s)
    ensures Sorted(le, [x] + s)
  {
    var r := [x] + s;
    forall i, j | 0 <= i < j < |r| ensures le(r[i], r[j]) {
      if i == 0 {
        assert le([x][0], s[j - 1]);
      } else {
        assert r[i] == s[i - 1] && r[j] == s[j - 1];
      }
    }
  }

  /** The first `m` rows of `s` form a heap, the others are sorted and come after them. */
  ghost predicate HalfSorted<T>(le: (T, T) -> bool, s: seq<T>, m: nat) {
    m <= |s| && Heap(le, s[..m], 1) && Sorted(le, s[m..]) && Below(le, s[..m], s[m..])
  }

  /** The top of a heap joins the sorted tail: the other rows may come before it and before the tail. */
  lemma ExtractOrder<T(!new)>(le: (T, T) -> bool, h: seq<T>, left: seq<T>, tail: seq<T>)
    requires TotalPreorder(le) && Heap(le, h, 1) && |h| >= 1
    requires multiset(left) + multiset{h[0]} == multiset(h)
    requires Below(le, h, tail) && Sorted(le, tail)
    ensures Sorted(le, [h[0]] + tail) && Below(le, left, [h[0]] + tail)
  {
    SortedCons(le, h[0], tail);
    forall i, j | 0 <= i < |left| && 0 <= j < 1 + |tail| ensures le(left[i], ([h[0]] + tail)[j]) {
      assert left[i] in multiset(left);
      assert left[i] in multiset(h);
      var k :| 0 <= k < |h| && h[k] == left[i];
      HeapTop(le, h, k + 1);
      assert j > 0 ==> le(h[k], tail[j - 1]);
    }
  }

  /** One round of the final sort on the whole sequence. */
  lemma ExtractStep<T(!new)>(le: (T, T) -> bool, s: seq<T>, m: nat, s': seq<T>)
    requires TotalPreorder(le) && HalfSorted(le, s, m) && 2 <= m && |s'| == |s|
    requires Heap(le, s'[..m - 1], 1)
    requires multiset(s'[..m - 1]) + multiset{s[0]} == multiset(s[..m])
    requires s'[m - 1] == s[0] && s'[m..] == s[m..]
    ensures HalfSorted(le, s', m - 1) && multiset(s') == multiset(s)
  {
    var tail := s[m..];
    assert s'[m - 1..] == [s[0]] + tail;
    ExtractOrder(le, s[..m], s'[..m - 1], tail);
    assert s == s[..m] + tail;
    assert s' == s'[..m - 1] + ([s[0]] + tail);
  }

  lemma SortFinished<T(!new)>(le: (T, T) -> bool, s: seq<T>, m: nat)
    requires HalfSorted(le, s, m) && m <= 1
    ensures Sorted(le, s)
  {
    if m == 1 {
      assert s == [s[0]] + s[1..];
      assert s[..1] == [s[0]];
      SortedCons(le, s[0], s[1..]);
    } else {
      assert s[0..] == s;
    }
  }

  /** Swapping the top with the last row and cutting it off. */
  lemma RotateTop<T>(h: seq<T>, n: nat)
    requires |h| == n + 1 && n >= 1
    ensures multiset(h[..n][0 := h[n]]) + multiset{h[0]} == multiset(h)
  {
    assert h == [h[0]] + h[1..n] + [h[n]];
    assert h[..n][0 := h[n]] == [h[n]] + h[1..n];
  }

  /** The last candidate in the place of the top. */
  ghost function Rotated<T>(h: seq<T>): seq<T>
    requires |h| >= 2
  {
    h[..|h| - 1][0 := h[|h| - 1]]
  }

  lemma RotatedHeap<T>(le: (T, T) -> bool, h: seq<T>)
    requires |h| >= 2 && Heap(le, h, 1)
    ensures Heap(le, Rotated(h), 2) && multiset(Rotated(h)) + multiset{h[0]} == multiset(h)
  {
    RotateTop(h, |h| - 1);
    HeapBelowTop(le, h, Rotated(h));
  }

  class TopSolver<T(0, !new)> {
    const limit: nat
    const le: (T, T) -> bool
    const ids: array<T>
    var size: nat
    /** Every row added so far, and the rows that are no longer candidates. */
    ghost var added: seq<T>
    ghost var dropped: seq<T>

    ghost predicate Valid()
      reads this, ids
    {
      && 1 <= limit == ids.Length && size <= limit
      && TotalPreorder(le)
      && multiset(ids[..size]) + multiset(dropped) == multiset(added)
      && Below(le, ids[..size], dropped)
      && (size < limit ==> dropped == [])
    }

    /** Ready for the next row: a full set of candidates is in heap order. */
    ghost predicate Ready()
      reads this, ids
    {
      Valid() && (size == limit ==> Heap(le, ids[..size], 1))
    }

    constructor (limit: nat, preferLeft: (T, T) -> bool)
      requires 1 <= limit && TotalPreorder(preferLeft)
      ensures Valid() && size == 0 && added == [] && dropped == []
      ensures this.limit == limit && this.le == preferLeft && fresh(ids)
    {
      this.limit := limit;
      le := preferLeft;
      ids := new T[limit];
      size := 0;
      added := [];
      dropped := [];
    }

    /**
     Position `hole` is free for `tmp`; with `tmp` in it the candidates are `g`, in heap order except below
     the hole.
     */
    ghost predicate SiftState(lo: nat, hole: nat, tmp: T, g: seq<T>)
      reads this, ids
    {
      && 1 <= lo <= hole <= size == |g| && size <= ids.Length
      && g[hole - 1] == tmp
      && (forall i | 0 <= i < size && i != hole - 1 :: ids[i] == g[i])
      && Sifting(le, g, lo, hole)
    }

    /** One round of `HeapifyDown`: the larger child moves up into the hole, unless `tmp` may stay there. */
    method SiftStep(ghost lo: nat, hole: nat, tmp: T, ghost g: seq<T>) returns (next: nat, ghost g': seq<T>)
      requires TotalPreorder(le) && SiftState(lo, hole, tmp, g) && 2 * hole <= size
      modifies ids
      ensures SiftState(lo, next, tmp, g') && multiset(g') == multiset(g)
      ensures if next == hole then Heap(le, g', lo) else next >= 2 * hole
      ensures forall i | size <= i < ids.Length :: ids[i] == old(ids[i])
    {
      var sub := PickChild(lo, hole, tmp, g);
      if le(ids[sub - 1], tmp) {
        SiftDone(le, g, lo, hole, sub);
        next, g' := hole, g;
      } else {
        SiftDown(le, g, lo, hole, sub);
        SwapPermutes(g, hole - 1, sub - 1);
        MoveUp(lo, hole, sub, tmp, g);
        next, g' := sub, Swap(g, hole - 1, sub - 1);
      }
    }

    /** The larger child of the hole. */
    method PickChild(ghost lo: nat, hole: nat, ghost tmp: T, ghost g: seq<T>) returns (sub: nat)
      requires TotalPreorder(le) && SiftState(lo, hole, tmp, g) && 2 * hole <= size
      ensures LargerChild(le, g, hole, sub) && ids[sub - 1] == g[sub - 1]
    {
      sub := 2 * hole;
      if sub + 1 <= size && !le(ids[sub], ids[sub - 1]) {
        sub := sub + 1;
      }
      PicksLarger(le, g, hole, sub);
    }

    /** The row at `sub` moves up into the hole. */
    method MoveUp(ghost lo: nat, hole: nat, sub: nat, tmp: T, ghost g: seq<T>)
      requires SiftState(lo, hole, tmp, g) && hole < sub <= size
      requires Sifting(le, Swap(g, hole - 1, sub - 1), lo, sub)
      modifies ids
      ensures SiftState(lo, sub, tmp, Swap(g, hole - 1, sub - 1))
      ensures forall i | size <= i < ids.Length :: ids[i] == old(ids[i])
    {
      ids[hole - 1] := ids[sub - 1];
    }

    /** Restores heap order below position `index`, permuting the candidates. */
    method HeapifyDown(index: nat)
      requires size <= ids.Length && TotalPreorder(le) && 1 <= index
      requires Heap(le, ids[..size], index + 1)
      modifies ids
      ensures Heap(le, ids[..size], index)
      ensures multiset(ids[..size]) == old(multiset(ids[..size]))
      ensures forall i | size <= i < ids.Length :: ids[i] == old(ids[i])
    {
      SiftStart(le, ids[..size], index);
      if 2 * index > size {
        return;
      }
      var tmp := ids[index - 1];
      var hole, g := SiftLoop(index, tmp);
      ids[hole - 1] := tmp;
      assert ids[..size] == g;
    }

    /** The loop of `HeapifyDown`: moves the hole down to where `tmp` may stay. */
    method SiftLoop(index: nat, tmp: T) returns (hole: nat, ghost g: seq<T>)
      requires TotalPreorder(le) && size <= ids.Length && SiftState(index, index, tmp, ids[..size])
      modifies ids
      ensures SiftState(index, hole, tmp, g) && Heap(le, g, index) && multiset(g) == old(multiset(ids[..size]))
      ensures forall i | size <= i < ids.Length :: ids[i] == old(ids[i])
    {
      hole := index;
      g := ids[..size];
      while 2 * hole <= size
        invariant SiftState(index, hole, tmp, g)
        invariant multiset(g) == old(multiset(ids[..size]))
        invariant forall i | size <= i < ids.Length :: ids[i] == old(ids[i])
        decreases size - hole
      {
        var next;
        next, g := SiftStep(index, hole, tmp, g);
        if next == hole {
          return;
        }
        hole := next;
      }
      SiftDone(le, g, index, hole, 0);
    }

    /** Puts all candidates into heap order. */
    method BuildHeap()
      requires size <= ids.Length && TotalPreorder(le)
      modifies ids
      ensures Heap(le, ids[..size], 1)
      ensures multiset(ids[..size]) == old(multiset(ids[..size]))
      ensures forall i | size <= i < ids.Length :: ids[i] == old(ids[i])
    {
      LeavesHeap(le, ids[..size]);
      var index: nat := size / 2;
      while index > 0
        invariant Heap(le, ids[..size], index + 1)
        invariant multiset(ids[..size]) == old(multiset(ids[..size]))
        invariant forall i | size <= i < ids.Length :: ids[i] == old(ids[i])
      {
        HeapifyDown(index);
        index := index - 1;
      }
    }

    /** A row is kept while there is room; a full heap keeps it only in place of a top it has to come before. */
    method AddCandidate(add: T)
      requires Ready()
      modifies this, ids
      ensures Ready()
      ensures added == old(added) + [add]
    {
      if size == limit {
        AddToFull(add);
      } else {
        ids[size] := add;
        size := size + 1;
        added := added + [add];
        assert ids[..size] == old(ids[..size]) + [add];
        if size == limit {
          BuildHeap();
        }
      }
    }

    method AddToFull(add: T)
      requires Valid() && size == limit && Heap(le, ids[..size], 1)
      modifies this, ids
      ensures Valid() && size == limit && Heap(le, ids[..size], 1)
      ensures added == old(added) + [add]
    {
      ghost var h := ids[..size];
      if !le(ids[0], add) {
        ReplaceTop(le, h, dropped, add);
        dropped := dropped + [ids[0]];
        ids[0] := add;
        assert ids[..size] == h[0 := add];
        HeapBelowTop(le, h, ids[..size]);
        HeapifyDown(1);
        BelowPermuted(le, h[0 := add], ids[..size], dropped);
      } else {
        DropNew(le, h, dropped, add);
        dropped := dropped + [add];
      }
      added := added + [add];
    }

    /** One round of the final sort: the top moves behind the heap. */
    method ExtractTop()
      requires 2 <= size <= ids.Length && TotalPreorder(le) && Heap(le, ids[..size], 1)
      modifies this`size, ids
      ensures size == old(size) - 1 && Heap(le, ids[..size], 1)
      ensures ids[size] == old(ids[0])
      ensures multiset(ids[..size]) + multiset{old(ids[0])} == old(multiset(ids[..size]))
      ensures forall i | old(size) <= i < ids.Length :: ids[i] == old(ids[i])
    {
      RotatedHeap(le, ids[..size]);
      SwapTop();
      HeapifyDown(1);
    }

    /** The top and the last candidate change places, and the heap ends before the top. */
    method SwapTop()
      requires 2 <= size <= ids.Length
      modifies this`size, ids
      ensures size == old(size) - 1 && ids[..size] == Rotated(old(ids[..size]))
      ensures ids[size] == old(ids[0])
      ensures forall i | old(size) <= i < ids.Length :: ids[i] == old(ids[i])
    {
      ids[size - 1], ids[0] := ids[0], ids[size - 1];
      size := size - 1;
    }

    method SortStep(backup: nat, ghost s: seq<T>) returns (ghost s': seq<T>)
      requires 2 <= size <= backup == |s| <= ids.Length && s == ids[..backup]
      requires TotalPreorder(le) && HalfSorted(le, s, size)
      modifies this`size, ids
      ensures size == old(size) - 1 && s' == ids[..backup] && |s'| == backup
      ensures HalfSorted(le, s', size) && multiset(s') == multiset(s)
    {
      ghost var before := size;
      assert s[..size] == ids[..size] && s[size..] == ids[size..backup];
      ExtractTop();
      s' := ids[..backup];
      assert s'[..size] == ids[..size] && s'[before..] == ids[before..backup];
      ExtractStep(le, s, before, s');
    }

    /** Sorts the first `size` rows, which are in heap order, in place. */
    method HeapSort()
      requires size <= ids.Length && TotalPreorder(le) && Heap(le, ids[..size], 1)
      modifies this`size, ids
      ensures size == old(size) && Sorted(le, ids[..size])
      ensures multiset(ids[..size]) == old(multiset(ids[..size]))
    {
      var backup := size;
      ghost var s := ids[..backup];
      ghost var m := multiset(s);
      assert s[..backup] == s;
      while size > 1
        invariant size <= backup == |s| <= ids.Length && s == ids[..backup]
        invariant HalfSorted(le, s, size) && multiset(s) == m
      {
        s := SortStep(backup, s);
      }
      SortFinished(le, s, size);
      size := backup;
    }

    /** Sorts the candidates. */
    method SortResult()
      requires Ready()
      modifies this`size, ids
      ensures Valid() && size == old(size)
      ensures Sorted(le, ids[..size])
    {
      ghost var kept := ids[..size];
      if size < limit {
        BuildHeap();
      }
      HeapSort();
      BelowPermuted(le, kept, ids[..size], dropped);
    }

    method AddBlock(rows: seq<T>)
      requires Ready()
      modifies this, ids
      ensures Ready() && added == old(added) + rows
    {
      for r := 0 to |rows|
        invariant Ready() && added == old(added) + rows[..r]
      {
        AddCandidate(rows[r]);
        assert rows[..r + 1] == rows[..r] + [rows[r]];
      }
      assert rows[..|rows|] == rows;
    }

    /**
     Runs over all rows of all blocks. Afterwards the kept rows are sorted, together with the
     rows left behind they are exactly the input rows, and they are a first-`limit` selection.
     */
    method SolveTop(blocks: seq<seq<T>>)
      requires Valid() && size == 0 && added == []
      modifies this, ids
      ensures Valid()
      ensures multiset(ids[..size]) + multiset(dropped) == multiset(Concat(blocks))
      ensures TopOf(le, ids[..size], dropped, limit)
    {
      for b := 0 to |blocks|
        invariant Ready() && added == Concat(blocks[..b])
      {
        AddBlock(blocks[b]);
        assert blocks[..b + 1][..b] == blocks[..b];
      }
      assert blocks[..|blocks|] == blocks;
      SortResult();
    }
  }

  /** The blocks hold, packed, what is left of a first-`limit` selection of the rows after skipping `offset` of them. */
  ghost predicate TopOutput<T(!new)>(le: (T, T) -> bool, rows: seq<T>, limit: nat, offset: nat, output: seq<seq<T>>) {
    exists top, rest ::
      && TopOf(le, top, rest, limit)
      && multiset(top) + multiset(rest) == multiset(rows)
      && Packed(output, Skip(top, offset))
  }

  /** `PhysicalTop::Execute`. */
  method ExecuteTop<T(0, !new)>(blocks: seq<seq<T>>, limit: nat, offset: nat, preferLeft: (T, T) -> bool)
    returns (output: seq<seq<T>>)
    requires 1 <= limit && TotalPreorder(preferLeft)
    ensures TopOutput(preferLeft, Concat(blocks), limit, offset, output)
  {
    var rows := CountRows(blocks);
    if rows == 0 {
      assert TopOf<T>(preferLeft, [], [], limit) && Packed<T>([], Skip([], offset));
      return [];
    }
    var solver := new TopSolver(limit, preferLeft);
    solver.SolveTop(blocks);
    ghost var top, rest := solver.ids[..solver.size], solver.dropped;
    assert |multiset(top) + multiset(rest)| == |top| + |rest|;
    assert |multiset(Concat(blocks))| == rows;
    output := WriteToOutput(solver.ids[..solver.size]);
    output := HandleOutputOffset(solver.size, offset, output, top);
    assert TopOf(preferLeft, top, rest, limit);
  }
}
