/** Range bookkeeping shared by the filter-header and the filter download. */
module Tracking {
  import opened Digests

  /** The three fields of a request tracker, as one value.  `active` maps the start of a range that is being
      fetched to the time it was handed out, `pending` the start of a finished range to its answer. */
  datatype Tracker<R> = Tracker(last: nat, active: map<nat, int>, pending: map<nat, R>) {

    predicate Busy(h: nat) {
      h in active || h in pending
    }

    function Add(h: nat, now: int): Tracker<R> {
      this.(active := active[h := now])
    }

    function Release(h: nat): Tracker<R> {
      this.(active := active - {h})
    }

    function Report(h: nat, r: R): Tracker<R> {
      this.(active := active - {h}, pending := pending[h := r])
    }

    function Take(h: nat): Tracker<R> {
      this.(pending := pending - {h})
    }

    function Clear(): Tracker<R> {
      this.(pending := map[])
    }

    /** Removes the assignment that has been out longest, if one was handed out before `cutoff`. */
    ghost function ReleaseStale(cutoff: int): Tracker<R> {
      if exists h :: IsOldestStale(active, cutoff, h) then
        var h :| IsOldestStale(active, cutoff, h);
        Release(h)
      else
        this
    }

    function Above(from: nat): set<nat> {
      set h | h in active.Keys + pending.Keys && h >= from
    }

    lemma FewerAbove(from: nat, size: nat)
      requires size > 0 && Busy(from)
      ensures |Above(from + size)| < |Above(from)|
    {
      assert from in Above(from) && from !in Above(from + size) && Above(from + size) <= Above(from) - {from};
      SubsetIsSmaller(Above(from + size), Above(from), from);
    }

    /** `k` ranges in steps of `size` are taken, and the next one is free. */
    ghost predicate FreeAfter(from: nat, size: nat, k: nat) {
      (forall j: nat :: j < k ==> Busy(from + j * size)) && !Busy(from + k * size)
    }

    lemma FreeAfterOneMore(from: nat, size: nat, k: nat)
      requires Busy(from) && FreeAfter(from + size, size, k)
      ensures FreeAfter(from, size, k + 1)
    {
      forall j: nat | j < k + 1
        ensures Busy(from + j * size)
      {
        if j > 0 {
          assert Busy(from + size + (j - 1) * size);
          assert from + size + (j - 1) * size == from + j * size;
        }
      }
      assert from + size + k * size == from + (k + 1) * size;
    }

    /** How many ranges, counted from `from` in steps of `size`, are taken before the first free one. */
    function Skips(from: nat, size: nat): (k: nat)
      requires size > 0
      ensures FreeAfter(from, size, k)
      decreases |Above(from)|
    {
      if !Busy(from) then 0
      else
        FewerAbove(from, size);
        var k := Skips(from + size, size);
        FreeAfterOneMore(from, size, k);
        k + 1
    }

    /** `h` is the first free start above `last` in steps of `size`, and is within the lookahead. */
    ghost predicate IsNextFree(size: nat, maxLookahead: nat, h: nat) {
      exists j: nat :: j < maxLookahead && h == last + 1 + j * size && FreeAfter(last + 1, size, j)
    }

    /** Every start within the lookahead is out or finished. */
    ghost predicate AllTaken(size: nat, maxLookahead: nat) {
      forall j: nat :: j < maxLookahead ==> Busy(last + 1 + j * size)
    }

    /** The range to hand out next, unless that would run too far ahead of `last`. */
    function NextStart(size: nat, maxLookahead: nat): (r: Option<nat>)
      requires size > 0
    {
      var k := Skips(last + 1, size);
      if k >= maxLookahead then None else Some(last + 1 + k * size)
    }

    /** What is handed out is the first free start, and nothing is only if all within the lookahead are taken. */
    lemma NextStartIsFree(size: nat, maxLookahead: nat)
      requires size > 0
      ensures var r := NextStart(size, maxLookahead);
        && (r.Some? ==> IsNextFree(size, maxLookahead, r.value))
        && (r.None? ==> AllTaken(size, maxLookahead))
    {
      var k := Skips(last + 1, size);
      assert FreeAfter(last + 1, size, k);
    }

    /** No range is both being fetched and finished, and none starts more than `maxLookahead` ranges ahead. */
    ghost predicate Bounded(size: nat, maxLookahead: nat) {
      && active.Keys !! pending.Keys
      && forall h :: Busy(h) ==> WithinLookahead(h, size, maxLookahead)
    }

    ghost predicate WithinLookahead(h: nat, size: nat, maxLookahead: nat) {
      h <= last + 1 + (maxLookahead - 1) * size
    }
  }

  /** There is only one first free start. */
  lemma OneNextFree<R>(t: Tracker<R>, from: nat, size: nat, j: nat, k: nat)
    requires t.FreeAfter(from, size, j) && t.FreeAfter(from, size, k)
    ensures j == k
  {
    assert !t.Busy(from + j * size) && !t.Busy(from + k * size);
  }

  lemma SubsetIsSmaller(a: set<nat>, b: set<nat>, x: nat)
    requires x in b && a <= b - {x}
    ensures |a| < |b|
  {
    SubsetCardinality(a, b - {x});
  }

  lemma SubsetCardinality(a: set<nat>, b: set<nat>)
    requires a <= b
    ensures |a| <= |b|
  {
    if x :| x in a {
      SubsetCardinality(a - {x}, b - {x});
    }
  }

  ghost predicate IsOldestStale(active: map<nat, int>, cutoff: int, h: nat) {
    && h in active && active[h] < cutoff
    && forall k :: k in active && active[k] < cutoff ==>
      active[h] < active[k] || (active[h] == active[k] && h <= k)
  }

  lemma AtLeastOne(d: int, size: nat)
    requires d >= 1
    ensures d * size >= size
  {
    assert d * size == (d - 1) * size + size;
  }

  lemma OneMore(i: nat, size: nat)
    ensures (i + 1) * size == i * size + size
  {
  }

  lemma DivideBack(k: nat, size: nat)
    requires size > 0
    ensures (k * size) / size == k
  {
    var x := k * size;
    var q, r := x / size, x % size;
    assert x == q * size + r;
    assert (k - q) * size == k * size - q * size && (q - k) * size == q * size - k * size;
    if q < k {
      AtLeastOne(k - q, size);
    } else if q > k {
      AtLeastOne(q - k, size);
    }
  }

  /** The search for a free range never looks past `maxLookahead` ranges, so its height cannot wrap as long as
      `last + 1 + maxLookahead * size` fits the height type. */
  lemma {:induction false} SkipsBounded<R>(t: Tracker<R>, size: nat, maxLookahead: nat)
    requires size > 0 && maxLookahead > 0
    requires t.Bounded(size, maxLookahead)
    ensures t.Skips(t.last + 1, size) <= maxLookahead
  {
    assert maxLookahead * size == (maxLookahead - 1) * size + size;
  }

  class RequestTracker<R> {
    var pendingResponses: map<nat, R>
    var activeAssignments: map<nat, int>
    var lastHeight: nat

    ghost function Model(): Tracker<R>
      reads this
    {
      Tracker(lastHeight, activeAssignments, pendingResponses)
    }

    constructor (initialHeight: nat)
      ensures Model() == Tracker(initialHeight, map[], map[])
    {
      lastHeight, activeAssignments, pendingResponses := initialHeight, map[], map[];
    }

    /** The underlying dictionary throws on a key it already holds. */
    method AddActiveAssignment(startHeight: nat, now: int)
      requires startHeight !in activeAssignments
      modifies this
      ensures Model() == old(Model()).Add(startHeight, now)
    {
      activeAssignments := activeAssignments[startHeight := now];
    }

    method RemoveActiveAssignment(startHeight: nat)
      modifies this
      ensures Model() == old(Model()).Release(startHeight)
    {
      activeAssignments := activeAssignments - {startHeight};
    }

    method MoveActiveToPendingAssignment(startHeight: nat, range: R)
      modifies this
      ensures Model() == old(Model()).Report(startHeight, range)
    {
      RemoveActiveAssignment(startHeight);
      pendingResponses := pendingResponses[startHeight := range];
    }

    method TryRemovePendingRange(startHeight: nat) returns (range: Option<R>)
      modifies this
      ensures range == if startHeight in old(pendingResponses) then Some(old(pendingResponses)[startHeight]) else None
      ensures Model() == old(Model()).Take(startHeight)
    {
      if startHeight in pendingResponses {
        range := Some(pendingResponses[startHeight]);
        pendingResponses := pendingResponses - {startHeight};
      } else {
        range := None;
        assert pendingResponses - {startHeight} == pendingResponses;
      }
    }

    method SetLastHeight(height: nat)
      modifies this
      ensures Model() == old(Model()).(last := height)
    {
      lastHeight := height;
    }

    method TryGetNextRangeStartHeight(rangeSize: nat, maxLookaheadRanges: nat) returns (startHeight: Option<nat>)
      requires rangeSize > 0
      ensures startHeight == Model().NextStart(rangeSize, maxLookaheadRanges)
    {
      ghost var goal := Model().NextStart(rangeSize, maxLookaheadRanges);
      ghost var k := Model().Skips(lastHeight + 1, rangeSize);
      assert goal == if k >= maxLookaheadRanges then None else Some(lastHeight + 1 + k * rangeSize);
      ghost var i: nat := 0;
      var nextStart := lastHeight + 1;
      while nextStart in activeAssignments || nextStart in pendingResponses
        invariant i <= k && nextStart == lastHeight + 1 + i * rangeSize
        decreases k - i
      {
        assert Model().Busy(nextStart);
        OneMore(i, rangeSize);
        nextStart := nextStart + rangeSize;
        i := i + 1;
      }
      assert i == k by {
        assert !Model().Busy(lastHeight + 1 + i * rangeSize);
      }
      var lookaheadRanges := (nextStart - lastHeight - 1) / rangeSize;
      DivideBack(k, rangeSize);
      if lookaheadRanges >= maxLookaheadRanges {
        return None;
      }
      return Some(nextStart);
    }

    /** The assignment handed out first among those older than the cutoff; the lower height wins a tie. */
    method GetOldestStaleAssignment(now: int, timeout: nat) returns (r: Option<nat>)
      ensures r.Some? ==> IsOldestStale(activeAssignments, now - timeout, r.value)
      ensures r.None? ==> forall h :: h in activeAssignments ==> activeAssignments[h] >= now - timeout
    {
      var cutoff := now - timeout;
      var keys := activeAssignments.Keys;
      r := None;
      while keys != {}
        invariant keys <= activeAssignments.Keys
        invariant r.Some? ==> r.value in activeAssignments && activeAssignments[r.value] < cutoff
        invariant forall h :: h in activeAssignments && h !in keys && activeAssignments[h] < cutoff ==>
          && r.Some?
          && (activeAssignments[r.value] < activeAssignments[h]
              || (activeAssignments[r.value] == activeAssignments[h] && r.value <= h))
        decreases |keys|
      {
        var k :| k in keys;
        keys := keys - {k};
        if activeAssignments[k] < cutoff {
          if r.None? || activeAssignments[k] < activeAssignments[r.value]
             || (activeAssignments[k] == activeAssignments[r.value] && k < r.value) {
            r := Some(k);
          }
        }
      }
    }

    method ClearAllPending()
      modifies this
      ensures Model() == old(Model()).Clear()
    {
      pendingResponses := map[];
    }
  }
}
