/** While the filter-header tip stands still and answers are complete, the filter ranges handed out tile the
    heights up to the tip. */
module Tiling {
  import opened Digests
  import opened Tracking
  import opened SyncState
  import opened Peers
  import opened Protocol

  /** Heights are counted from `base`, the last height already known; `tip` is the header tip. */
  function TileStart(base: nat, k: nat): nat {
    base + 1 + k * 400
  }

  lemma RequestSize(k: int)
    ensures k * FILTERS_PER_REQUEST == k * 400
  {
  }

  function TileStop(tip: nat, start: nat): nat {
    Min(start + FILTERS_PER_REQUEST - 1, tip)
  }

  ghost predicate IsTile(base: nat, tip: nat, count: nat, start: nat) {
    start <= tip && exists k: nat :: k < count && TileStart(base, k) == start
  }

  /** The end of the first `k` tiles. */
  ghost predicate IsMark(base: nat, tip: nat, count: nat, h: nat) {
    exists k: nat :: k <= count && Min(TileStart(base, k) - 1, tip) == h
  }

  ghost predicate FullBatch(tip: nat, r: FilterResponse) {
    r.start <= tip && r.start + |r.filters| == TileStop(tip, r.start) + 1
  }

  ghost predicate TrackerTiled(base: nat, tip: nat, count: nat, s: Shared) {
    && IsMark(base, tip, count, s.filters.last)
    && (forall h :: h in s.filters.active ==> IsTile(base, tip, count, h))
    && (forall h :: h in s.filters.pending ==>
          IsTile(base, tip, count, h) && FullBatch(tip, s.filters.pending[h]))
  }

  ghost predicate PeerTiled(base: nat, tip: nat, count: nat, p: Peer) {
    && (p.filterRange.Some? ==> IsTile(base, tip, count, p.filterRange.value.start))
    && (p.checkedFilters.Some? ==> IsTile(base, tip, count, p.checkedFilters.value.start))
  }

  ghost predicate Tiled(base: nat, tip: nat, count: nat, sys: System) {
    && TipHeight(sys.shared.chain) == tip
    && TrackerTiled(base, tip, count, sys.shared)
    && forall id :: id in sys.peers ==> PeerTiled(base, tip, count, sys.peers[id])
  }

  // ---------- tiles ----------

  lemma TileMonotone(base: nat, tip: nat, count: nat, more: nat, start: nat)
    requires IsTile(base, tip, count, start) && count <= more
    ensures IsTile(base, tip, more, start)
  {
  }

  lemma MarkMonotone(base: nat, tip: nat, count: nat, more: nat, h: nat)
    requires IsMark(base, tip, count, h) && count <= more
    ensures IsMark(base, tip, more, h)
  {
  }

  lemma TrackerMonotone(base: nat, tip: nat, count: nat, more: nat, s: Shared)
    requires TrackerTiled(base, tip, count, s) && count <= more
    ensures TrackerTiled(base, tip, more, s)
  {
    MarkMonotone(base, tip, count, more, s.filters.last);
    forall h | IsTile(base, tip, count, h)
      ensures IsTile(base, tip, more, h)
    {
      TileMonotone(base, tip, count, more, h);
    }
  }

  lemma PeerMonotone(base: nat, tip: nat, count: nat, more: nat, p: Peer)
    requires PeerTiled(base, tip, count, p) && count <= more
    ensures PeerTiled(base, tip, more, p)
  {
    forall h | IsTile(base, tip, count, h)
      ensures IsTile(base, tip, more, h)
    {
      TileMonotone(base, tip, count, more, h);
    }
  }

  /** Distinct tiles do not overlap, and the first `count` of them cover every height up to the next mark. */
  lemma TilesPartition(base: nat, tip: nat, count: nat, a: nat, b: nat, h: nat)
    requires IsTile(base, tip, count, a) && IsTile(base, tip, count, b)
    ensures a != b ==> TileStop(tip, a) < b || TileStop(tip, b) < a
    ensures base < h < TileStart(base, count) && h <= tip ==>
      exists k: nat :: k < count && IsTile(base, tip, count, TileStart(base, k)) &&
                       TileStart(base, k) <= h <= TileStop(tip, TileStart(base, k))
    ensures a <= h <= TileStop(tip, a) ==> base < h < TileStart(base, count) && h <= tip
  {
    if base < h < TileStart(base, count) && h <= tip {
      var k := (h - base - 1) / FILTERS_PER_REQUEST;
      assert k < count && TileStart(base, k) <= h <= TileStop(tip, TileStart(base, k));
      assert IsTile(base, tip, count, TileStart(base, k));
    }
  }

  lemma TileIndex(base: nat, tip: nat, count: nat, start: nat)
    returns (i: nat)
    requires IsTile(base, tip, count, start)
    ensures i < count && TileStart(base, i) == start
  {
    i :| i < count && TileStart(base, i) == start;
  }

  /** The search for a free range, with the range size spelled out. */
  lemma FirstFree<R>(u: Tracker<R>)
    returns (k: nat)
    ensures forall start :: u.NextStart(FILTERS_PER_REQUEST, MAX_LOOKAHEAD_RANGES) == Some(start) ==>
      start == u.last + 1 + k * 400
    ensures k > 0 ==> u.Busy(u.last + 1 + (k - 1) * 400)
  {
    k := u.Skips(u.last + 1, FILTERS_PER_REQUEST);
    RequestSize(k);
    if k > 0 {
      RequestSize(k - 1);
      assert u.Busy(u.last + 1 + (k - 1) * FILTERS_PER_REQUEST);
    }
  }

  lemma MarkPlus(base: nat, tip: nat, j: nat, k: nat, last: nat)
    requires Min(TileStart(base, j) - 1, tip) == last
    requires last + 1 + k * 400 <= tip
    ensures last + 1 + k * 400 == TileStart(base, j + k)
    ensures k > 0 ==> last + 1 + (k - 1) * 400 == TileStart(base, j + k - 1)
  {
  }

  /** The first free range is a tile that was handed out before, or the first one that never was. */
  lemma FirstFreeIsTile<R>(base: nat, tip: nat, count: nat, u: Tracker<R>, k: nat)
    requires IsMark(base, tip, count, u.last)
    requires forall h :: u.Busy(h) ==> IsTile(base, tip, count, h)
    requires k > 0 ==> u.Busy(u.last + 1 + (k - 1) * 400)
    requires u.last + 1 + k * 400 <= tip
    ensures var start := u.last + 1 + k * 400;
      IsTile(base, tip, count, start) || start == TileStart(base, count)
  {
    var j: nat :| j <= count && Min(TileStart(base, j) - 1, tip) == u.last;
    MarkPlus(base, tip, j, k, u.last);
    if k > 0 {
      var i := TileIndex(base, tip, count, u.last + 1 + (k - 1) * 400);
      assert i == j + k - 1;
    }
  }

  lemma NewTile(base: nat, tip: nat, count: nat)
    requires TileStart(base, count) <= tip
    ensures IsTile(base, tip, count + 1, TileStart(base, count))
  {
  }

  lemma NextIsTile(base: nat, tip: nat, count: nat, s: Shared, now: int)
    returns (more: nat)
    requires TrackerTiled(base, tip, count, s)
    requires TipHeight(s.chain) == tip < |s.blocks|
    ensures var (t, a) := AssignFilters(s, now);
      && TrackerTiled(base, tip, more, t)
      && match a
         case None => more == count
         case Some(r) =>
           && r.stop == TileStop(tip, r.start) && IsTile(base, tip, more, r.start)
           && (if IsTile(base, tip, count, r.start) then more == count
               else more == count + 1 && r.start == TileStart(base, count) && r.start <= tip)
  {
    var cutoff := now - FILTER_ASSIGNMENT_TIMEOUT;
    var u := s.filters.ReleaseStale(cutoff);
    StaleReleaseShrinks(s.filters, cutoff);
    var a := AssignFilters(s, now).1;
    more := count;
    if a.Some? {
      var k := FirstFree(u);
      FirstFreeIsTile(base, tip, count, u, k);
      if !IsTile(base, tip, count, a.value.start) {
        more := count + 1;
        NewTile(base, tip, count);
      }
    }
    TrackerMonotone(base, tip, count, more, s);
  }

  /** Draining complete batches moves the mark from tile to tile. */
  lemma {:induction false} DrainTiled(base: nat, tip: nat, count: nat, s: Shared)
    requires TrackerTiled(base, tip, count, s) && PendingOk(s) && NoEmptyBatch(s.filters)
    ensures var (f, q) := DrainFilters(s.filters, s.ready);
      TrackerTiled(base, tip, count, s.(filters := f, ready := q))
    decreases |s.filters.pending|
  {
    var next := s.filters.last + 1;
    if next in s.filters.pending {
      var r := s.filters.pending[next];
      var last := r.filters[|r.filters| - 1].header.height;
      assert FilterOk(s, r.start + (|r.filters| - 1), r.filters[|r.filters| - 1]);
      assert last == TileStop(tip, next);
      var k: nat :| k < count && TileStart(base, k) == next;
      assert Min(TileStart(base, k + 1) - 1, tip) == last;
      var u := s.(filters := s.filters.Take(next).(last := last), ready := s.ready + [r]);
      TakeShrinks(s.filters, next);
      assert PendingOk(u) by {
        forall h | h in u.filters.pending
          ensures BatchOk(u, u.filters.pending[h])
        {
          BatchStable(s, u, s.filters.pending[h]);
        }
      }
      DrainTiled(base, tip, count, u);
    }
  }

  lemma ReportTiled(base: nat, tip: nat, count: nat, initial: nat, s: Shared, r: FilterResponse)
    requires SharedOk(initial, s) && BatchOk(s, r)
    requires TrackerTiled(base, tip, count, s) && IsTile(base, tip, count, r.start) && FullBatch(tip, r)
    ensures NoEmptyBatch(s.filters)
    ensures TrackerTiled(base, tip, count, ReportFilters(s, r))
  {
    var u := s.(filters := s.filters.Report(r.start, r));
    forall h | h in u.filters.pending
      ensures u.filters.pending[h].start == h && BatchOk(u, u.filters.pending[h])
    {
      if h == r.start {
        BatchStable(s, u, r);
      } else {
        BatchStable(s, u, s.filters.pending[h]);
      }
    }
    DrainTiled(base, tip, count, u);
  }

  // ---------- runs ----------

  /** The range handed out by a step, if any. */
  ghost function HandedOut(parses: Bytes -> bool, initial: nat, sys: System, step: Step): Option<RangeRequest>
    requires Inv(initial, sys)
  {
    if step.SyncFiltersStep? && sys.PeerAt(step.peer).filterRange.None?
    then Next(parses, initial, sys, step).PeerAt(step.peer).filterRange
    else None
  }

  /** All filter ranges handed out in a run, in order. */
  ghost function Ledger(parses: Bytes -> bool, initial: nat, sys: System, steps: seq<Step>): seq<RangeRequest>
    requires Inv(initial, sys)
    decreases steps
  {
    if steps == [] then []
    else
      StepKeeps(parses, initial, sys, steps[0]);
      var rest := Ledger(parses, initial, Next(parses, initial, sys, steps[0]), steps[1..]);
      match HandedOut(parses, initial, sys, steps[0])
      case None => rest
      case Some(r) => [r] + rest
  }

  /** No step of the run moves the header tip, and every batch of filters that is reported is complete. */
  ghost predicate SteadyRun(parses: Bytes -> bool, initial: nat, sys: System, steps: seq<Step>)
    requires Inv(initial, sys)
    decreases steps
  {
    steps == [] ||
    (StepKeeps(parses, initial, sys, steps[0]);
     && SteadyStep(parses, initial, sys, steps[0])
     && SteadyRun(parses, initial, Next(parses, initial, sys, steps[0]), steps[1..]))
  }

  ghost predicate SteadyStep(parses: Bytes -> bool, initial: nat, sys: System, step: Step)
    requires Inv(initial, sys)
  {
    && TipHeight(Next(parses, initial, sys, step).shared.chain) == TipHeight(sys.shared.chain)
    && (step.FiltersReportedStep? && sys.PeerAt(step.peer).checkedFilters.Some? ==>
          var r := sys.PeerAt(step.peer).checkedFilters.value;
          FullBatch(TipHeight(sys.shared.chain), r))
  }

  /** No filter range is new. */
  ghost predicate Drops(s: Shared, p: Peer, r: (Shared, Peer)) {
    && r.0.filters.last == s.filters.last && r.0.filters.active.Keys <= s.filters.active.Keys
    && (forall h :: h in r.0.filters.pending ==>
          h in s.filters.pending && r.0.filters.pending[h] == s.filters.pending[h])
    && (r.1.filterRange.Some? ==> r.1.filterRange == p.filterRange)
    && (r.1.checkedFilters.Some? ==>
          r.1.checkedFilters == p.checkedFilters ||
          (p.filterRange.Some? && r.1.checkedFilters.value.start == p.filterRange.value.start))
  }

  lemma PeerNextDrops(parses: Bytes -> bool, initial: nat, s: Shared, p: Peer, step: Step)
    requires SharedOk(initial, s) && PeerOk(s, p)
    requires !step.SyncFiltersStep? && !(step.FiltersReportedStep? && p.checkedFilters.Some?)
    ensures TipHeight(s.chain) < |s.blocks| && NoEmptyBatch(s.filters)
    ensures Drops(s, p, PeerNext(parses, s, p, step))
  {
    InvAllows(initial, s);
    if step.HeadersReportedStep? && p.checkedHeaders.Some? {
      ReportHeadersExact(initial, s, p.checkedHeaders.value);
    }
  }

  lemma PeerNextTiled(parses: Bytes -> bool, base: nat, tip: nat, count: nat, initial: nat, s: Shared, p: Peer,
                      step: Step)
    requires SharedOk(initial, s) && PeerOk(s, p)
    requires TipHeight(s.chain) == tip && TrackerTiled(base, tip, count, s) && PeerTiled(base, tip, count, p)
    requires !step.SyncFiltersStep?
    requires step.FiltersReportedStep? && p.checkedFilters.Some? ==> FullBatch(tip, p.checkedFilters.value)
    ensures TipHeight(s.chain) < |s.blocks| && NoEmptyBatch(s.filters)
    ensures var (t, q) := PeerNext(parses, s, p, step);
      TrackerTiled(base, tip, count, t) && PeerTiled(base, tip, count, q)
  {
    InvAllows(initial, s);
    if step.FiltersReportedStep? && p.checkedFilters.Some? {
      ReportTiled(base, tip, count, initial, s, p.checkedFilters.value);
    } else {
      PeerNextDrops(parses, initial, s, p, step);
    }
  }

  lemma AssignTiled(base: nat, tip: nat, count: nat, s: Shared, p: Peer, now: int)
    returns (more: nat)
    requires TrackerTiled(base, tip, count, s) && PeerTiled(base, tip, count, p)
    requires TipHeight(s.chain) == tip < |s.blocks|
    ensures var (t, q) := SyncFilters(s, p, now);
      && count <= more && t.chain == s.chain
      && TrackerTiled(base, tip, more, t) && PeerTiled(base, tip, more, q)
      && (p.filterRange.Some? || q.filterRange.None? ==> more == count)
      && (p.filterRange.None? && q.filterRange.Some? ==>
            var r := q.filterRange.value;
            && r.stop == TileStop(tip, r.start)
            && (if IsTile(base, tip, count, r.start) then more == count
                else more == count + 1 && r.start == TileStart(base, count) && r.start <= tip))
  {
    more := count;
    if p.CanSync() && p.filterRange.None? {
      more := NextIsTile(base, tip, count, s, now);
      PeerMonotone(base, tip, count, more, p);
    }
  }

  lemma StepTiled(parses: Bytes -> bool, base: nat, tip: nat, count: nat, initial: nat, sys: System, step: Step)
    returns (more: nat)
    requires Inv(initial, sys) && Tiled(base, tip, count, sys) && SteadyStep(parses, initial, sys, step)
    ensures count <= more && Tiled(base, tip, more, Next(parses, initial, sys, step))
    ensures match HandedOut(parses, initial, sys, step)
      case None => more == count
      case Some(r) =>
        && r.stop == TileStop(tip, r.start)
        && (if IsTile(base, tip, count, r.start) then more == count
            else more == count + 1 && r.start == TileStart(base, count) && r.start <= tip)
  {
    InvAllows(initial, sys.shared);
    more := count;
    if step.SyncFiltersStep? {
      more := AssignTiled(base, tip, count, sys.shared, sys.PeerAt(step.peer), step.now);
      forall id | id in sys.peers
        ensures PeerTiled(base, tip, more, sys.peers[id])
      {
        PeerMonotone(base, tip, count, more, sys.peers[id]);
      }
    } else {
      var p := if step.ReorgStep? || step.BlockStep? || step.ConsumeStep? then FRESH_PEER else sys.PeerAt(step.peer);
      PeerNextTiled(parses, base, tip, count, initial, sys.shared, p, step);
    }
  }

  /** Tiling: in a steady run the ranges handed out are exactly the first tiles above `base`, each possibly
      more than once, and no range straddles two of them. */
  lemma {:induction false} RangesTile(parses: Bytes -> bool, base: nat, tip: nat, count: nat, initial: nat,
                                      sys: System, steps: seq<Step>)
    returns (total: nat)
    requires Inv(initial, sys) && Tiled(base, tip, count, sys) && SteadyRun(parses, initial, sys, steps)
    ensures count <= total && Tiled(base, tip, total, Run(parses, initial, sys, steps))
    ensures forall r :: r in Ledger(parses, initial, sys, steps) ==>
      IsTile(base, tip, total, r.start) && r.stop == TileStop(tip, r.start)
    ensures forall k: nat :: count <= k < total ==>
      exists r :: r in Ledger(parses, initial, sys, steps) && r.start == TileStart(base, k)
    decreases steps
  {
    if steps == [] {
      total := count;
    } else {
      StepKeeps(parses, initial, sys, steps[0]);
      var more := StepTiled(parses, base, tip, count, initial, sys, steps[0]);
      var next := Next(parses, initial, sys, steps[0]);
      total := RangesTile(parses, base, tip, more, initial, next, steps[1..]);
      var rest := Ledger(parses, initial, next, steps[1..]);
      var ledger := Ledger(parses, initial, sys, steps);
      var out := HandedOut(parses, initial, sys, steps[0]);
      assert ledger == (if out.None? then rest else [out.value] + rest);
      forall r | r in ledger
        ensures IsTile(base, tip, total, r.start) && r.stop == TileStop(tip, r.start)
      {
        if r !in rest {
          assert r == out.value;
          if !IsTile(base, tip, count, r.start) {
            assert IsTile(base, tip, more, r.start);
          }
          TileMonotone(base, tip, more, total, r.start);
        }
      }
      forall k: nat | count <= k < total
        ensures exists r :: r in ledger && r.start == TileStart(base, k)
      {
        if k < more {
          assert out.value in ledger;
        } else {
          var r :| r in rest && r.start == TileStart(base, k);
          assert r in ledger;
        }
      }
    }
  }

  /** A client that starts with nothing in flight is tiled from the filters it already has. */
  lemma StartTiled(blocks: seq<ChainedBlock>, chain: seq<SmartHeader>, tipHeight: nat)
    requires ChainOk(blocks, chain) && tipHeight <= TipHeight(chain)
    ensures Tiled(tipHeight, TipHeight(chain), 0, InitialSystem(blocks, chain, tipHeight))
  {
    assert Min(TileStart(tipHeight, 0) - 1, TipHeight(chain)) == tipHeight;
  }
}
