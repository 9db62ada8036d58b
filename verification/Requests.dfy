/** What a peer that asks is given to do, exactly, in every reachable state. */
module Requests {
  import opened Digests
  import opened Tracking
  import opened SyncState
  import opened Peers
  import opened Protocol
  import opened SyncTheorems

  /** A finished answer is waiting there, or somebody is fetching it and is not the one to be given up now. */
  ghost predicate Taken<R>(t: Tracker<R>, cutoff: int, h: nat) {
    h in t.pending || (h in t.active && !IsOldestStale(t.active, cutoff, h))
  }

  /** The first `j` starts above `last` are taken, and the next one is not. */
  ghost predicate FirstUntaken<R>(t: Tracker<R>, cutoff: int, size: nat, j: nat) {
    (forall i: nat :: i < j ==> Taken(t, cutoff, t.last + 1 + i * size)) && !Taken(t, cutoff, t.last + 1 + j * size)
  }

  /** Only the assignment that has been out longest is given up, and only when it is stale. */
  lemma ReleasedExactly<R>(t: Tracker<R>, cutoff: int, h: nat)
    ensures t.ReleaseStale(cutoff).Busy(h) <==> Taken(t, cutoff, h)
    ensures h in t.ReleaseStale(cutoff).active <==> h in t.active && !IsOldestStale(t.active, cutoff, h)
    ensures h in t.ReleaseStale(cutoff).active ==> t.ReleaseStale(cutoff).active[h] == t.active[h]
    ensures t.ReleaseStale(cutoff).last == t.last
  {
  }

  lemma FreeIsNext<R>(u: Tracker<R>, size: nat, max: nat, j: nat)
    requires size > 0 && j < max && u.FreeAfter(u.last + 1, size, j)
    ensures u.NextStart(size, max) == Some(u.last + 1 + j * size)
  {
    OneNextFree(u, u.last + 1, size, j, u.Skips(u.last + 1, size));
  }

  lemma TakenIsNone<R>(u: Tracker<R>, size: nat, max: nat)
    requires size > 0 && u.AllTaken(size, max)
    ensures u.NextStart(size, max) == None
  {
    assert !u.Busy(u.last + 1 + u.Skips(u.last + 1, size) * size);
  }

  lemma NextIsUntaken<R>(t: Tracker<R>, cutoff: int, size: nat, max: nat, j: nat)
    requires size > 0 && j < max && FirstUntaken(t, cutoff, size, j)
    ensures t.ReleaseStale(cutoff).NextStart(size, max) == Some(t.last + 1 + j * size)
  {
    var u := t.ReleaseStale(cutoff);
    assert u.FreeAfter(t.last + 1, size, j) by {
      ReleasedExactly(t, cutoff, t.last + 1 + j * size);
      forall i: nat | i < j
        ensures u.Busy(t.last + 1 + i * size)
      {
        ReleasedExactly(t, cutoff, t.last + 1 + i * size);
      }
    }
    StaleReleaseShrinks(t, cutoff);
    FreeIsNext(u, size, max, j);
  }

  lemma NoneIfTaken<R>(t: Tracker<R>, cutoff: int, size: nat, max: nat)
    requires size > 0 && forall j: nat :: j < max ==> Taken(t, cutoff, t.last + 1 + j * size)
    ensures t.ReleaseStale(cutoff).NextStart(size, max) == None
  {
    var u := t.ReleaseStale(cutoff);
    StaleReleaseShrinks(t, cutoff);
    assert u.AllTaken(size, max) by {
      forall j: nat | j < max
        ensures u.Busy(t.last + 1 + j * size)
      {
        ReleasedExactly(t, cutoff, t.last + 1 + j * size);
      }
    }
    TakenIsNone(u, size, max);
  }

  /** The tracker after a range was handed out: the stale assignment is gone, the new one is there with its time. */
  ghost predicate HandedOutAt<R>(t: Tracker<R>, u: Tracker<R>, cutoff: int, start: nat, now: int) {
    && u.last == t.last && u.pending == t.pending
    && start in u.active && u.active[start] == now
    && forall h :: h != start ==>
      (h in u.active <==> h in t.active && !IsOldestStale(t.active, cutoff, h)) &&
      (h in u.active ==> u.active[h] == t.active[h])
  }

  lemma AddedExactly<R>(t: Tracker<R>, cutoff: int, start: nat, now: int)
    ensures HandedOutAt(t, t.ReleaseStale(cutoff).Add(start, now), cutoff, start, now)
  {
    forall h
      ensures h in t.ReleaseStale(cutoff).active <==> h in t.active && !IsOldestStale(t.active, cutoff, h)
      ensures h in t.ReleaseStale(cutoff).active ==> t.ReleaseStale(cutoff).active[h] == t.active[h]
    {
      ReleasedExactly(t, cutoff, h);
    }
    StaleReleaseShrinks(t, cutoff);
  }

  // ---------- filters ----------

  /** What an asking peer without a filter range gets when `start` is the first untaken one. */
  ghost predicate GivenFilters(s: Shared, p: Peer, now: int, start: nat, r: (Shared, Peer))
    requires TipHeight(s.chain) < |s.blocks|
  {
    var tip := TipHeight(s.chain);
    var stop := if start + 399 <= tip then start + 399 else tip;
    if start <= tip then
      && r.1 == p.(filterRange := Some(RangeRequest(start, stop, s.blocks[stop].hash)), collected := [])
      && HandedOutAt(s.filters, r.0.filters, now - FILTER_ASSIGNMENT_TIMEOUT, start, now)
    else r.1 == p
  }

  lemma FiltersAsked(initial: nat, s: Shared, p: Peer, now: int, j: nat) returns (r: (Shared, Peer))
    requires SharedOk(initial, s) && p.CanSync() && p.filterRange.None?
    requires j < MAX_LOOKAHEAD_RANGES
    requires FirstUntaken(s.filters, now - FILTER_ASSIGNMENT_TIMEOUT, FILTERS_PER_REQUEST, j)
    ensures TipHeight(s.chain) < |s.blocks| && r == SyncFilters(s, p, now)
    ensures GivenFilters(s, p, now, s.filters.last + 1 + j * FILTERS_PER_REQUEST, r)
  {
    var start := AssignedIs(initial, s, now, j);
    AddedExactly(s.filters, now - FILTER_ASSIGNMENT_TIMEOUT, start, now);
    r := SyncFilters(s, p, now);
  }

  lemma AssignedIs(initial: nat, s: Shared, now: int, j: nat) returns (start: nat)
    requires SharedOk(initial, s) && j < MAX_LOOKAHEAD_RANGES
    requires FirstUntaken(s.filters, now - FILTER_ASSIGNMENT_TIMEOUT, FILTERS_PER_REQUEST, j)
    ensures TipHeight(s.chain) < |s.blocks| && start == s.filters.last + 1 + j * FILTERS_PER_REQUEST
    ensures var tip := TipHeight(s.chain); var stop := if start + 399 <= tip then start + 399 else tip;
      var u := s.filters.ReleaseStale(now - FILTER_ASSIGNMENT_TIMEOUT);
      AssignFilters(s, now) ==
        if start <= tip then (s.(filters := u.Add(start, now)), Some(RangeRequest(start, stop, s.blocks[stop].hash)))
        else (s.(filters := u), None)
  {
    InvAllows(initial, s);
    NextIsUntaken(s.filters, now - FILTER_ASSIGNMENT_TIMEOUT, FILTERS_PER_REQUEST, MAX_LOOKAHEAD_RANGES, j);
    start := s.filters.last + 1 + j * FILTERS_PER_REQUEST;
  }

  lemma ReachedShared(parses: Bytes -> bool, blocks: seq<ChainedBlock>, chain: seq<SmartHeader>, tipHeight: nat,
                      steps: seq<Step>)
    returns (s: Shared)
    requires ChainOk(blocks, chain)
    ensures s == Reach(parses, blocks, chain, tipHeight, steps).shared && SharedOk(tipHeight, s)
  {
    s := Reach(parses, blocks, chain, tipHeight, steps).shared;
  }

  /** Several peers download at once.  In every reachable state, a live peer without a filter range is given the first
      range of the grid that nobody is fetching and no answer is waiting for, whole or up to the header tip; a range
      whose holder has been silent for too long counts as free. */
  lemma FirstUntakenIsAsked(parses: Bytes -> bool, blocks: seq<ChainedBlock>, chain: seq<SmartHeader>, tipHeight: nat,
                            steps: seq<Step>, p: Peer, now: int, j: nat)
    returns (s: Shared, r: (Shared, Peer))
    requires ChainOk(blocks, chain) && p.CanSync() && p.filterRange.None? && j < MAX_LOOKAHEAD_RANGES
    requires FirstUntaken(Reach(parses, blocks, chain, tipHeight, steps).shared.filters,
                          now - FILTER_ASSIGNMENT_TIMEOUT, FILTERS_PER_REQUEST, j)
    ensures s == Reach(parses, blocks, chain, tipHeight, steps).shared && TipHeight(s.chain) < |s.blocks|
    ensures r == SyncFilters(s, p, now)
    ensures GivenFilters(s, p, now, s.filters.last + 1 + j * FILTERS_PER_REQUEST, r)
  {
    s := ReachedShared(parses, blocks, chain, tipHeight, steps);
    r := FiltersAsked(tipHeight, s, p, now, j);
  }

  /** A peer that asks is turned away only when all ranges within the lookahead are taken, or the next one is above
      the header tip. */
  lemma NothingToAsk(parses: Bytes -> bool, blocks: seq<ChainedBlock>, chain: seq<SmartHeader>, tipHeight: nat,
                     steps: seq<Step>, p: Peer, now: int)
    requires ChainOk(blocks, chain) && p.CanSync() && p.filterRange.None?
    requires var t := Reach(parses, blocks, chain, tipHeight, steps).shared.filters;
      forall j: nat :: j < MAX_LOOKAHEAD_RANGES ==>
        Taken(t, now - FILTER_ASSIGNMENT_TIMEOUT, t.last + 1 + j * FILTERS_PER_REQUEST)
    ensures var s := Reach(parses, blocks, chain, tipHeight, steps).shared;
      TipHeight(s.chain) < |s.blocks| && SyncFilters(s, p, now).1 == p
  {
    var s := Reach(parses, blocks, chain, tipHeight, steps).shared;
    InvAllows(tipHeight, s);
    NoneIfTaken(s.filters, now - FILTER_ASSIGNMENT_TIMEOUT, FILTERS_PER_REQUEST, MAX_LOOKAHEAD_RANGES);
  }

  /** What a reorganisation makes the client forget is asked for again: afterwards only ranges that somebody is
      fetching are taken. */
  lemma ForgottenIsAsked(parses: Bytes -> bool, blocks: seq<ChainedBlock>, chain: seq<SmartHeader>, tipHeight: nat,
                         steps: seq<Step>, h: nat, cutoff: int)
    requires ChainOk(blocks, chain)
    ensures var sys := Reach(parses, blocks, chain, tipHeight, steps);
      var t := Next(parses, tipHeight, sys, ReorgStep).shared;
      && t == sys.shared.(headers := t.headers, filters := t.filters)
      && t.headers.last == sys.shared.headers.last && t.filters.last == sys.shared.filters.last
      && (Taken(t.filters, cutoff, h) <==>
            h in sys.shared.filters.active && !IsOldestStale(sys.shared.filters.active, cutoff, h))
      && (Taken(t.headers, cutoff, h) <==>
            h in sys.shared.headers.active && !IsOldestStale(sys.shared.headers.active, cutoff, h))
  {
    InvAllows(tipHeight, Reach(parses, blocks, chain, tipHeight, steps).shared);
  }

  // ---------- headers ----------

  /** What an asking peer without a header range gets. */
  ghost predicate GivenHeaders(s: Shared, p: Peer, now: int, r: (Shared, Peer)) {
    var start := TipHeight(s.chain) + 1;
    var top := |s.blocks| - 1;
    var stop := if start + 1099 <= top then start + 1099 else top;
    if start <= top && !Taken(s.headers, now - HEADER_ASSIGNMENT_TIMEOUT, start) then
      && r.1 == p.(headerRange := Some(RangeRequest(start, stop, s.blocks[stop].hash)))
      && HandedOutAt(s.headers, r.0.headers, now - HEADER_ASSIGNMENT_TIMEOUT, start, now)
    else r.1 == p
  }

  lemma HeadersAsked(initial: nat, s: Shared, p: Peer, now: int)
    requires SharedOk(initial, s) && p.CanSync() && p.headerRange.None?
    ensures GivenHeaders(s, p, now, SyncHeaders(s, p, now))
  {
    var start := TipHeight(s.chain) + 1;
    var cutoff := now - HEADER_ASSIGNMENT_TIMEOUT;
    InvAllows(initial, s);
    AssignHeadersKeeps(initial, s, now);
    ReleasedExactly(s.headers, cutoff, start);
    if !Taken(s.headers, cutoff, start) {
      assert s.headers.last + 1 + 0 * HEADERS_PER_REQUEST == start;
      assert FirstUntaken(s.headers, cutoff, HEADERS_PER_REQUEST, 0);
      NextIsUntaken(s.headers, cutoff, HEADERS_PER_REQUEST, MAX_LOOKAHEAD_RANGES, 0);
      AddedExactly(s.headers, cutoff, start, now);
      assert At(s.chain, start - 1).Some?;
    } else {
      BusyNotAssigned(initial, s, now);
    }
  }

  lemma BusyNotAssigned(initial: nat, s: Shared, now: int)
    requires SharedOk(initial, s)
    requires s.headers.ReleaseStale(now - HEADER_ASSIGNMENT_TIMEOUT).Busy(s.headers.last + 1)
    ensures AssignHeaders(s, now).1.None?
  {
    var u := s.headers.ReleaseStale(now - HEADER_ASSIGNMENT_TIMEOUT);
    StaleReleaseShrinks(s.headers, now - HEADER_ASSIGNMENT_TIMEOUT);
    AssignHeadersKeeps(initial, s, now);
    var r := u.NextStart(HEADERS_PER_REQUEST, MAX_LOOKAHEAD_RANGES);
    if r.Some? {
      var j: nat :| r.value == u.last + 1 + j * HEADERS_PER_REQUEST && u.FreeAfter(u.last + 1, HEADERS_PER_REQUEST, j);
      assert !u.Busy(r.value);
    }
  }

  /** In every reachable state, a live peer without a header range is given the headers right above the chain, 1100 of
      them or as many as there are blocks, exactly if there are any and nobody else is at it; a holder that has been
      silent for too long does not count. */
  lemma NextHeadersAreAsked(parses: Bytes -> bool, blocks: seq<ChainedBlock>, chain: seq<SmartHeader>, tipHeight: nat,
                            steps: seq<Step>, p: Peer, now: int)
    requires ChainOk(blocks, chain) && p.CanSync() && p.headerRange.None?
    ensures var s := Reach(parses, blocks, chain, tipHeight, steps).shared;
      GivenHeaders(s, p, now, SyncHeaders(s, p, now))
  {
    HeadersAsked(tipHeight, Reach(parses, blocks, chain, tipHeight, steps).shared, p, now);
  }
}
