/** How many answers an honest sync can still take: a bound that every answer lowers. */
module Workload {
  import opened Digests
  import opened Tracking
  import opened SyncState
  import opened Peers
  import opened Protocol
  import opened Runs
  import opened PeerServer
  import opened EndToEnd
  import opened HonestRuns
  import opened Holding

  // ---------- what is left to do ----------

  /** Filter ranges may still be handed out at these heights. */
  function FreeStarts(s: Shared): set<nat> {
    set h: nat | s.filters.last < h < |s.blocks| && !s.filters.Busy(h)
  }

  /** What is not handed out yet, in answers: one for each missing header, a full range for each free start. */
  function Unasked(s: Shared): int {
    |s.blocks| - s.headers.last - (if s.headers.active == map[] then 0 else 1) + 400 * |FreeStarts(s)|
  }

  /** The answers that a peer still owes. */
  function Owed(p: Peer): int {
    (if p.headerRange.Some? && p.checkedHeaders.None? then 1 else 0) +
    (if p.filterRange.Some? && p.checkedFilters.None? then p.filterRange.value.Count() - |p.collected| else 0)
  }

  /** The answers owed by the peers below `n`. */
  function OwedByAll(peers: map<nat, Peer>, n: nat): int {
    if n == 0 then 0
    else OwedByAll(peers, n - 1) + (if n - 1 in peers then Owed(peers[n - 1]) else 0)
  }

  function Work(sys: System, n: nat): int {
    Unasked(sys.shared) + OwedByAll(sys.peers, n)
  }

  // ---------- what is counted ----------

  /** An answer that the peer was asked for and that it now checks or collects. */
  predicate IsAnswer(p: Peer, step: Step) {
    && p.CanSync() && !Reporting(p)
    && ((step.HeadersArriveStep? && p.headerRange.Some?) || (step.FilterArrivesStep? && p.filterRange.Some?))
  }

  ghost predicate HasStale(active: map<nat, int>, cutoff: int) {
    exists h :: IsOldestStale(active, cutoff, h)
  }

  /** What can make more work: ranges that are given up as stale, connections that close, new blocks, and
      finished ranges that are forgotten. */
  ghost function Disturbance(s: Shared, p: Peer, step: Step): nat {
    match step
    case SyncHeadersStep(_, now) =>
      if p.CanSync() && p.headerRange.None? && HasStale(s.headers.active, now - HEADER_ASSIGNMENT_TIMEOUT) then 1
      else 0
    case SyncFiltersStep(_, now) =>
      if p.CanSync() && p.filterRange.None? && HasStale(s.filters.active, now - FILTER_ASSIGNMENT_TIMEOUT) then 1
      else 0
    case DisconnectStep(_) => 1
    case BlockStep(_) => 1
    case ReorgStep => |s.filters.pending|
    case _ => 0
  }

  // ---------- one step of one peer ----------

  /** What a step does to the work of the acting peer and the shared state. */
  ghost predicate WorkOk(s: Shared, p: Peer, step: Step, r: (Shared, Peer)) {
    Unasked(r.0) + Owed(r.1) + (if IsAnswer(p, step) then 1 else 0)
      <= Unasked(s) + Owed(p) + 401 * Disturbance(s, p, step)
  }

  lemma FewerFree(s: Shared, t: Shared)
    requires FreeStarts(t) <= FreeStarts(s)
    ensures |FreeStarts(t)| <= |FreeStarts(s)|
  {
    SubsetCardinality(FreeStarts(t), FreeStarts(s));
  }

  lemma OneMoreFree(s: Shared, t: Shared, h: nat)
    requires FreeStarts(t) <= FreeStarts(s) + {h}
    ensures |FreeStarts(t)| <= |FreeStarts(s)| + 1
  {
    SubsetCardinality(FreeStarts(t), FreeStarts(s) + {h});
  }

  lemma OneFewerFree(s: Shared, t: Shared, h: nat)
    requires h in FreeStarts(s) && FreeStarts(t) <= FreeStarts(s) - {h}
    ensures |FreeStarts(t)| < |FreeStarts(s)|
  {
    SubsetIsSmaller(FreeStarts(t), FreeStarts(s), h);
  }

  lemma SyncHeadersWork(initial: nat, s: Shared, p: Peer, id: nat, now: int)
    requires SharedOk(initial, s) && AnswersOwn(p)
    ensures WorkOk(s, p, SyncHeadersStep(id, now), SyncHeaders(s, p, now))
  {
    AssignHeadersKeeps(initial, s, now);
    StaleReleaseShrinks(s.headers, now - HEADER_ASSIGNMENT_TIMEOUT);
    var (t, q) := SyncHeaders(s, p, now);
    assert FreeStarts(t) == FreeStarts(s);
    var u := s.headers.ReleaseStale(now - HEADER_ASSIGNMENT_TIMEOUT);
    if !HasStale(s.headers.active, now - HEADER_ASSIGNMENT_TIMEOUT) {
      assert u == s.headers;
    }
  }

  lemma AssignedIsFree(initial: nat, s: Shared, now: int)
    requires SharedOk(initial, s)
    ensures TipHeight(s.chain) < |s.blocks|
    ensures var u := s.filters.ReleaseStale(now - FILTER_ASSIGNMENT_TIMEOUT);
      var (t, a) := AssignFilters(s, now);
      && t.blocks == s.blocks && t.filters.last == s.filters.last
      && (if a.None? then t.filters == u
          else && a.value.start in FreeStarts(s.(filters := u)) && a.value.Count() <= FILTERS_PER_REQUEST
               && t.filters == u.Add(a.value.start, now))
  {
    AssignFiltersKeeps(initial, s, now);
    StaleReleaseShrinks(s.filters, now - FILTER_ASSIGNMENT_TIMEOUT);
    var u := s.filters.ReleaseStale(now - FILTER_ASSIGNMENT_TIMEOUT);
    AssignedWithinBound(s.filters, u, now);
  }

  lemma ReleasedFree(s: Shared, u: Shared, cutoff: int)
    requires u == s.(filters := s.filters.ReleaseStale(cutoff))
    ensures |FreeStarts(u)| <= |FreeStarts(s)| + if HasStale(s.filters.active, cutoff) then 1 else 0
  {
    if HasStale(s.filters.active, cutoff) {
      var h :| IsOldestStale(s.filters.active, cutoff, h) && u.filters == s.filters.Release(h);
      OneMoreFree(s, u, h);
    }
  }

  lemma AssignFiltersWork(initial: nat, s: Shared, now: int) returns (t: Shared, a: Option<RangeRequest>)
    requires SharedOk(initial, s)
    ensures TipHeight(s.chain) < |s.blocks| && (t, a) == AssignFilters(s, now)
    ensures a.Some? ==> a.value.Count() <= FILTERS_PER_REQUEST
    ensures Unasked(t) + (if a.Some? then 400 else 0)
      <= Unasked(s) + if HasStale(s.filters.active, now - FILTER_ASSIGNMENT_TIMEOUT) then 400 else 0
  {
    AssignedIsFree(initial, s, now);
    t, a := AssignFilters(s, now).0, AssignFilters(s, now).1;
    var cutoff := now - FILTER_ASSIGNMENT_TIMEOUT;
    var u := s.(filters := s.filters.ReleaseStale(cutoff));
    ReleasedFree(s, u, cutoff);
    if a.Some? {
      OneFewerFree(u, t, a.value.start);
    } else {
      assert FreeStarts(t) == FreeStarts(u);
    }
  }

  lemma SyncFiltersWork(initial: nat, s: Shared, p: Peer, id: nat, now: int)
    requires SharedOk(initial, s) && AnswersOwn(p)
    ensures TipHeight(s.chain) < |s.blocks|
    ensures WorkOk(s, p, SyncFiltersStep(id, now), SyncFilters(s, p, now))
  {
    var t, a := AssignFiltersWork(initial, s, now);
  }

  lemma LastIsTip(s: Shared)
    requires HeadersOk(s)
    ensures s.chain != [] && s.headers.last == s.chain[0].height + |s.chain| - 1
  {
    assert HeaderOk(s.blocks, s.chain[0].height + |s.chain| - 1, s.chain[|s.chain| - 1]);
  }

  lemma ReportHeadersWork(initial: nat, s: Shared, r: HeaderResponse)
    requires SharedOk(initial, s) && CheckedOk(s, r)
    ensures Unasked(ReportHeaders(s, r)) <= Unasked(s)
  {
    var t := ReportedHeaders(initial, s, r);
    ReportedActive(s, r);
    LastIsTip(s);
    LastIsTip(t);
    assert FreeStarts(t) == FreeStarts(s);
    if r.start != s.headers.last + 1 {
      assert s.headers.active - {r.start} == s.headers.active;
    }
  }

  lemma DrainRound(initial: nat, s: Shared) returns (u: Shared)
    requires DrainReady(initial, s) && s.filters.last + 1 in s.filters.pending
    ensures DrainReady(initial, u) && |u.filters.pending| < |s.filters.pending|
    ensures DrainFilters(s.filters, s.ready) == DrainFilters(u.filters, u.ready)
    ensures u.filters.pending == s.filters.pending - {s.filters.last + 1}
    ensures DrainFilters(u.filters, u.ready).0.last >= s.filters.last + 1
  {
    u := DrainedOnce(s);
    DrainOnce(initial, s);
    DrainKeeps(initial, u);
  }

  /** Draining forgets no finished range that is still ahead. */
  lemma {:induction false} DrainKeepsAhead(initial: nat, s: Shared, h: nat)
    requires DrainReady(initial, s) && h in s.filters.pending
    requires h > DrainFilters(s.filters, s.ready).0.last
    ensures h in DrainFilters(s.filters, s.ready).0.pending
    decreases |s.filters.pending|
  {
    if s.filters.last + 1 in s.filters.pending {
      var u := DrainRound(initial, s);
      assert h in u.filters.pending;
      DrainKeepsAhead(initial, u, h);
    } else {
      DrainDone(s.filters, s.ready);
    }
  }

  lemma DrainDone(t: Tracker<FilterResponse>, ready: seq<FilterResponse>)
    requires NoEmptyBatch(t) && t.last + 1 !in t.pending
    ensures DrainFilters(t, ready) == (t, ready)
  {
  }

  lemma ReportFiltersWork(initial: nat, s: Shared, r: FilterResponse)
    requires SharedOk(initial, s) && BatchOk(s, r) && AheadOk(s, r.start)
    ensures NoEmptyBatch(s.filters)
    ensures Unasked(ReportFilters(s, r)) <= Unasked(s)
  {
    ReportFiltersKeeps(initial, s, r);
    ReportReady(initial, s, r);
    var t := ReportFilters(s, r);
    var u := s.(filters := s.filters.Report(r.start, r));
    forall h | h in FreeStarts(t)
      ensures h in FreeStarts(s)
    {
      if h in u.filters.pending {
        DrainKeepsAhead(initial, u, h);
      }
    }
    FewerFree(s, t);
  }

  lemma ReleaseWork(s: Shared, p: Peer)
    ensures var (t, q) := ReleaseAssignments(s, p);
      Unasked(t) <= Unasked(s) + 401 && Owed(q) == 0
  {
    var t := ReleaseAssignments(s, p).0;
    if p.filterRange.Some? {
      OneMoreFree(s, t, p.filterRange.value.start);
    } else {
      assert FreeStarts(t) == FreeStarts(s);
    }
  }

  lemma ForgetWork(s: Shared)
    ensures Unasked(ClearPending(s)) <= Unasked(s) + 400 * |s.filters.pending|
  {
    var t := ClearPending(s);
    var forgotten := s.filters.pending.Keys;
    assert FreeStarts(t) <= FreeStarts(s) + forgotten;
    SubsetCardinality(FreeStarts(t), FreeStarts(s) + forgotten);
    SubsetCardinality(FreeStarts(s) + forgotten, FreeStarts(s) + forgotten);
    assert |FreeStarts(s) + forgotten| <= |FreeStarts(s)| + |forgotten|;
    assert |forgotten| == |s.filters.pending|;
  }

  lemma BlockWork(s: Shared, b: ChainedBlock)
    ensures Unasked(s.(blocks := s.blocks + [b])) <= Unasked(s) + 401
  {
    OneMoreFree(s, s.(blocks := s.blocks + [b]), |s.blocks|);
  }

  lemma AnswerWork(parses: Bytes -> bool, fx: seq<BlockFixture>, s: Shared, p: Peer, step: Step)
    requires FixtureOk(fx) && ParsesAll(parses, fx) && PeerOk(s, p) && HonestChain(fx, s) && HonestPeer(fx, s, p)
    requires IsAnswer(p, step) && HonestStep(fx, s, p, step)
    ensures step.HeadersArriveStep? ==> WorkOk(s, p, step, HeadersArrive(s, p, step.cfheaders))
    ensures step.FilterArrivesStep? ==> WorkOk(s, p, step, FilterArrives(parses, s, p, step.cfilter))
  {
    if step.HeadersArriveStep? {
      HonestHeadersAccepted(fx, s, p, step.cfheaders);
    } else {
      HonestFilterAccepted(parses, fx, s, p, step.cfilter);
    }
  }

  lemma HeadersReportedWork(initial: nat, s: Shared, p: Peer, id: nat)
    requires SharedOk(initial, s) && PeerOk(s, p) && p.checkedHeaders.Some?
    ensures WorkOk(s, p, HeadersReportedStep(id), HeadersReported(s, p))
  {
    ReportHeadersWork(initial, s, p.checkedHeaders.value);
  }

  lemma FiltersReportedWork(initial: nat, s: Shared, p: Peer, id: nat)
    requires SharedOk(initial, s) && PeerOk(s, p) && p.checkedFilters.Some?
    ensures NoEmptyBatch(s.filters) && WorkOk(s, p, FiltersReportedStep(id), FiltersReported(s, p))
  {
    ReportFiltersWork(initial, s, p.checkedFilters.value);
  }

  lemma DisconnectWork(s: Shared, p: Peer, step: Step)
    requires PeerOk(s, p) && step.DisconnectStep?
    ensures WorkOk(s, p, step, ReleaseAssignments(s, p.(connected := false)))
  {
    ReleaseWork(s, p.(connected := false));
  }

  lemma SyncWork(parses: Bytes -> bool, initial: nat, s: Shared, p: Peer, step: Step)
    requires SharedOk(initial, s) && PeerOk(s, p) && AnswersOwn(p)
    requires step.SyncHeadersStep? || step.SyncFiltersStep?
    ensures TipHeight(s.chain) < |s.blocks| && NoEmptyBatch(s.filters)
    ensures WorkOk(s, p, step, PeerNext(parses, s, p, step))
  {
    InvAllows(initial, s);
    match step {
      case SyncHeadersStep(id, now) => SyncHeadersWork(initial, s, p, id, now);
      case SyncFiltersStep(id, now) => SyncFiltersWork(initial, s, p, id, now);
    }
  }

  lemma ArriveWork(parses: Bytes -> bool, fx: seq<BlockFixture>, initial: nat, s: Shared, p: Peer, step: Step)
    requires FixtureOk(fx) && ParsesAll(parses, fx)
    requires SharedOk(initial, s) && PeerOk(s, p) && HonestChain(fx, s) && HonestPeer(fx, s, p)
    requires HonestStep(fx, s, p, step) && (step.HeadersArriveStep? || step.FilterArrivesStep?)
    ensures TipHeight(s.chain) < |s.blocks| && NoEmptyBatch(s.filters)
    ensures WorkOk(s, p, step, PeerNext(parses, s, p, step))
  {
    InvAllows(initial, s);
    if IsAnswer(p, step) {
      AnswerWork(parses, fx, s, p, step);
    }
  }

  lemma ReportWork(parses: Bytes -> bool, initial: nat, s: Shared, p: Peer, step: Step)
    requires SharedOk(initial, s) && PeerOk(s, p)
    requires step.HeadersReportedStep? || step.FiltersReportedStep?
    ensures TipHeight(s.chain) < |s.blocks| && NoEmptyBatch(s.filters)
    ensures WorkOk(s, p, step, PeerNext(parses, s, p, step))
  {
    InvAllows(initial, s);
    if step.HeadersReportedStep? && p.checkedHeaders.Some? {
      HeadersReportedWork(initial, s, p, step.peer);
    }
    if step.FiltersReportedStep? && p.checkedFilters.Some? {
      FiltersReportedWork(initial, s, p, step.peer);
    }
  }

  lemma OtherWork(parses: Bytes -> bool, initial: nat, s: Shared, p: Peer, step: Step)
    requires SharedOk(initial, s) && PeerOk(s, p)
    requires step.DisconnectStep? || !IsPeerStep(step)
    ensures TipHeight(s.chain) < |s.blocks| && NoEmptyBatch(s.filters)
    ensures WorkOk(s, p, step, PeerNext(parses, s, p, step))
  {
    InvAllows(initial, s);
    match step {
      case DisconnectStep(_) => DisconnectWork(s, p, step);
      case ReorgStep => ForgetWork(s);
      case BlockStep(b) => BlockWork(s, b);
      case ConsumeStep => assert FreeStarts(Consume(s)) == FreeStarts(s);
    }
  }

  /** Every answer lowers the work by one.  Only a disturbance can raise it, by one full range and a header. */
  lemma PeerWork(parses: Bytes -> bool, fx: seq<BlockFixture>, initial: nat, s: Shared, p: Peer, step: Step)
    requires FixtureOk(fx) && ParsesAll(parses, fx)
    requires SharedOk(initial, s) && PeerOk(s, p) && HonestChain(fx, s) && HonestPeer(fx, s, p)
    requires AnswersOwn(p) && HonestStep(fx, s, p, step)
    ensures TipHeight(s.chain) < |s.blocks| && NoEmptyBatch(s.filters)
    ensures WorkOk(s, p, step, PeerNext(parses, s, p, step))
  {
    if step.SyncHeadersStep? || step.SyncFiltersStep? {
      SyncWork(parses, initial, s, p, step);
    } else if step.HeadersArriveStep? || step.FilterArrivesStep? {
      ArriveWork(parses, fx, initial, s, p, step);
    } else if step.HeadersReportedStep? || step.FiltersReportedStep? {
      ReportWork(parses, initial, s, p, step);
    } else {
      OtherWork(parses, initial, s, p, step);
    }
  }

  // ---------- many peers, whole runs ----------

  lemma {:induction false} OwedWith(peers: map<nat, Peer>, id: nat, q: Peer, n: nat)
    ensures OwedByAll(peers[id := q], n) == OwedByAll(peers, n) +
      if id < n then Owed(q) - (if id in peers then Owed(peers[id]) else 0) else 0
  {
    if n > 0 {
      OwedWith(peers, id, q, n - 1);
    }
  }

  lemma {:induction false} OwedPositive(initial: nat, sys: System, n: nat)
    requires Inv(initial, sys)
    ensures OwedByAll(sys.peers, n) >= 0
  {
    if n > 0 {
      OwedPositive(initial, sys, n - 1);
      assert n - 1 in sys.peers ==> PeerOk(sys.shared, sys.peers[n - 1]);
    }
  }

  lemma WorkPositive(initial: nat, sys: System, n: nat)
    requires Inv(initial, sys)
    ensures Work(sys, n) >= 0
  {
    OwedPositive(initial, sys, n);
    InvAllows(initial, sys.shared);
  }

  /** How many of the steps are answers. */
  ghost function Answers(parses: Bytes -> bool, initial: nat, sys: System, steps: seq<Step>): nat
    requires Inv(initial, sys)
    decreases steps
  {
    if steps == [] then 0
    else
      StepKeeps(parses, initial, sys, steps[0]);
      (if IsAnswer(Acting(sys, steps[0]), steps[0]) then 1 else 0) +
      Answers(parses, initial, Next(parses, initial, sys, steps[0]), steps[1..])
  }

  ghost function Disturbances(parses: Bytes -> bool, initial: nat, sys: System, steps: seq<Step>): nat
    requires Inv(initial, sys)
    decreases steps
  {
    if steps == [] then 0
    else
      StepKeeps(parses, initial, sys, steps[0]);
      Disturbance(sys.shared, Acting(sys, steps[0]), steps[0]) +
      Disturbances(parses, initial, Next(parses, initial, sys, steps[0]), steps[1..])
  }

  ghost predicate PeersBelow(steps: seq<Step>, n: nat) {
    forall step :: step in steps && IsPeerStep(step) ==> step.peer < n
  }

  lemma StepWork(parses: Bytes -> bool, fx: seq<BlockFixture>, initial: nat, sys: System, step: Step, n: nat)
    requires FixtureOk(fx) && ParsesAll(parses, fx) && Inv(initial, sys) && Honest(fx, initial, sys) && Held(sys)
    requires HonestStep(fx, sys.shared, Acting(sys, step), step) && (IsPeerStep(step) ==> step.peer < n)
    ensures Work(Next(parses, initial, sys, step), n) + (if IsAnswer(Acting(sys, step), step) then 1 else 0)
      <= Work(sys, n) + 401 * Disturbance(sys.shared, Acting(sys, step), step)
  {
    var p := Acting(sys, step);
    ActingIsHonest(fx, initial, sys, step);
    PeerWork(parses, fx, initial, sys.shared, p, step);
    if IsPeerStep(step) {
      OwedWith(sys.peers, step.peer, PeerNext(parses, sys.shared, p, step).1, n);
    }
  }

  /** The bound: in an honest run, every answer of any peer uses up work, and only a disturbance makes new work. */
  lemma {:induction false} AnswersBounded(parses: Bytes -> bool, fx: seq<BlockFixture>, initial: nat, sys: System,
                                          steps: seq<Step>, n: nat)
    requires FixtureOk(fx) && ParsesAll(parses, fx) && Inv(initial, sys) && Honest(fx, initial, sys) && Held(sys)
    requires HonestRun(parses, fx, initial, sys, steps) && PeersBelow(steps, n)
    ensures Answers(parses, initial, sys, steps) + Work(Run(parses, initial, sys, steps), n)
      <= Work(sys, n) + 401 * Disturbances(parses, initial, sys, steps)
    ensures Work(Run(parses, initial, sys, steps), n) >= 0
    decreases steps
  {
    if steps == [] {
      WorkPositive(initial, sys, n);
    } else {
      StepKeeps(parses, initial, sys, steps[0]);
      StepWork(parses, fx, initial, sys, steps[0], n);
      StepStaysHonest(parses, fx, initial, sys, steps[0]);
      StepHeld(parses, initial, sys, steps[0]);
      AnswersBounded(parses, fx, initial, Next(parses, initial, sys, steps[0]), steps[1..], n);
    }
  }
}
