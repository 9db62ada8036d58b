/** The download finishes: once a connected peer has asked, every order in which honest peers answer everything that
    they are asked leaves the client complete. */
module Completion {
  import opened Digests
  import opened SyncState
  import opened Peers
  import opened Protocol
  import opened Runs
  import opened PeerServer
  import opened EndToEnd
  import opened HonestRuns
  import opened Holding
  import opened SyncTheorems
  import opened Workload

  /** A state in which there is nothing left to download. */
  ghost predicate Complete(fx: seq<BlockFixture>, initial: nat, s: Shared) {
    && TipHeight(s.chain) == |s.blocks| - 1
    && s.filters.last == TipHeight(s.chain)
    && HonestChain(fx, s)
    && HonestFilters(fx, initial + 1, Emitted(s)) && initial + |Emitted(s)| == s.filters.last
  }

  lemma TipGrows(fx: seq<BlockFixture>, s: Shared, t: Shared)
    requires HonestChain(fx, s) && HonestChain(fx, t) && s.chain <= t.chain
    ensures TipHeight(s.chain) <= TipHeight(t.chain)
  {
    HonestTip(fx, s);
    HonestTip(fx, t);
  }

  lemma LastWithinTip(initial: nat, s: Shared)
    requires SharedOk(initial, s) && initial <= TipHeight(s.chain)
    ensures s.filters.last <= TipHeight(s.chain)
  {
    var n := |Emitted(s)|;
    if n > 0 {
      assert FilterOk(s, initial + 1 + (n - 1), Emitted(s)[n - 1]);
      assert HeaderOk(s.blocks, s.chain[0].height + |s.chain| - 1, s.chain[|s.chain| - 1]);
    }
  }

  // ---------- somebody is always at work ----------

  /** The peers that have reported an answer and have yet to ask for the next ranges. */
  datatype Duty = Duty(headers: set<nat>, filters: set<nat>)

  const NO_DUTY := Duty({}, {})

  /** After a report a handler goes on to ask for headers, and then for filters. */
  function DutyAfter(d: Duty, step: Step): Duty {
    match step
    case HeadersReportedStep(id) => Duty(d.headers + {id}, d.filters + {id})
    case FiltersReportedStep(id) => Duty(d.headers + {id}, d.filters + {id})
    case SyncHeadersStep(id, _) => d.(headers := d.headers - {id})
    case SyncFiltersStep(id, _) => d.(filters := d.filters - {id})
    case _ => d
  }

  function DutyAtEnd(d: Duty, steps: seq<Step>): Duty
    decreases |steps|
  {
    if steps == [] then d else DutyAtEnd(DutyAfter(d, steps[0]), steps[1..])
  }

  /** A step of a live connection, or of the reader of the channel. */
  ghost predicate Calm(sys: System, step: Step) {
    step.ConsumeStep? || (IsPeerStep(step) && !step.DisconnectStep? && sys.PeerAt(step.peer).CanSync())
  }

  ghost predicate CalmRun(parses: Bytes -> bool, initial: nat, sys: System, steps: seq<Step>)
    requires Inv(initial, sys)
    decreases steps
  {
    steps == [] ||
    (StepKeeps(parses, initial, sys, steps[0]);
     && Calm(sys, steps[0]) && CalmRun(parses, initial, Next(parses, initial, sys, steps[0]), steps[1..]))
  }

  ghost predicate HeadersOut(sys: System) {
    exists id :: id in sys.peers && sys.peers[id].headerRange.Some?
  }

  ghost predicate FiltersOut(sys: System) {
    exists id :: id in sys.peers && sys.peers[id].filterRange.Some?
  }

  /** As long as something is missing, some peer has been asked for it or is about to ask. */
  ghost predicate Progress(sys: System, d: Duty) {
    && (|sys.shared.blocks| <= sys.shared.headers.last + 1 || d.headers != {} || HeadersOut(sys))
    && (TipHeight(sys.shared.chain) <= sys.shared.filters.last || d.filters != {} || FiltersOut(sys))
  }

  lemma NoHeadersToAsk(initial: nat, s: Shared, now: int)
    requires SharedOk(initial, s) && AssignHeaders(s, now).1.None?
    ensures AssignHeaders(s, now).0.headers.active != map[] || |s.blocks| <= s.headers.last + 1
  {
    var u := s.headers.ReleaseStale(now - HEADER_ASSIGNMENT_TIMEOUT);
    StaleReleaseShrinks(s.headers, now - HEADER_ASSIGNMENT_TIMEOUT);
    LastIsTip(s);
    if u.active == map[] {
      assert !u.Busy(u.last + 1);
      assert u.Skips(u.last + 1, HEADERS_PER_REQUEST) == 0;
    }
  }

  lemma NoFiltersToAsk(initial: nat, s: Shared, now: int)
    requires SharedOk(initial, s)
    ensures TipHeight(s.chain) < |s.blocks|
    ensures AssignFilters(s, now).1.None? ==>
      AssignFilters(s, now).0.filters.active != map[] || TipHeight(s.chain) <= s.filters.last
  {
    InvAllows(initial, s);
    var u := s.filters.ReleaseStale(now - FILTER_ASSIGNMENT_TIMEOUT);
    StaleReleaseShrinks(s.filters, now - FILTER_ASSIGNMENT_TIMEOUT);
    if u.active == map[] {
      assert !u.Busy(u.last + 1);
      assert u.Skips(u.last + 1, FILTERS_PER_REQUEST) == 0;
    }
  }

  /** An active range is held, so somebody has been asked. */
  lemma ActiveIsOut(sys: System)
    requires Held(sys)
    ensures sys.shared.headers.active != map[] ==> HeadersOut(sys)
    ensures sys.shared.filters.active != map[] ==> FiltersOut(sys)
  {
    if sys.shared.headers.active != map[] {
      var h :| h in sys.shared.headers.active;
    }
    if sys.shared.filters.active != map[] {
      var h :| h in sys.shared.filters.active;
    }
  }

  /** Nobody loses a range but by reporting an answer to it. */
  ghost predicate StillOut(s: Shared, p: Peer, r: (Shared, Peer)) {
    && r.0.blocks == s.blocks && r.0.chain == s.chain
    && r.0.headers.last == s.headers.last && r.0.filters.last == s.filters.last
    && (p.headerRange.Some? ==> r.1.headerRange.Some?)
    && (p.filterRange.Some? ==> r.1.filterRange.Some?)
  }

  lemma SyncStillOut(initial: nat, s: Shared, p: Peer, now: int)
    requires SharedOk(initial, s)
    ensures TipHeight(s.chain) < |s.blocks|
    ensures StillOut(s, p, SyncHeaders(s, p, now)) && StillOut(s, p, SyncFilters(s, p, now))
  {
    AssignHeadersKeeps(initial, s, now);
    AssignFiltersKeeps(initial, s, now);
    StaleReleaseShrinks(s.headers, now - HEADER_ASSIGNMENT_TIMEOUT);
    StaleReleaseShrinks(s.filters, now - FILTER_ASSIGNMENT_TIMEOUT);
  }

  lemma ArriveStillOut(parses: Bytes -> bool, fx: seq<BlockFixture>, initial: nat, s: Shared, p: Peer, step: Step)
    requires FixtureOk(fx) && ParsesAll(parses, fx)
    requires SharedOk(initial, s) && PeerOk(s, p) && HonestChain(fx, s) && HonestPeer(fx, s, p)
    requires HonestStep(fx, s, p, step) && (step.HeadersArriveStep? || step.FilterArrivesStep?)
    ensures TipHeight(s.chain) < |s.blocks| && NoEmptyBatch(s.filters)
    ensures StillOut(s, p, PeerNext(parses, s, p, step))
  {
    InvAllows(initial, s);
    if IsAnswer(p, step) {
      if step.HeadersArriveStep? {
        HonestHeadersAccepted(fx, s, p, step.cfheaders);
      } else {
        HonestFilterAccepted(parses, fx, s, p, step.cfilter);
      }
    }
  }

  lemma StillOutProgress(sys: System, id: nat, r: (Shared, Peer), d: Duty)
    requires Progress(sys, d) && StillOut(sys.shared, sys.PeerAt(id), r)
    ensures Progress(With(sys, id, r), d)
    ensures HeadersOut(sys) ==> HeadersOut(With(sys, id, r))
    ensures FiltersOut(sys) ==> FiltersOut(With(sys, id, r))
  {
    var next := With(sys, id, r);
    if HeadersOut(sys) {
      var k :| k in sys.peers && sys.peers[k].headerRange.Some?;
      assert k in next.peers && next.peers[k].headerRange.Some?;
    }
    if FiltersOut(sys) {
      var k :| k in sys.peers && sys.peers[k].filterRange.Some?;
      assert k in next.peers && next.peers[k].filterRange.Some?;
    }
  }

  lemma SyncHeadersProgress(parses: Bytes -> bool, initial: nat, sys: System, d: Duty, id: nat, now: int)
    requires Inv(initial, sys) && Held(sys) && Progress(sys, d) && sys.PeerAt(id).CanSync()
    requires Held(Next(parses, initial, sys, SyncHeadersStep(id, now)))
    ensures Progress(Next(parses, initial, sys, SyncHeadersStep(id, now)), DutyAfter(d, SyncHeadersStep(id, now)))
  {
    var s, p := sys.shared, sys.PeerAt(id);
    var r := SyncHeaders(s, p, now);
    var next := With(sys, id, r);
    InvAllows(initial, s);
    assert next == Next(parses, initial, sys, SyncHeadersStep(id, now));
    SyncStillOut(initial, s, p, now);
    StillOutProgress(sys, id, r, d);
    if r.1.headerRange.Some? {
      assert id in next.peers && next.peers[id].headerRange.Some?;
    } else {
      NoHeadersToAsk(initial, s, now);
      ActiveIsOut(next);
    }
  }

  lemma SyncFiltersProgress(parses: Bytes -> bool, initial: nat, sys: System, d: Duty, id: nat, now: int)
    requires Inv(initial, sys) && Held(sys) && Progress(sys, d) && sys.PeerAt(id).CanSync()
    requires Held(Next(parses, initial, sys, SyncFiltersStep(id, now)))
    ensures Progress(Next(parses, initial, sys, SyncFiltersStep(id, now)), DutyAfter(d, SyncFiltersStep(id, now)))
  {
    var s, p := sys.shared, sys.PeerAt(id);
    InvAllows(initial, s);
    var r := SyncFilters(s, p, now);
    var next := With(sys, id, r);
    assert next == Next(parses, initial, sys, SyncFiltersStep(id, now));
    SyncStillOut(initial, s, p, now);
    StillOutProgress(sys, id, r, d);
    if r.1.filterRange.Some? {
      assert id in next.peers && next.peers[id].filterRange.Some?;
    } else {
      NoFiltersToAsk(initial, s, now);
      ActiveIsOut(next);
    }
  }

  lemma StepProgress(parses: Bytes -> bool, fx: seq<BlockFixture>, initial: nat, sys: System, d: Duty, step: Step)
    requires FixtureOk(fx) && ParsesAll(parses, fx) && Inv(initial, sys) && Honest(fx, initial, sys) && Held(sys)
    requires HonestStep(fx, sys.shared, Acting(sys, step), step) && Calm(sys, step) && Progress(sys, d)
    ensures Progress(Next(parses, initial, sys, step), DutyAfter(d, step))
  {
    StepHeld(parses, initial, sys, step);
    match step {
      case SyncHeadersStep(id, now) => SyncHeadersProgress(parses, initial, sys, d, id, now);
      case SyncFiltersStep(id, now) => SyncFiltersProgress(parses, initial, sys, d, id, now);
      case HeadersArriveStep(id, _) =>
        ActingIsHonest(fx, initial, sys, step);
        ArriveStillOut(parses, fx, initial, sys.shared, sys.PeerAt(id), step);
        StillOutProgress(sys, id, PeerNext(parses, sys.shared, sys.PeerAt(id), step), d);
      case FilterArrivesStep(id, _) =>
        ActingIsHonest(fx, initial, sys, step);
        ArriveStillOut(parses, fx, initial, sys.shared, sys.PeerAt(id), step);
        StillOutProgress(sys, id, PeerNext(parses, sys.shared, sys.PeerAt(id), step), d);
      case HeadersReportedStep(id) => assert id in DutyAfter(d, step).headers && id in DutyAfter(d, step).filters;
      case FiltersReportedStep(id) => assert id in DutyAfter(d, step).headers && id in DutyAfter(d, step).filters;
      case ConsumeStep =>
    }
  }

  lemma {:induction false} RunProgress(parses: Bytes -> bool, fx: seq<BlockFixture>, initial: nat, sys: System,
                                       d: Duty, steps: seq<Step>)
    requires FixtureOk(fx) && ParsesAll(parses, fx) && Inv(initial, sys) && Honest(fx, initial, sys) && Held(sys)
    requires HonestRun(parses, fx, initial, sys, steps) && CalmRun(parses, initial, sys, steps) && Progress(sys, d)
    ensures Progress(Run(parses, initial, sys, steps), DutyAtEnd(d, steps))
    decreases steps
  {
    if steps != [] {
      StepKeeps(parses, initial, sys, steps[0]);
      StepStaysHonest(parses, fx, initial, sys, steps[0]);
      StepHeld(parses, initial, sys, steps[0]);
      StepProgress(parses, fx, initial, sys, d, steps[0]);
      RunProgress(parses, fx, initial, Next(parses, initial, sys, steps[0]), DutyAfter(d, steps[0]), steps[1..]);
    }
  }

  // ---------- nothing out means nothing missing ----------

  ghost predicate NobodyAsked(sys: System) {
    !HeadersOut(sys) && !FiltersOut(sys)
  }

  lemma NothingMissing(fx: seq<BlockFixture>, initial: nat, sys: System)
    requires Inv(initial, sys) && Honest(fx, initial, sys) && initial <= TipHeight(sys.shared.chain)
    requires Progress(sys, NO_DUTY) && NobodyAsked(sys)
    ensures Complete(fx, initial, sys.shared)
  {
    LastWithinTip(initial, sys.shared);
    LastIsTip(sys.shared);
  }

  /** What an honest run, with whatever disturbances, leads to. */
  ghost predicate Reached(parses: Bytes -> bool, fx: seq<BlockFixture>, initial: nat, sys: System) {
    && FixtureOk(fx) && ParsesAll(parses, fx)
    && Inv(initial, sys) && Honest(fx, initial, sys) && Held(sys) && initial <= TipHeight(sys.shared.chain)
  }

  lemma {:induction false} RunReaches(parses: Bytes -> bool, fx: seq<BlockFixture>, initial: nat, sys: System,
                                      steps: seq<Step>)
    requires Reached(parses, fx, initial, sys) && HonestRun(parses, fx, initial, sys, steps)
    ensures Reached(parses, fx, initial, Run(parses, initial, sys, steps))
  {
    RunStaysHonest(parses, fx, initial, sys, steps);
    RunHeld(parses, initial, sys, steps);
    RunGrows(parses, initial, sys, steps);
    TipGrows(fx, sys.shared, Run(parses, initial, sys, steps).shared);
  }

  lemma StartReached(parses: Bytes -> bool, fx: seq<BlockFixture>, blocks: seq<ChainedBlock>, chain: seq<SmartHeader>,
                     tipHeight: nat)
    requires HonestStart(fx, blocks, chain, tipHeight) && ParsesAll(parses, fx)
    ensures Reached(parses, fx, tipHeight, StartState(fx, blocks, chain, tipHeight))
  {
  }

  /** Every calm run finishes.  Before it, anything honest may have happened, with closed connections, stale ranges and
      forgotten answers.  Then some live peer asks, and from there on every live handler that reports also asks.
      However the critical sections of all these handlers interleave: when every range that was asked for has been
      answered, the client is complete; and the number of answers is bounded. */
  lemma CalmRunsComplete(parses: Bytes -> bool, fx: seq<BlockFixture>, initial: nat, sys: System, id: nat,
                         steps: seq<Step>, n: nat)
    requires Reached(parses, fx, initial, sys)
    requires HonestRun(parses, fx, initial, sys, steps) && CalmRun(parses, initial, sys, steps)
    requires DutyAtEnd(Duty({id}, {id}), steps) == NO_DUTY && PeersBelow(steps, n)
    ensures NobodyAsked(Run(parses, initial, sys, steps)) ==>
      Complete(fx, initial, Run(parses, initial, sys, steps).shared)
    ensures Answers(parses, initial, sys, steps)
      <= Work(sys, n) + 401 * Disturbances(parses, initial, sys, steps)
  {
    RunProgress(parses, fx, initial, sys, Duty({id}, {id}), steps);
    RunReaches(parses, fx, initial, sys, steps);
    AnswersBounded(parses, fx, initial, sys, steps, n);
    if NobodyAsked(Run(parses, initial, sys, steps)) {
      NothingMissing(fx, initial, Run(parses, initial, sys, steps));
    }
  }
}
