/** How many requests the filter headers take: full rounds of 1100, one after the other, and one for the rest. */
module HeaderRounds {
  import opened Digests
  import opened Tracking
  import opened SyncState
  import opened Peers
  import opened Protocol
  import opened Runs
  import opened PeerServer
  import opened EndToEnd
  import opened HonestRuns
  import opened Holding
  import opened Workload
  import opened Requests

  /** No header range is given up in the step, and there is no new block. */
  ghost predicate Undisturbed(s: Shared, p: Peer, step: Step) {
    match step
    case SyncHeadersStep(_, now) =>
      p.CanSync() && p.headerRange.None? ==> !HasStale(s.headers.active, now - HEADER_ASSIGNMENT_TIMEOUT)
    case DisconnectStep(_) => p.headerRange.None?
    case BlockStep(_) => false
    case _ => true
  }

  ghost predicate UndisturbedRun(parses: Bytes -> bool, initial: nat, sys: System, steps: seq<Step>)
    requires Inv(initial, sys)
    decreases steps
  {
    steps == [] ||
    (StepKeeps(parses, initial, sys, steps[0]);
     && Undisturbed(sys.shared, Acting(sys, steps[0]), steps[0])
     && UndisturbedRun(parses, initial, Next(parses, initial, sys, steps[0]), steps[1..]))
  }

  predicate IsHeaderAnswer(p: Peer, step: Step) {
    step.HeadersArriveStep? && IsAnswer(p, step)
  }

  /** How many cfheaders answers are received and checked in the run. */
  ghost function HeaderAnswers(parses: Bytes -> bool, initial: nat, sys: System, steps: seq<Step>): nat
    requires Inv(initial, sys)
    decreases steps
  {
    if steps == [] then 0
    else
      StepKeeps(parses, initial, sys, steps[0]);
      (if IsHeaderAnswer(Acting(sys, steps[0]), steps[0]) then 1 else 0) +
      HeaderAnswers(parses, initial, Next(parses, initial, sys, steps[0]), steps[1..])
  }

  // ---------- one peer at a time ----------

  /** The last of at most 1100 heights from `start` on. */
  function RoundEnd(s: Shared, start: nat): int {
    if start + 1099 <= |s.blocks| - 1 then start + 1099 else |s.blocks| - 1
  }

  /** A peer that has been asked for headers holds the active range, and its answer is for all of it. */
  ghost predicate HolderOk(s: Shared, p: Peer) {
    && (p.headerRange.Some? ==>
          p.headerRange.value.start in s.headers.active &&
          p.headerRange.value.stop == RoundEnd(s, p.headerRange.value.start))
    && (p.checkedHeaders.Some? ==>
          && p.headerRange.Some? && p.checkedHeaders.value.start == p.headerRange.value.start
          && |p.checkedHeaders.value.headers| == p.headerRange.value.Count())
  }

  ghost predicate OneHolder(sys: System) {
    && (forall id :: id in sys.peers ==> HolderOk(sys.shared, sys.peers[id]))
    && forall i, j ::
      i in sys.peers && j in sys.peers && sys.peers[i].headerRange.Some? && sys.peers[j].headerRange.Some? ==> i == j
  }

  /** What a step does to the headers. */
  datatype Effect = Nothing | Asked | Answered | Reported

  ghost predicate HasEffect(s: Shared, p: Peer, r: (Shared, Peer), e: Effect) {
    && r.0.blocks == s.blocks
    && match e
       case Nothing =>
         && r.0.chain == s.chain && r.0.headers.active == s.headers.active
         && r.1.headerRange == p.headerRange && r.1.checkedHeaders == p.checkedHeaders
       case Asked =>
         && r.0.chain == s.chain && s.headers.active == map[]
         && r.1.headerRange.Some? && HolderOk(r.0, r.1) && r.1.checkedHeaders.None? && p.checkedHeaders.None?
       case Answered =>
         && r.0 == s && p.headerRange.Some? && p.checkedHeaders.None?
         && r.1.headerRange == p.headerRange && r.1.checkedHeaders.Some? && HolderOk(s, r.1)
       case Reported =>
         && p.checkedHeaders.Some? && r.1.headerRange.None? && r.1.checkedHeaders.None?
         && r.0.headers.active.Keys == s.headers.active.Keys - {p.checkedHeaders.value.start}
         && p.checkedHeaders.value.start == TipHeight(s.chain) + 1
         && TipHeight(r.0.chain) == RoundEnd(s, TipHeight(s.chain) + 1) < |s.blocks|
         && TipHeight(s.chain) < |s.blocks| - 1
  }

  lemma AskEffect(initial: nat, s: Shared, p: Peer, id: nat, now: int) returns (e: Effect)
    requires SharedOk(initial, s) && HolderOk(s, p) && Undisturbed(s, p, SyncHeadersStep(id, now))
    ensures HasEffect(s, p, SyncHeaders(s, p, now), e) && e != Answered
  {
    e := Nothing;
    if p.CanSync() && p.headerRange.None? {
      var cutoff := now - HEADER_ASSIGNMENT_TIMEOUT;
      HeadersAsked(initial, s, p, now);
      AssignHeadersKeeps(initial, s, now);
      assert s.headers.ReleaseStale(cutoff) == s.headers;
      if SyncHeaders(s, p, now).1.headerRange.Some? {
        NoneActive(initial, s, cutoff);
        e := Asked;
      }
    }
  }

  lemma NoneActive(initial: nat, s: Shared, cutoff: int)
    requires SharedOk(initial, s) && !HasStale(s.headers.active, cutoff)
    requires !Taken(s.headers, cutoff, TipHeight(s.chain) + 1)
    ensures s.headers.active == map[]
  {
    assert !IsOldestStale(s.headers.active, cutoff, TipHeight(s.chain) + 1);
    assert forall h :: h in s.headers.active ==> h == TipHeight(s.chain) + 1;
  }

  lemma ReportedTip(initial: nat, s: Shared, r: HeaderResponse) returns (t: Shared)
    requires SharedOk(initial, s) && CheckedOk(s, r) && r.start == TipHeight(s.chain) + 1
    ensures t == ReportHeaders(s, r) && t.blocks == s.blocks
    ensures TipHeight(t.chain) == TipHeight(s.chain) + |r.headers|
    ensures t.headers.active == s.headers.active - {r.start}
  {
    t := ReportHeaders(s, r);
    ReportHeadersExact(initial, s, r);
    ReportedActive(s, r);
    LastIsTip(s);
    LastIsTip(t);
  }

  lemma HolderAtTip(initial: nat, s: Shared, p: Peer)
    requires SharedOk(initial, s) && PeerOk(s, p) && HolderOk(s, p) && p.headerRange.Some?
    ensures p.headerRange.value.start == TipHeight(s.chain) + 1 <= p.headerRange.value.stop < |s.blocks|
  {
  }

  lemma ReportEffect(initial: nat, s: Shared, p: Peer)
    requires SharedOk(initial, s) && PeerOk(s, p) && HolderOk(s, p) && p.checkedHeaders.Some?
    ensures HasEffect(s, p, HeadersReported(s, p), Reported)
  {
    HolderAtTip(initial, s, p);
    var t := ReportedTip(initial, s, p.checkedHeaders.value);
    assert HeadersReported(s, p) == (t, p.(checkedHeaders := None, headerRange := None));
  }

  /** Steps that have to do with filters only. */
  lemma OtherEffect(parses: Bytes -> bool, fx: seq<BlockFixture>, initial: nat, s: Shared, p: Peer, step: Step)
    requires FixtureOk(fx) && ParsesAll(parses, fx) && SharedOk(initial, s) && PeerOk(s, p)
    requires HonestChain(fx, s) && HonestPeer(fx, s, p) && HonestStep(fx, s, p, step)
    requires Undisturbed(s, p, step)
    requires !step.SyncHeadersStep? && !step.HeadersArriveStep? && !step.HeadersReportedStep?
    ensures TipHeight(s.chain) < |s.blocks| && NoEmptyBatch(s.filters)
    ensures HasEffect(s, p, PeerNext(parses, s, p, step), Nothing)
  {
    InvAllows(initial, s);
    if step.SyncFiltersStep? {
      AssignFiltersKeeps(initial, s, step.now);
    } else if step.FilterArrivesStep? && p.filterRange.Some? {
      HonestFilterAccepted(parses, fx, s, p, step.cfilter);
    } else if step.FiltersReportedStep? && p.checkedFilters.Some? {
      FiltersEffect(s, p);
    }
  }

  lemma FiltersEffect(s: Shared, p: Peer)
    requires NoEmptyBatch(s.filters) && p.checkedFilters.Some? && p.checkedFilters.value.filters != []
    ensures HasEffect(s, p, FiltersReported(s, p), Nothing)
  {
  }

  lemma PeerEffect(parses: Bytes -> bool, fx: seq<BlockFixture>, initial: nat, s: Shared, p: Peer, step: Step)
    returns (e: Effect)
    requires FixtureOk(fx) && ParsesAll(parses, fx) && SharedOk(initial, s) && PeerOk(s, p)
    requires HonestChain(fx, s) && HonestPeer(fx, s, p) && HonestStep(fx, s, p, step)
    requires Undisturbed(s, p, step) && HolderOk(s, p)
    ensures TipHeight(s.chain) < |s.blocks| && NoEmptyBatch(s.filters)
    ensures HasEffect(s, p, PeerNext(parses, s, p, step), e)
    ensures e == Answered <==> IsHeaderAnswer(p, step)
    ensures e == Asked || e == Reported ==> IsPeerStep(step)
  {
    InvAllows(initial, s);
    e := Nothing;
    match step {
      case SyncHeadersStep(id, now) => e := AskEffect(initial, s, p, id, now);
      case HeadersArriveStep(_, m) =>
        if IsAnswer(p, step) {
          HonestHeadersAccepted(fx, s, p, m);
          e := Answered;
        }
      case HeadersReportedStep(_) =>
        if p.checkedHeaders.Some? {
          ReportEffect(initial, s, p);
          e := Reported;
        }
      case _ => OtherEffect(parses, fx, initial, s, p, step);
    }
  }

  // ---------- the whole client ----------

  ghost predicate AnswerWaits(sys: System) {
    exists id :: id in sys.peers && sys.peers[id].checkedHeaders.Some?
  }

  /** After this many answers, of which at most one waits to be reported, the chain is that many rounds long. */
  ghost predicate RoundsDone(sys: System, base: nat, answers: nat) {
    exists n: nat :: answers == n + (if AnswerWaits(sys) then 1 else 0) && AfterRounds(sys.shared, base, n)
  }

  ghost predicate AfterRounds(s: Shared, base: nat, n: nat) {
    && TipHeight(s.chain) == (if base + 1100 * n < |s.blocks| then base + 1100 * n else |s.blocks| - 1)
    && (n > 0 ==> base + 1100 * (n - 1) < |s.blocks| - 1)
  }

  /** What the step of one peer does to the client. */
  lemma WithEffect(sys: System, id: nat, r: (Shared, Peer), e: Effect, base: nat, answers: nat)
    requires OneHolder(sys) && HolderOk(sys.shared, sys.PeerAt(id)) && HasEffect(sys.shared, sys.PeerAt(id), r, e)
    requires RoundsDone(sys, base, answers)
    ensures OneHolder(With(sys, id, r))
    ensures RoundsDone(With(sys, id, r), base, answers + if e == Answered then 1 else 0)
  {
    var next, p := With(sys, id, r), sys.PeerAt(id);
    var n: nat :| answers == n + (if AnswerWaits(sys) then 1 else 0) && AfterRounds(sys.shared, base, n);
    if AnswerWaits(sys) {
      var w :| w in sys.peers && sys.peers[w].checkedHeaders.Some?;
      assert w != id ==> w in next.peers && next.peers[w].checkedHeaders.Some?;
    }
    match e {
      case Nothing =>
        assert p.checkedHeaders.Some? ==> id in sys.peers;
        assert r.1.checkedHeaders.Some? ==> id in next.peers && next.peers[id].checkedHeaders.Some?;
        assert AnswerWaits(next) <==> AnswerWaits(sys);
        assert AfterRounds(next.shared, base, n);
      case Asked =>
        assert !AnswerWaits(sys) && !AnswerWaits(next);
        assert AfterRounds(next.shared, base, n);
      case Answered =>
        assert id in sys.peers && !AnswerWaits(sys);
        assert id in next.peers && AnswerWaits(next);
        assert AfterRounds(next.shared, base, n);
      case Reported =>
        assert id in sys.peers && AnswerWaits(sys) && !AnswerWaits(next);
        assert AfterRounds(next.shared, base, n + 1);
    }
  }

  lemma StepRounds(parses: Bytes -> bool, fx: seq<BlockFixture>, initial: nat, sys: System, step: Step, base: nat,
                   answers: nat)
    requires FixtureOk(fx) && ParsesAll(parses, fx) && Inv(initial, sys) && Honest(fx, initial, sys)
    requires HonestStep(fx, sys.shared, Acting(sys, step), step)
    requires Undisturbed(sys.shared, Acting(sys, step), step) && OneHolder(sys) && RoundsDone(sys, base, answers)
    ensures Next(parses, initial, sys, step).shared.blocks == sys.shared.blocks
    ensures OneHolder(Next(parses, initial, sys, step))
    ensures RoundsDone(Next(parses, initial, sys, step), base,
                       answers + if IsHeaderAnswer(Acting(sys, step), step) then 1 else 0)
  {
    ActingIsHonest(fx, initial, sys, step);
    var p := Acting(sys, step);
    assert HolderOk(sys.shared, p);
    var e := PeerEffect(parses, fx, initial, sys.shared, p, step);
    var r := PeerNext(parses, sys.shared, p, step);
    if IsPeerStep(step) {
      WithEffect(sys, step.peer, r, e, base, answers);
    } else {
      SharedOnly(sys, r, base, answers);
    }
  }

  lemma SharedOnly(sys: System, r: (Shared, Peer), base: nat, answers: nat)
    requires OneHolder(sys) && HasEffect(sys.shared, FRESH_PEER, r, Nothing) && RoundsDone(sys, base, answers)
    ensures OneHolder(sys.(shared := r.0)) && RoundsDone(sys.(shared := r.0), base, answers)
  {
    var n: nat :| answers == n + (if AnswerWaits(sys) then 1 else 0) && AfterRounds(sys.shared, base, n);
    assert AfterRounds(r.0, base, n) && (AnswerWaits(sys.(shared := r.0)) <==> AnswerWaits(sys));
  }

  lemma {:induction false} RunRounds(parses: Bytes -> bool, fx: seq<BlockFixture>, initial: nat, sys: System,
                                     steps: seq<Step>, base: nat, answers: nat)
    requires FixtureOk(fx) && ParsesAll(parses, fx) && Inv(initial, sys) && Honest(fx, initial, sys)
    requires HonestRun(parses, fx, initial, sys, steps) && UndisturbedRun(parses, initial, sys, steps)
    requires OneHolder(sys) && RoundsDone(sys, base, answers)
    ensures Run(parses, initial, sys, steps).shared.blocks == sys.shared.blocks
    ensures OneHolder(Run(parses, initial, sys, steps))
    ensures RoundsDone(Run(parses, initial, sys, steps), base, answers + HeaderAnswers(parses, initial, sys, steps))
    decreases steps
  {
    if steps != [] {
      StepKeeps(parses, initial, sys, steps[0]);
      StepRounds(parses, fx, initial, sys, steps[0], base, answers);
      StepStaysHonest(parses, fx, initial, sys, steps[0]);
      RunRounds(parses, fx, initial, Next(parses, initial, sys, steps[0]), steps[1..], base,
                answers + if IsHeaderAnswer(Acting(sys, steps[0]), steps[0]) then 1 else 0);
    }
  }

  /** Above the last block there is nothing to ask for. */
  lemma NobodyWaits(initial: nat, sys: System)
    requires Inv(initial, sys) && OneHolder(sys) && TipHeight(sys.shared.chain) == |sys.shared.blocks| - 1
    ensures !AnswerWaits(sys)
  {
    forall id | id in sys.peers
      ensures sys.peers[id].checkedHeaders.None?
    {
      assert HolderOk(sys.shared, sys.peers[id]) && PeerOk(sys.shared, sys.peers[id]);
    }
  }

  /** n missing filter headers take exactly ceil(n / 1100) answers, however many honest peers there are and however
      they interleave, as long as no header range is given up. */
  lemma HeaderAnswersExact(parses: Bytes -> bool, fx: seq<BlockFixture>, blocks: seq<ChainedBlock>,
                           chain: seq<SmartHeader>, tipHeight: nat, steps: seq<Step>)
    requires HonestStart(fx, blocks, chain, tipHeight) && ParsesAll(parses, fx)
    requires HonestRun(parses, fx, tipHeight, StartState(fx, blocks, chain, tipHeight), steps)
    requires UndisturbedRun(parses, tipHeight, StartState(fx, blocks, chain, tipHeight), steps)
    requires var s := Run(parses, tipHeight, StartState(fx, blocks, chain, tipHeight), steps).shared;
      TipHeight(s.chain) == |s.blocks| - 1
    ensures var missing := |blocks| - 1 - TipHeight(chain);
      HeaderAnswers(parses, tipHeight, StartState(fx, blocks, chain, tipHeight), steps) == (missing + 1099) / 1100
  {
    var start := StartState(fx, blocks, chain, tipHeight);
    LastIsTip(start.shared);
    assert !AnswerWaits(start) && AfterRounds(start.shared, TipHeight(chain), 0);
    RunRounds(parses, fx, tipHeight, start, steps, TipHeight(chain), 0);
    NobodyWaits(tipHeight, Run(parses, tipHeight, start, steps));
  }
}
