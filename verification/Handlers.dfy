/** The download finishes, as a statement about the calls that a client makes: ticks and received messages. */
module Handlers {
  import opened Digests
  import opened Tracking
  import opened SyncState
  import opened Peers
  import opened Protocol
  import opened Runs
  import opened Behavior
  import opened PeerServer
  import opened EndToEnd
  import opened HonestRuns
  import opened Holding
  import opened Workload
  import opened Completion

  /** A handshake or a tick makes a peer ask for ranges; a message is handled; the reader takes a batch. */
  datatype Event =
    | Ask(peer: nat, now: int)
    | Receive(peer: nat, message: Message, now: int)
    | Read

  /** The calls, as the behaviour class implements them. */
  ghost function Handle(parses: Bytes -> bool, initial: nat, sys: System, e: Event): System
    requires Inv(initial, sys)
  {
    match e
    case Ask(id, now) =>
      TrySyncKeeps(parses, initial, sys.shared, sys.PeerAt(id), now);
      With(sys, id, TrySync(sys.shared, sys.PeerAt(id), now))
    case Receive(id, m, now) =>
      With(sys, id, Received(parses, initial, sys.shared, sys.PeerAt(id), id, m, now))
    case Read => sys.(shared := Consume(sys.shared))
  }

  /** The steps that a call amounts to. */
  ghost function CallSteps(parses: Bytes -> bool, initial: nat, sys: System, e: Event): seq<Step>
    requires Inv(initial, sys)
  {
    match e
    case Ask(id, now) => [SyncHeadersStep(id, now)] + [SyncFiltersStep(id, now)]
    case Receive(id, m, now) => HandlerSteps(parses, initial, sys.shared, sys.PeerAt(id), id, m, now)
    case Read => [ConsumeStep]
  }

  /** The message is what the honest server sends for a range that the peer was asked for. */
  ghost predicate IsHonestAnswer(fx: seq<BlockFixture>, p: Peer, m: Message) {
    match m
    case CFHeadersMessage(kind, cfheaders) =>
      kind.Basic? && p.headerRange.Some? &&
      CFHeadersReply(fx, HONEST, p.headerRange.value.start, p.headerRange.value.stopHash) == Some(cfheaders)
    case CFilterMessage(kind, cfilter) =>
      kind.Basic? && p.filterRange.Some? && p.filterRange.value.start + |p.collected| < |fx| &&
      cfilter == ServedFilter(fx, HONEST, p.filterRange.value.start + |p.collected|)
    case OtherMessage => false
  }

  /** No handler is between checking and reporting. */
  ghost predicate AtRest(sys: System) {
    forall id :: id in sys.peers ==> !Reporting(sys.peers[id])
  }

  ghost predicate HonestCall(fx: seq<BlockFixture>, sys: System, e: Event) {
    match e
    case Ask(id, _) => sys.PeerAt(id).CanSync()
    case Receive(id, m, _) => id in sys.peers && sys.peers[id].CanSync() && IsHonestAnswer(fx, sys.peers[id], m)
    case Read => true
  }

  // ---------- a call is an honest, calm run ----------

  /** Reporting and asking are honest whatever the state. */
  predicate IsOwnStep(step: Step, id: nat) {
    && IsPeerStep(step) && step.peer == id
    && (step.HeadersReportedStep? || step.FiltersReportedStep? || step.SyncHeadersStep? || step.SyncFiltersStep?)
  }

  lemma KeepsConnected(parses: Bytes -> bool, s: Shared, p: Peer, step: Step)
    requires TipHeight(s.chain) < |s.blocks| && NoEmptyBatch(s.filters) && !step.DisconnectStep?
    requires p.checkedFilters.Some? ==> p.checkedFilters.value.filters != []
    ensures PeerNext(parses, s, p, step).1.connected == p.connected
  {
  }

  lemma StaysLive(parses: Bytes -> bool, fx: seq<BlockFixture>, initial: nat, sys: System, step: Step)
    requires Reached(parses, fx, initial, sys) && IsPeerStep(step) && !step.DisconnectStep?
    requires sys.PeerAt(step.peer).CanSync() && HonestStep(fx, sys.shared, Acting(sys, step), step)
    ensures Next(parses, initial, sys, step).PeerAt(step.peer).CanSync()
  {
    InvAllows(initial, sys.shared);
    KeepsConnected(parses, sys.shared, sys.PeerAt(step.peer), step);
    var r := ActingStep(parses, fx, initial, sys, step);
  }

  lemma {:induction false} OwnRun(parses: Bytes -> bool, fx: seq<BlockFixture>, initial: nat, sys: System, id: nat,
                                  steps: seq<Step>)
    requires Reached(parses, fx, initial, sys) && sys.PeerAt(id).CanSync()
    requires forall step :: step in steps ==> IsOwnStep(step, id)
    ensures HonestRun(parses, fx, initial, sys, steps) && CalmRun(parses, initial, sys, steps)
    ensures Answers(parses, initial, sys, steps) == 0
    decreases steps
  {
    if steps != [] {
      assert IsOwnStep(steps[0], id);
      OneStep(parses, fx, initial, sys, steps[0]);
      OwnRun(parses, fx, initial, Next(parses, initial, sys, steps[0]), id, steps[1..]);
    }
  }

  lemma OneStep(parses: Bytes -> bool, fx: seq<BlockFixture>, initial: nat, sys: System, step: Step)
    requires Reached(parses, fx, initial, sys) && IsPeerStep(step) && !step.DisconnectStep?
    requires sys.PeerAt(step.peer).CanSync() && HonestStep(fx, sys.shared, Acting(sys, step), step)
    ensures Inv(initial, Next(parses, initial, sys, step))
    ensures Reached(parses, fx, initial, Next(parses, initial, sys, step))
    ensures Next(parses, initial, sys, step).PeerAt(step.peer).CanSync()
  {
    StepKeeps(parses, initial, sys, step);
    StaysLive(parses, fx, initial, sys, step);
    StepStaysHonest(parses, fx, initial, sys, step);
    StepHeld(parses, initial, sys, step);
    TipGrows(fx, sys.shared, Next(parses, initial, sys, step).shared);
  }

  /** An answer, followed by what its handler does next. */
  lemma AnsweredRun(parses: Bytes -> bool, fx: seq<BlockFixture>, initial: nat, sys: System, step: Step,
                    rest: seq<Step>)
    requires Reached(parses, fx, initial, sys) && (step.HeadersArriveStep? || step.FilterArrivesStep?)
    requires HonestStep(fx, sys.shared, Acting(sys, step), step) && IsAnswer(Acting(sys, step), step)
    requires forall own :: own in rest ==> IsOwnStep(own, step.peer)
    ensures HonestRun(parses, fx, initial, sys, [step] + rest) && CalmRun(parses, initial, sys, [step] + rest)
    ensures Answers(parses, initial, sys, [step] + rest) == 1
  {
    OneStep(parses, fx, initial, sys, step);
    OwnRun(parses, fx, initial, Next(parses, initial, sys, step), step.peer, rest);
    assert ([step] + rest)[0] == step && ([step] + rest)[1..] == rest;
  }

  /** The answer as a step. */
  function ArriveStep(id: nat, m: Message): Step
    requires !m.OtherMessage?
  {
    match m
    case CFHeadersMessage(_, cfheaders) => HeadersArriveStep(id, cfheaders)
    case CFilterMessage(_, cfilter) => FilterArrivesStep(id, cfilter)
  }

  function ReportStep(id: nat, m: Message): Step {
    if m.CFHeadersMessage? then HeadersReportedStep(id) else FiltersReportedStep(id)
  }

  lemma ReceiveSteps(parses: Bytes -> bool, fx: seq<BlockFixture>, initial: nat, sys: System, id: nat, m: Message,
                     now: int)
    returns (rest: seq<Step>)
    requires Reached(parses, fx, initial, sys) && HonestCall(fx, sys, Receive(id, m, now))
    ensures CallSteps(parses, initial, sys, Receive(id, m, now)) == [ArriveStep(id, m)] + rest
    ensures rest == [] ||
      rest == [ReportStep(id, m)] + ([SyncHeadersStep(id, now)] + [SyncFiltersStep(id, now)])
  {
    var p := sys.peers[id];
    var arrived := Stepped(parses, initial, sys.shared, p, ArriveStep(id, m));
    rest := if Reporting(arrived.1)
            then [ReportStep(id, m)] + ([SyncHeadersStep(id, now)] + [SyncFiltersStep(id, now)]) else [];
    assert [ArriveStep(id, m)] + [] == [ArriveStep(id, m)];
  }

  lemma DutyNext(d: Duty, step: Step, rest: seq<Step>)
    ensures DutyAtEnd(d, [step] + rest) == DutyAtEnd(DutyAfter(d, step), rest)
  {
    assert ([step] + rest)[1..] == rest;
  }

  lemma AskDuty(id: nat, now: int, d: Duty)
    ensures DutyAtEnd(d, [SyncHeadersStep(id, now)] + [SyncFiltersStep(id, now)])
      == Duty(d.headers - {id}, d.filters - {id})
  {
    DutyNext(d, SyncHeadersStep(id, now), [SyncFiltersStep(id, now)]);
    DutyNext(DutyAfter(d, SyncHeadersStep(id, now)), SyncFiltersStep(id, now), []);
    assert [SyncFiltersStep(id, now)] + [] == [SyncFiltersStep(id, now)];
  }

  lemma ReceiveDuty(id: nat, m: Message, now: int, rest: seq<Step>)
    requires !m.OtherMessage?
    requires rest == [] || rest == [ReportStep(id, m)] + ([SyncHeadersStep(id, now)] + [SyncFiltersStep(id, now)])
    ensures DutyAtEnd(NO_DUTY, [ArriveStep(id, m)] + rest) == NO_DUTY
  {
    DutyNext(NO_DUTY, ArriveStep(id, m), rest);
    if rest != [] {
      DutyNext(NO_DUTY, ReportStep(id, m), [SyncHeadersStep(id, now)] + [SyncFiltersStep(id, now)]);
      AskDuty(id, now, DutyAfter(NO_DUTY, ReportStep(id, m)));
    }
  }

  /** Whoever has reported has asked again when the call is over. */
  lemma CallDuty(parses: Bytes -> bool, fx: seq<BlockFixture>, initial: nat, sys: System, e: Event)
    requires Reached(parses, fx, initial, sys) && HonestCall(fx, sys, e)
    ensures DutyAtEnd(NO_DUTY, CallSteps(parses, initial, sys, e)) == NO_DUTY
    ensures e.Ask? ==> DutyAtEnd(Duty({e.peer}, {e.peer}), CallSteps(parses, initial, sys, e)) == NO_DUTY
  {
    match e {
      case Ask(id, now) =>
        AskDuty(id, now, NO_DUTY);
        AskDuty(id, now, Duty({id}, {id}));
      case Receive(id, m, now) =>
        var rest := ReceiveSteps(parses, fx, initial, sys, id, m, now);
        ReceiveDuty(id, m, now, rest);
      case Read => DutyNext(NO_DUTY, ConsumeStep, []);
    }
  }

  /** The step reads the clock at `now`, if at all. */
  predicate AtTime(step: Step, now: int) {
    (step.SyncHeadersStep? || step.SyncFiltersStep?) ==> step.now == now
  }

  lemma OwnRest(id: nat, m: Message, now: int, rest: seq<Step>)
    requires rest == [] || rest == [ReportStep(id, m)] + ([SyncHeadersStep(id, now)] + [SyncFiltersStep(id, now)])
    ensures forall own :: own in rest ==> IsOwnStep(own, id) && AtTime(own, now)
  {
    assert rest == [] || rest == [ReportStep(id, m), SyncHeadersStep(id, now), SyncFiltersStep(id, now)];
  }

  lemma ArrivesAsAnswer(fx: seq<BlockFixture>, sys: System, id: nat, m: Message, now: int)
    requires AtRest(sys) && HonestCall(fx, sys, Receive(id, m, now))
    ensures var step := ArriveStep(id, m);
      && step.peer == id && (step.HeadersArriveStep? || step.FilterArrivesStep?)
      && HonestStep(fx, sys.shared, Acting(sys, step), step) && IsAnswer(Acting(sys, step), step)
  {
  }

  lemma ReceiveIsRun(parses: Bytes -> bool, fx: seq<BlockFixture>, initial: nat, sys: System, id: nat, m: Message,
                     now: int)
    returns (steps: seq<Step>)
    requires Reached(parses, fx, initial, sys) && AtRest(sys) && HonestCall(fx, sys, Receive(id, m, now))
    ensures steps == CallSteps(parses, initial, sys, Receive(id, m, now))
    ensures HonestRun(parses, fx, initial, sys, steps) && CalmRun(parses, initial, sys, steps)
    ensures Answers(parses, initial, sys, steps) == 1
  {
    var rest := ReceiveSteps(parses, fx, initial, sys, id, m, now);
    steps := [ArriveStep(id, m)] + rest;
    OwnRest(id, m, now, rest);
    ArrivesAsAnswer(fx, sys, id, m, now);
    AnsweredRun(parses, fx, initial, sys, ArriveStep(id, m), rest);
  }

  /** An honest call of a live peer is an honest, calm run with the same outcome, in which a received message is
      one answer. */
  lemma CallIsRun(parses: Bytes -> bool, fx: seq<BlockFixture>, initial: nat, sys: System, e: Event)
    returns (steps: seq<Step>)
    requires Reached(parses, fx, initial, sys) && AtRest(sys) && HonestCall(fx, sys, e)
    ensures steps == CallSteps(parses, initial, sys, e)
    ensures HonestRun(parses, fx, initial, sys, steps) && CalmRun(parses, initial, sys, steps)
    ensures Run(parses, initial, sys, steps) == Handle(parses, initial, sys, e)
    ensures Answers(parses, initial, sys, steps) == if e.Receive? then 1 else 0
  {
    steps := CallSteps(parses, initial, sys, e);
    match e {
      case Ask(id, now) =>
        OwnRun(parses, fx, initial, sys, id, [SyncHeadersStep(id, now)] + [SyncFiltersStep(id, now)]);
        SyncIsRun(parses, initial, sys, id, now);
      case Receive(id, m, now) =>
        steps := ReceiveIsRun(parses, fx, initial, sys, id, m, now);
        HandlerIsRun(parses, initial, sys, id, m, now);
      case Read =>
        ReadIsRun(parses, fx, initial, sys);
    }
  }

  lemma ReadIsRun(parses: Bytes -> bool, fx: seq<BlockFixture>, initial: nat, sys: System)
    requires Inv(initial, sys)
    ensures HonestRun(parses, fx, initial, sys, [ConsumeStep]) && CalmRun(parses, initial, sys, [ConsumeStep])
    ensures Run(parses, initial, sys, [ConsumeStep]) == sys.(shared := Consume(sys.shared))
    ensures Answers(parses, initial, sys, [ConsumeStep]) == 0
  {
    StepKeeps(parses, initial, sys, ConsumeStep);
    assert [ConsumeStep][1..] == [];
  }

  // ---------- handlers come to rest ----------

  lemma SyncRests(s: Shared, p: Peer, now: int)
    requires TipHeight(s.chain) < |s.blocks| && TipHeight(SyncHeaders(s, p, now).0.chain) < |s.blocks|
    requires SyncHeaders(s, p, now).0.blocks == s.blocks
    ensures Reporting(TrySync(s, p, now).1) == Reporting(p)
  {
  }

  /** A handler of a peer at rest ends at rest. */
  lemma HandledRests(parses: Bytes -> bool, initial: nat, s: Shared, p: Peer, arrive: Step, report: Step, now: int)
    requires SharedOk(initial, s) && PeerOk(s, p) && !Reporting(p)
    requires (arrive.HeadersArriveStep? && report.HeadersReportedStep?) ||
             (arrive.FilterArrivesStep? && report.FiltersReportedStep?)
    ensures !Reporting(Handled(parses, initial, s, p, arrive, report, now).1)
  {
    var arrived := Stepped(parses, initial, s, p, arrive);
    OneChecked(parses, initial, s, p, arrive);
    if Reporting(arrived.1) {
      var reported := Stepped(parses, initial, arrived.0, arrived.1, report);
      CheckedReported(parses, initial, arrived.0, arrived.1, report);
      TrySyncKeeps(parses, initial, reported.0, reported.1, now);
      AssignHeadersKeeps(initial, reported.0, now);
      SyncRests(reported.0, reported.1, now);
    }
  }

  lemma OneChecked(parses: Bytes -> bool, initial: nat, s: Shared, p: Peer, arrive: Step)
    requires SharedOk(initial, s) && PeerOk(s, p) && !Reporting(p)
    ensures arrive.HeadersArriveStep? ==> Stepped(parses, initial, s, p, arrive).1.checkedFilters.None?
    ensures arrive.FilterArrivesStep? ==> Stepped(parses, initial, s, p, arrive).1.checkedHeaders.None?
  {
  }

  lemma CheckedReported(parses: Bytes -> bool, initial: nat, s: Shared, p: Peer, report: Step)
    requires SharedOk(initial, s) && PeerOk(s, p)
    ensures report.HeadersReportedStep? && p.checkedFilters.None? ==>
      !Reporting(Stepped(parses, initial, s, p, report).1)
    ensures report.FiltersReportedStep? && p.checkedHeaders.None? ==>
      !Reporting(Stepped(parses, initial, s, p, report).1)
  {
  }

  lemma CallRests(parses: Bytes -> bool, initial: nat, sys: System, e: Event)
    requires Inv(initial, sys) && AtRest(sys)
    ensures AtRest(Handle(parses, initial, sys, e))
  {
    match e {
      case Ask(id, now) =>
        TrySyncKeeps(parses, initial, sys.shared, sys.PeerAt(id), now);
        AssignHeadersKeeps(initial, sys.shared, now);
        SyncRests(sys.shared, sys.PeerAt(id), now);
      case Receive(id, m, now) =>
        ReceivedRests(parses, initial, sys.shared, sys.PeerAt(id), id, m, now);
      case Read =>
    }
  }

  lemma ReceivedRests(parses: Bytes -> bool, initial: nat, s: Shared, p: Peer, id: nat, m: Message, now: int)
    requires SharedOk(initial, s) && PeerOk(s, p) && !Reporting(p)
    ensures !Reporting(Received(parses, initial, s, p, id, m, now).1)
  {
    if p.CanSync() && p.headerRange.Some? && m.CFHeadersMessage? && m.headersType.Basic? {
      HandledRests(parses, initial, s, p, HeadersArriveStep(id, m.cfheaders), HeadersReportedStep(id), now);
    } else if p.CanSync() && p.filterRange.Some? && m.CFilterMessage? && m.filterType.Basic? {
      HandledRests(parses, initial, s, p, FilterArrivesStep(id, m.cfilter), FiltersReportedStep(id), now);
    }
  }

  // ---------- sequences of calls ----------

  ghost function HandleAll(parses: Bytes -> bool, initial: nat, sys: System, calls: seq<Event>): (r: System)
    requires Inv(initial, sys)
    ensures Inv(initial, r)
    decreases |calls|
  {
    if calls == [] then sys
    else
      HandleKeeps(parses, initial, sys, calls[0]);
      HandleAll(parses, initial, Handle(parses, initial, sys, calls[0]), calls[1..])
  }

  lemma HandleKeeps(parses: Bytes -> bool, initial: nat, sys: System, e: Event)
    requires Inv(initial, sys)
    ensures Inv(initial, Handle(parses, initial, sys, e))
  {
    match e {
      case Ask(id, now) => AskKeeps(parses, initial, sys, id, now);
      case Receive(id, m, now) => ReceiveKeeps(parses, initial, sys, id, m, now);
      case Read => StepKeeps(parses, initial, sys, ConsumeStep);
    }
  }

  lemma AskKeeps(parses: Bytes -> bool, initial: nat, sys: System, id: nat, now: int)
    requires Inv(initial, sys)
    ensures Inv(initial, Handle(parses, initial, sys, Ask(id, now)))
  {
    SyncIsRun(parses, initial, sys, id, now);
    assert Inv(initial, Run(parses, initial, sys, [SyncHeadersStep(id, now)] + [SyncFiltersStep(id, now)]));
  }

  lemma ReceiveKeeps(parses: Bytes -> bool, initial: nat, sys: System, id: nat, m: Message, now: int)
    requires Inv(initial, sys)
    ensures Inv(initial, Handle(parses, initial, sys, Receive(id, m, now)))
  {
    if id in sys.peers {
      HandlerIsRun(parses, initial, sys, id, m, now);
      var steps := HandlerSteps(parses, initial, sys.shared, sys.peers[id], id, m, now);
      assert Inv(initial, Run(parses, initial, sys, steps));
    }
  }

  ghost predicate HonestCalls(parses: Bytes -> bool, fx: seq<BlockFixture>, initial: nat, sys: System,
                              calls: seq<Event>)
    requires Inv(initial, sys)
    decreases |calls|
  {
    calls == [] ||
    (HandleKeeps(parses, initial, sys, calls[0]);
     && HonestCall(fx, sys, calls[0])
     && HonestCalls(parses, fx, initial, Handle(parses, initial, sys, calls[0]), calls[1..]))
  }

  /** How many of the calls are received messages. */
  function ReceivedCount(calls: seq<Event>): nat
    decreases |calls|
  {
    if calls == [] then 0 else (if calls[0].Receive? then 1 else 0) + ReceivedCount(calls[1..])
  }

  /** How many stale ranges are given up in the calls; nothing else disturbs them. */
  ghost function GivenUp(parses: Bytes -> bool, initial: nat, sys: System, calls: seq<Event>): nat
    requires Inv(initial, sys)
    decreases |calls|
  {
    if calls == [] then 0
    else
      HandleKeeps(parses, initial, sys, calls[0]);
      Disturbances(parses, initial, sys, CallSteps(parses, initial, sys, calls[0])) +
      GivenUp(parses, initial, Handle(parses, initial, sys, calls[0]), calls[1..])
  }

  ghost predicate CallsBelow(calls: seq<Event>, n: nat) {
    forall e :: e in calls && !e.Read? ==> e.peer < n
  }

  lemma CallBelow(parses: Bytes -> bool, fx: seq<BlockFixture>, initial: nat, sys: System, e: Event, n: nat)
    requires Reached(parses, fx, initial, sys) && HonestCall(fx, sys, e) && (e.Read? || e.peer < n)
    ensures PeersBelow(CallSteps(parses, initial, sys, e), n)
  {
    if e.Receive? {
      var rest := ReceiveSteps(parses, fx, initial, sys, e.peer, e.message, e.now);
      OwnRest(e.peer, e.message, e.now, rest);
      assert ArriveStep(e.peer, e.message).peer == e.peer;
    }
  }

  /** One call: it keeps somebody at work, and a received message uses up work. */
  lemma OneCall(parses: Bytes -> bool, fx: seq<BlockFixture>, initial: nat, sys: System, e: Event, n: nat)
    returns (next: System)
    requires Reached(parses, fx, initial, sys) && AtRest(sys) && HonestCall(fx, sys, e) && (e.Read? || e.peer < n)
    ensures next == Handle(parses, initial, sys, e) && Reached(parses, fx, initial, next) && AtRest(next)
    ensures Progress(sys, NO_DUTY) || e.Ask? ==> Progress(next, NO_DUTY)
    ensures (if e.Receive? then 1 else 0) + Work(next, n)
      <= Work(sys, n) + 401 * Disturbances(parses, initial, sys, CallSteps(parses, initial, sys, e))
  {
    next := Handle(parses, initial, sys, e);
    var steps := CallIsRun(parses, fx, initial, sys, e);
    RunReaches(parses, fx, initial, sys, steps);
    CallRests(parses, initial, sys, e);
    CallDuty(parses, fx, initial, sys, e);
    CallBelow(parses, fx, initial, sys, e, n);
    AnswersBounded(parses, fx, initial, sys, steps, n);
    if Progress(sys, NO_DUTY) {
      RunProgress(parses, fx, initial, sys, NO_DUTY, steps);
    }
    if e.Ask? {
      RunProgress(parses, fx, initial, sys, Duty({e.peer}, {e.peer}), steps);
    }
  }

  lemma {:induction false} CallsProgress(parses: Bytes -> bool, fx: seq<BlockFixture>, initial: nat, sys: System,
                                         calls: seq<Event>, n: nat)
    requires Reached(parses, fx, initial, sys) && AtRest(sys) && HonestCalls(parses, fx, initial, sys, calls)
    requires Progress(sys, NO_DUTY) || (calls != [] && calls[0].Ask?)
    requires CallsBelow(calls, n)
    ensures var final := HandleAll(parses, initial, sys, calls);
      && Reached(parses, fx, initial, final) && AtRest(final) && Progress(final, NO_DUTY)
      && ReceivedCount(calls) + Work(final, n) <= Work(sys, n) + 401 * GivenUp(parses, initial, sys, calls)
    decreases |calls|
  {
    if calls != [] {
      HandleKeeps(parses, initial, sys, calls[0]);
      var next := OneCall(parses, fx, initial, sys, calls[0], n);
      CallsProgress(parses, fx, initial, next, calls[1..], n);
    }
  }

  /** The client finishes.  From any state that an honest run has led to, let a live peer ask, and let the client
      then make any calls in any order: answers of any number of honest peers, further ticks and handshakes, reads.
      Whenever no peer is left with an unanswered request, the client is complete.  And the calls that receive an
      answer are bounded by the work there was, plus one range and a header for every range given up as stale. */
  lemma CallsComplete(parses: Bytes -> bool, fx: seq<BlockFixture>, initial: nat, sys: System, calls: seq<Event>,
                      n: nat)
    requires Reached(parses, fx, initial, sys) && AtRest(sys) && HonestCalls(parses, fx, initial, sys, calls)
    requires calls != [] && calls[0].Ask? && CallsBelow(calls, n)
    ensures NobodyAsked(HandleAll(parses, initial, sys, calls)) ==>
      Complete(fx, initial, HandleAll(parses, initial, sys, calls).shared)
    ensures ReceivedCount(calls) <= Work(sys, n) + 401 * GivenUp(parses, initial, sys, calls)
  {
    CallsProgress(parses, fx, initial, sys, calls, n);
    var final := HandleAll(parses, initial, sys, calls);
    WorkPositive(initial, final, n);
    if NobodyAsked(final) {
      NothingMissing(fx, initial, final);
    }
  }

  // ---------- and there is always an answer to come ----------

  lemma HeadersAnswer(fx: seq<BlockFixture>, s: Shared, p: Peer) returns (m: Message)
    requires FixtureOk(fx) && HonestChain(fx, s) && PeerOk(s, p) && p.headerRange.Some?
    ensures IsHonestAnswer(fx, p, m)
  {
    var a := p.headerRange.value;
    ClientFindsBlock(fx, s.blocks, a.stop);
    KnownHeightOf(fx, a.stop);
    m := CFHeadersMessage(Basic, CFHeadersReply(fx, HONEST, a.start, a.stopHash).value);
  }

  lemma FilterAnswer(fx: seq<BlockFixture>, s: Shared, p: Peer) returns (m: Message)
    requires HonestChain(fx, s) && PeerOk(s, p) && p.filterRange.Some?
    ensures IsHonestAnswer(fx, p, m)
  {
    m := CFilterMessage(Basic, ServedFilter(fx, HONEST, p.filterRange.value.start + |p.collected|));
  }

  /** Whoever has been asked can answer. */
  lemma NextAnswer(parses: Bytes -> bool, fx: seq<BlockFixture>, initial: nat, sys: System, now: int)
    returns (e: Event)
    requires Reached(parses, fx, initial, sys) && !NobodyAsked(sys)
    ensures e.Receive? && e.now == now && HonestCall(fx, sys, e)
  {
    var id :| id in sys.peers && (sys.peers[id].headerRange.Some? || sys.peers[id].filterRange.Some?);
    var p := sys.peers[id];
    assert AnswersOwn(p) && PeerOk(sys.shared, p);
    var m: Message;
    if p.headerRange.Some? {
      m := HeadersAnswer(fx, sys.shared, p);
    } else {
      m := FilterAnswer(fx, sys.shared, p);
    }
    e := Receive(id, m, now);
  }

  /** The ranges that have been out for too long. */
  function StaleRanges(active: map<nat, int>, cutoff: int): set<nat> {
    set h | h in active && active[h] < cutoff
  }

  function StaleCount(s: Shared, now: int): nat {
    |StaleRanges(s.headers.active, now - HEADER_ASSIGNMENT_TIMEOUT)| +
    |StaleRanges(s.filters.active, now - FILTER_ASSIGNMENT_TIMEOUT)|
  }

  lemma FewerStale(a: map<nat, int>, b: map<nat, int>, cutoff: int)
    requires forall h :: h in b && b[h] < cutoff ==> h in a && a[h] == b[h]
    ensures |StaleRanges(b, cutoff)| <= |StaleRanges(a, cutoff)|
  {
    SubsetCardinality(StaleRanges(b, cutoff), StaleRanges(a, cutoff));
  }

  /** Giving up the oldest stale range leaves one fewer. */
  lemma GivenUpStale<R>(t: Tracker<R>, cutoff: int)
    ensures |StaleRanges(t.ReleaseStale(cutoff).active, cutoff)| + (if HasStale(t.active, cutoff) then 1 else 0)
      <= |StaleRanges(t.active, cutoff)|
  {
    if HasStale(t.active, cutoff) {
      var h :| IsOldestStale(t.active, cutoff, h) && t.ReleaseStale(cutoff) == t.Release(h);
      SubsetIsSmaller(StaleRanges(t.Release(h).active, cutoff), StaleRanges(t.active, cutoff), h);
    }
  }

  /** A step of a clock that stands still makes no range stale, and gives up only what is. */
  ghost predicate StaleOk(s: Shared, p: Peer, step: Step, t: Shared, now: int) {
    StaleCount(t, now) + Disturbance(s, p, step) <= StaleCount(s, now)
  }

  lemma SyncHeadersStale(s: Shared, p: Peer, id: nat, now: int)
    ensures StaleOk(s, p, SyncHeadersStep(id, now), SyncHeaders(s, p, now).0, now)
  {
    if p.CanSync() && p.headerRange.None? {
      var cutoff := now - HEADER_ASSIGNMENT_TIMEOUT;
      GivenUpStale(s.headers, cutoff);
      FewerStale(s.headers.ReleaseStale(cutoff).active, AssignHeaders(s, now).0.headers.active, cutoff);
    }
  }

  lemma SyncFiltersStale(s: Shared, p: Peer, id: nat, now: int)
    requires TipHeight(s.chain) < |s.blocks|
    ensures StaleOk(s, p, SyncFiltersStep(id, now), SyncFilters(s, p, now).0, now)
  {
    if p.CanSync() && p.filterRange.None? {
      var cutoff := now - FILTER_ASSIGNMENT_TIMEOUT;
      GivenUpStale(s.filters, cutoff);
      FewerStale(s.filters.ReleaseStale(cutoff).active, AssignFilters(s, now).0.filters.active, cutoff);
    }
  }

  lemma HeadersReportStale(initial: nat, s: Shared, p: Peer, now: int)
    requires SharedOk(initial, s) && PeerOk(s, p) && p.checkedHeaders.Some?
    ensures StaleCount(HeadersReported(s, p).0, now) <= StaleCount(s, now)
  {
    var t := ReportedHeaders(initial, s, p.checkedHeaders.value);
    ReportedActive(s, p.checkedHeaders.value);
    FewerStale(s.headers.active, t.headers.active, now - HEADER_ASSIGNMENT_TIMEOUT);
  }

  lemma FiltersReportStale(initial: nat, s: Shared, p: Peer, now: int)
    requires SharedOk(initial, s) && PeerOk(s, p) && p.checkedFilters.Some?
    ensures NoEmptyBatch(s.filters)
    ensures StaleCount(FiltersReported(s, p).0, now) <= StaleCount(s, now)
  {
    InvAllows(initial, s);
    ReportFiltersKeeps(initial, s, p.checkedFilters.value);
    var t := ReportFilters(s, p.checkedFilters.value);
    FewerStale(s.filters.active, t.filters.active, now - FILTER_ASSIGNMENT_TIMEOUT);
  }

  lemma PeerStale(parses: Bytes -> bool, fx: seq<BlockFixture>, initial: nat, s: Shared, p: Peer, step: Step, now: int)
    requires FixtureOk(fx) && ParsesAll(parses, fx)
    requires SharedOk(initial, s) && PeerOk(s, p) && HonestChain(fx, s) && HonestPeer(fx, s, p)
    requires HonestStep(fx, s, p, step) && AtTime(step, now)
    requires step.ConsumeStep? || (IsPeerStep(step) && !step.DisconnectStep?)
    ensures TipHeight(s.chain) < |s.blocks| && NoEmptyBatch(s.filters)
    ensures StaleOk(s, p, step, PeerNext(parses, s, p, step).0, now)
  {
    InvAllows(initial, s);
    match step {
      case SyncHeadersStep(id, _) => SyncHeadersStale(s, p, id, now);
      case SyncFiltersStep(id, _) => SyncFiltersStale(s, p, id, now);
      case HeadersReportedStep(_) =>
        if p.checkedHeaders.Some? {
          HeadersReportStale(initial, s, p, now);
        }
      case FiltersReportedStep(_) =>
        if p.checkedFilters.Some? {
          FiltersReportStale(initial, s, p, now);
        }
      case HeadersArriveStep(_, m) =>
        if IsAnswer(p, step) {
          HonestHeadersAccepted(fx, s, p, m);
        }
      case FilterArrivesStep(_, m) =>
        if IsAnswer(p, step) {
          HonestFilterAccepted(parses, fx, s, p, m);
        }
      case ConsumeStep =>
    }
  }

  lemma {:induction false} RunStale(parses: Bytes -> bool, fx: seq<BlockFixture>, initial: nat, sys: System,
                                    steps: seq<Step>, now: int)
    requires Reached(parses, fx, initial, sys)
    requires HonestRun(parses, fx, initial, sys, steps) && CalmRun(parses, initial, sys, steps)
    requires forall step :: step in steps ==> AtTime(step, now)
    ensures StaleCount(Run(parses, initial, sys, steps).shared, now) + Disturbances(parses, initial, sys, steps)
      <= StaleCount(sys.shared, now)
    decreases steps
  {
    if steps != [] {
      var step := steps[0];
      assert AtTime(step, now);
      StepKeeps(parses, initial, sys, step);
      ActingIsHonest(fx, initial, sys, step);
      PeerStale(parses, fx, initial, sys.shared, Acting(sys, step), step, now);
      StepStaysHonest(parses, fx, initial, sys, step);
      StepHeld(parses, initial, sys, step);
      TipGrows(fx, sys.shared, Next(parses, initial, sys, step).shared);
      RunStale(parses, fx, initial, Next(parses, initial, sys, step), steps[1..], now);
    }
  }

  lemma CallAt(parses: Bytes -> bool, fx: seq<BlockFixture>, initial: nat, sys: System, e: Event)
    requires Reached(parses, fx, initial, sys) && HonestCall(fx, sys, e) && e.Receive?
    ensures forall step :: step in CallSteps(parses, initial, sys, e) ==> AtTime(step, e.now)
  {
    var rest := ReceiveSteps(parses, fx, initial, sys, e.peer, e.message, e.now);
    OwnRest(e.peer, e.message, e.now, rest);
    assert AtTime(ArriveStep(e.peer, e.message), e.now);
  }

  function Potential(sys: System, n: nat, now: int): int {
    Work(sys, n) + 401 * StaleCount(sys.shared, now)
  }

  lemma CallPotential(parses: Bytes -> bool, fx: seq<BlockFixture>, initial: nat, sys: System, e: Event, n: nat)
    returns (next: System)
    requires Reached(parses, fx, initial, sys) && AtRest(sys) && HonestCall(fx, sys, e) && e.Receive? && e.peer < n
    requires Progress(sys, NO_DUTY)
    ensures next == Handle(parses, initial, sys, e) && Reached(parses, fx, initial, next) && AtRest(next)
    ensures Progress(next, NO_DUTY) && Potential(next, n, e.now) < Potential(sys, n, e.now)
  {
    next := OneCall(parses, fx, initial, sys, e, n);
    var steps := CallIsRun(parses, fx, initial, sys, e);
    CallAt(parses, fx, initial, sys, e);
    RunStale(parses, fx, initial, sys, steps, e.now);
  }

  lemma AnswerOne(parses: Bytes -> bool, fx: seq<BlockFixture>, initial: nat, sys: System, now: int, n: nat)
    returns (e: Event, next: System)
    requires Reached(parses, fx, initial, sys) && AtRest(sys) && Progress(sys, NO_DUTY) && !NobodyAsked(sys)
    requires forall id :: id in sys.peers ==> id < n
    ensures e.Receive? && e.now == now && HonestCall(fx, sys, e) && next == Handle(parses, initial, sys, e)
    ensures Reached(parses, fx, initial, next) && AtRest(next) && Progress(next, NO_DUTY)
    ensures next.peers.Keys == sys.peers.Keys
    ensures 0 <= Potential(next, n, now) < Potential(sys, n, now)
  {
    e := NextAnswer(parses, fx, initial, sys, now);
    next := CallPotential(parses, fx, initial, sys, e, n);
    SamePeers(parses, initial, sys, e);
    WorkPositive(initial, next, n);
  }

  lemma SamePeers(parses: Bytes -> bool, initial: nat, sys: System, e: Event)
    requires Inv(initial, sys) && !e.Read?
    ensures Handle(parses, initial, sys, e).peers.Keys == sys.peers.Keys + {e.peer}
  {
  }

  /** The answers that are still to come, one after the other. */
  lemma {:induction false} AnswersToCome(parses: Bytes -> bool, fx: seq<BlockFixture>, initial: nat, sys: System,
                                         now: int, n: nat)
    returns (calls: seq<Event>)
    requires Reached(parses, fx, initial, sys) && AtRest(sys) && Progress(sys, NO_DUTY)
    requires forall id :: id in sys.peers ==> id < n
    ensures HonestCalls(parses, fx, initial, sys, calls)
    ensures forall e :: e in calls ==> e.Receive? && e.now == now
    ensures NobodyAsked(HandleAll(parses, initial, sys, calls))
    ensures Complete(fx, initial, HandleAll(parses, initial, sys, calls).shared)
    decreases Potential(sys, n, now)
  {
    if NobodyAsked(sys) {
      NothingMissing(fx, initial, sys);
      calls := [];
    } else {
      var e, next := AnswerOne(parses, fx, initial, sys, now, n);
      var rest := AnswersToCome(parses, fx, initial, next, now, n);
      CallThen(parses, fx, initial, sys, e, next, rest);
      calls := [e] + rest;
    }
  }

  lemma CallThen(parses: Bytes -> bool, fx: seq<BlockFixture>, initial: nat, sys: System, e: Event, next: System,
                 rest: seq<Event>)
    requires Inv(initial, sys) && next == Handle(parses, initial, sys, e) && Inv(initial, next)
    requires HonestCall(fx, sys, e) && HonestCalls(parses, fx, initial, next, rest)
    ensures HonestCalls(parses, fx, initial, sys, [e] + rest)
    ensures HandleAll(parses, initial, sys, [e] + rest) == HandleAll(parses, initial, next, rest)
  {
    assert ([e] + rest)[0] == e && ([e] + rest)[1..] == rest;
  }

  lemma AskOnce(parses: Bytes -> bool, fx: seq<BlockFixture>, initial: nat, sys: System, id: nat, now: int, n: nat)
    returns (next: System)
    requires Reached(parses, fx, initial, sys) && AtRest(sys) && sys.PeerAt(id).CanSync()
    requires id < n && forall k :: k in sys.peers ==> k < n
    ensures next == Handle(parses, initial, sys, Ask(id, now))
    ensures Reached(parses, fx, initial, next) && AtRest(next) && Progress(next, NO_DUTY)
    ensures forall k :: k in next.peers ==> k < n
  {
    next := OneCall(parses, fx, initial, sys, Ask(id, now), n);
    SamePeers(parses, initial, sys, Ask(id, now));
  }

  /** Never stuck: after any honest run, at any time, let one live peer ask.  Then the answers to what is asked, in
      some order, bring the client to the end, and every order does, as `CallsComplete` says. */
  lemma NeverStuck(parses: Bytes -> bool, fx: seq<BlockFixture>, initial: nat, sys: System, id: nat, now: int,
                   n: nat)
    returns (calls: seq<Event>)
    requires Reached(parses, fx, initial, sys) && AtRest(sys) && sys.PeerAt(id).CanSync()
    requires id < n && forall k :: k in sys.peers ==> k < n
    ensures HonestCalls(parses, fx, initial, sys, [Ask(id, now)] + calls)
    ensures forall e :: e in calls ==> e.Receive? && e.now == now
    ensures Complete(fx, initial, HandleAll(parses, initial, sys, [Ask(id, now)] + calls).shared)
  {
    var next := AskOnce(parses, fx, initial, sys, id, now, n);
    calls := AnswersToCome(parses, fx, initial, next, now, n);
    CallThen(parses, fx, initial, sys, Ask(id, now), next, calls);
  }
}
