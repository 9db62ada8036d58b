/** What the reader of the channel is handed, over whole runs. */
module Reader {
  import opened Digests
  import opened SyncState
  import opened Peers
  import opened Protocol
  import opened Runs
  import opened SyncTheorems
  import opened Behavior
  import opened Handlers

  function JoinAll(batches: seq<seq<FilterModel>>): seq<FilterModel> {
    if batches == [] then [] else batches[0] + JoinAll(batches[1..])
  }

  lemma {:induction false} JoinConcat(a: seq<seq<FilterModel>>, b: seq<seq<FilterModel>>)
    ensures JoinAll(a + b) == JoinAll(a) + JoinAll(b)
  {
    if a == [] {
      assert a + b == b;
    } else {
      assert (a + b)[1..] == a[1..] + b;
      JoinConcat(a[1..], b);
    }
  }

  lemma {:induction false} FlattenConcat(a: seq<FilterResponse>, b: seq<FilterResponse>)
    ensures Flatten(a + b) == Flatten(a) + Flatten(b)
  {
    if b == [] {
      assert a + b == a;
    } else {
      assert (a + b)[..|a + b| - 1] == a + b[..|b| - 1];
      FlattenConcat(a, b[..|b| - 1]);
    }
  }

  /** The batches that the reads of a run return, in order. */
  ghost function Reads(parses: Bytes -> bool, initial: nat, sys: System, steps: seq<Step>): seq<seq<FilterModel>>
    requires Inv(initial, sys)
    decreases steps
  {
    if steps == [] then []
    else
      StepKeeps(parses, initial, sys, steps[0]);
      ReadBy(sys.shared, steps[0]) + Reads(parses, initial, Next(parses, initial, sys, steps[0]), steps[1..])
  }

  function ReadBy(s: Shared, step: Step): seq<seq<FilterModel>> {
    if step.ConsumeStep? && NextBatch(s).Some? then [NextBatch(s).value] else []
  }

  /** Only reads take anything from the channel. */
  lemma DeliveredStays(parses: Bytes -> bool, s: Shared, p: Peer, step: Step)
    requires TipHeight(s.chain) < |s.blocks| && NoEmptyBatch(s.filters) && !step.ConsumeStep?
    requires p.checkedFilters.Some? ==> p.checkedFilters.value.filters != []
    ensures PeerNext(parses, s, p, step).0.delivered == s.delivered
  {
  }

  /** From one state to another the reader has been handed these batches. */
  ghost predicate Handed(s: Shared, t: Shared, batches: seq<seq<FilterModel>>) {
    Flatten(t.delivered) == Flatten(s.delivered) + JoinAll(batches)
  }

  lemma HandedThen(s: Shared, t: Shared, u: Shared, a: seq<seq<FilterModel>>, b: seq<seq<FilterModel>>)
    requires Handed(s, t, a) && Handed(t, u, b)
    ensures Handed(s, u, a + b)
  {
    JoinConcat(a, b);
  }

  lemma HandedFirst(s: Shared, t: Shared, batches: seq<seq<FilterModel>>)
    requires s.delivered == [] && Handed(s, t, batches)
    ensures Flatten(t.delivered) == JoinAll(batches)
  {
  }

  lemma ConsumedIsRead(s: Shared)
    ensures Handed(s, Consume(s), ReadBy(s, ConsumeStep))
  {
    if s.ready != [] {
      FlattenConcat(s.delivered, [s.ready[0]]);
      assert Flatten([s.ready[0]]) == Flatten([]) + s.ready[0].filters;
      assert [s.ready[0].filters][1..] == [];
    }
  }

  lemma StepReads(parses: Bytes -> bool, initial: nat, sys: System, step: Step)
    requires Inv(initial, sys)
    ensures Handed(sys.shared, Next(parses, initial, sys, step).shared, ReadBy(sys.shared, step))
  {
    InvAllows(initial, sys.shared);
    if step.ConsumeStep? {
      ConsumedIsRead(sys.shared);
    } else {
      var p := if IsPeerStep(step) then sys.PeerAt(step.peer) else FRESH_PEER;
      DeliveredStays(parses, sys.shared, p, step);
    }
  }

  lemma {:induction false} RunReads(parses: Bytes -> bool, initial: nat, sys: System, steps: seq<Step>)
    requires Inv(initial, sys)
    ensures Handed(sys.shared, Run(parses, initial, sys, steps).shared, Reads(parses, initial, sys, steps))
    decreases steps
  {
    if steps != [] {
      var next := ReadsSplit(parses, initial, sys, steps);
      StepReads(parses, initial, sys, steps[0]);
      RunReads(parses, initial, next, steps[1..]);
      HandedThen(sys.shared, next.shared, Run(parses, initial, next, steps[1..]).shared,
                 ReadBy(sys.shared, steps[0]), Reads(parses, initial, next, steps[1..]));
    }
  }

  lemma ReadsSplit(parses: Bytes -> bool, initial: nat, sys: System, steps: seq<Step>) returns (next: System)
    requires Inv(initial, sys) && steps != []
    ensures next == Next(parses, initial, sys, steps[0]) && Inv(initial, next)
    ensures Run(parses, initial, sys, steps) == Run(parses, initial, next, steps[1..])
    ensures Reads(parses, initial, sys, steps) ==
      ReadBy(sys.shared, steps[0]) + Reads(parses, initial, next, steps[1..])
  {
    StepKeeps(parses, initial, sys, steps[0]);
    next := Next(parses, initial, sys, steps[0]);
  }

  /** A reader that has been handed everything delivered has got what was emitted first. */
  lemma ReadIsPrefix(initial: nat, s: Shared, read: seq<FilterModel>)
    requires EmittedOk(initial, s) && Flatten(s.delivered) == read
    ensures read + Flatten(s.ready) == Emitted(s)
    ensures forall i :: 0 <= i < |read| ==> read[i].header.height == initial + 1 + i
  {
    FlattenConcat(s.delivered, s.ready);
    forall i | 0 <= i < |read|
      ensures read[i].header.height == initial + 1 + i
    {
      assert Emitted(s)[i] == read[i];
      assert FilterOk(s, initial + 1 + i, Emitted(s)[i]);
    }
  }

  /** Everything that was delivered has been read. */
  lemma ReachReads(parses: Bytes -> bool, blocks: seq<ChainedBlock>, chain: seq<SmartHeader>, tipHeight: nat,
                   steps: seq<Step>)
    returns (start: System, sys: System)
    requires ChainOk(blocks, chain)
    ensures start == InitialSystem(blocks, chain, tipHeight) && Inv(tipHeight, start)
    ensures sys == Reach(parses, blocks, chain, tipHeight, steps) && Inv(tipHeight, sys)
    ensures Flatten(sys.shared.delivered) == JoinAll(Reads(parses, tipHeight, start, steps))
  {
    InitialOk(blocks, chain, tipHeight);
    start := InitialSystem(blocks, chain, tipHeight);
    sys := Reach(parses, blocks, chain, tipHeight, steps);
    RunReads(parses, tipHeight, start, steps);
    HandedFirst(start.shared, sys.shared, Reads(parses, tipHeight, start, steps));
  }

  /** First in, first out, and nothing twice: over every run, the batches that the reads have returned, joined in
      order, and then what still waits in the channel, are exactly what was emitted.  So the reader gets one filter
      for each height, from the first missing height on, in order. */
  lemma ReadsAreEmitted(parses: Bytes -> bool, blocks: seq<ChainedBlock>, chain: seq<SmartHeader>, tipHeight: nat,
                        steps: seq<Step>)
    requires ChainOk(blocks, chain)
    ensures Inv(tipHeight, InitialSystem(blocks, chain, tipHeight))
    ensures var s := Reach(parses, blocks, chain, tipHeight, steps).shared;
      var read := JoinAll(Reads(parses, tipHeight, InitialSystem(blocks, chain, tipHeight), steps));
      && read + Flatten(s.ready) == Emitted(s)
      && forall i :: 0 <= i < |read| ==> read[i].header.height == tipHeight + 1 + i
  {
    var start, sys := ReachReads(parses, blocks, chain, tipHeight, steps);
    ReadIsPrefix(tipHeight, sys.shared, JoinAll(Reads(parses, tipHeight, start, steps)));
  }

  // ---------- reading everything ----------

  function Consumes(n: nat): seq<Step> {
    if n == 0 then [] else [ConsumeStep] + Consumes(n - 1)
  }

  function BatchFilters(batches: seq<FilterResponse>): seq<seq<FilterModel>> {
    seq(|batches|, i requires 0 <= i < |batches| => batches[i].filters)
  }

  /** As many reads as there are batches return them all, oldest first, and leave the channel empty. */
  lemma {:induction false} ReadsCatchUp(parses: Bytes -> bool, initial: nat, sys: System)
    requires Inv(initial, sys)
    ensures Reads(parses, initial, sys, Consumes(|sys.shared.ready|)) == BatchFilters(sys.shared.ready)
    ensures Run(parses, initial, sys, Consumes(|sys.shared.ready|)).shared.ready == []
    decreases |sys.shared.ready|
  {
    if sys.shared.ready != [] {
      var next := ReadOne(parses, initial, sys, Consumes(|sys.shared.ready| - 1));
      ReadsCatchUp(parses, initial, next);
    }
  }

  /** One more read before others. */
  lemma ReadOne(parses: Bytes -> bool, initial: nat, sys: System, rest: seq<Step>) returns (next: System)
    requires Inv(initial, sys) && sys.shared.ready != []
    ensures Inv(initial, next) && next.shared.ready == sys.shared.ready[1..]
    ensures Run(parses, initial, sys, [ConsumeStep] + rest) == Run(parses, initial, next, rest)
    ensures Reads(parses, initial, sys, [ConsumeStep] + rest) ==
      [sys.shared.ready[0].filters] + Reads(parses, initial, next, rest)
    ensures BatchFilters(sys.shared.ready) == [sys.shared.ready[0].filters] + BatchFilters(sys.shared.ready[1..])
  {
    assert ([ConsumeStep] + rest)[1..] == rest;
    next := ReadsSplit(parses, initial, sys, [ConsumeStep] + rest);
  }

  // ---------- the same for the client's calls ----------

  /** The batches that the reads among the calls return, in order. */
  ghost function CallReads(parses: Bytes -> bool, initial: nat, sys: System, calls: seq<Event>)
    : seq<seq<FilterModel>>
    requires Inv(initial, sys)
    decreases |calls|
  {
    if calls == [] then []
    else
      HandleKeeps(parses, initial, sys, calls[0]);
      ReadByCall(sys.shared, calls[0]) +
      CallReads(parses, initial, Handle(parses, initial, sys, calls[0]), calls[1..])
  }

  lemma {:induction false} NoReads(parses: Bytes -> bool, initial: nat, sys: System, steps: seq<Step>)
    requires Inv(initial, sys) && forall step :: step in steps ==> !step.ConsumeStep?
    ensures Reads(parses, initial, sys, steps) == []
    decreases steps
  {
    if steps != [] {
      StepKeeps(parses, initial, sys, steps[0]);
      NoReads(parses, initial, Next(parses, initial, sys, steps[0]), steps[1..]);
    }
  }

  function ReadByCall(s: Shared, e: Event): seq<seq<FilterModel>> {
    if e.Read? then ReadBy(s, ConsumeStep) else []
  }

  lemma SilentRun(parses: Bytes -> bool, initial: nat, sys: System, steps: seq<Step>)
    requires Inv(initial, sys) && forall step :: step in steps ==> !step.ConsumeStep?
    ensures Flatten(Run(parses, initial, sys, steps).shared.delivered) == Flatten(sys.shared.delivered)
  {
    NoReads(parses, initial, sys, steps);
    RunReads(parses, initial, sys, steps);
  }

  lemma AskReads(parses: Bytes -> bool, initial: nat, sys: System, id: nat, now: int)
    requires Inv(initial, sys)
    ensures Flatten(Handle(parses, initial, sys, Ask(id, now)).shared.delivered) == Flatten(sys.shared.delivered)
  {
    SyncIsRun(parses, initial, sys, id, now);
    SilentRun(parses, initial, sys, [SyncHeadersStep(id, now)] + [SyncFiltersStep(id, now)]);
  }

  lemma HandlerIsSilent(parses: Bytes -> bool, initial: nat, s: Shared, p: Peer, id: nat, m: Message, now: int)
    requires SharedOk(initial, s) && PeerOk(s, p)
    ensures forall step :: step in HandlerSteps(parses, initial, s, p, id, m, now) ==> !step.ConsumeStep?
  {
  }

  lemma ReceiveReads(parses: Bytes -> bool, initial: nat, sys: System, id: nat, m: Message, now: int)
    requires Inv(initial, sys)
    ensures Flatten(Handle(parses, initial, sys, Receive(id, m, now)).shared.delivered) == Flatten(sys.shared.delivered)
  {
    if id in sys.peers {
      HandlerIsRun(parses, initial, sys, id, m, now);
      HandlerIsSilent(parses, initial, sys.shared, sys.peers[id], id, m, now);
      SilentRun(parses, initial, sys, HandlerSteps(parses, initial, sys.shared, sys.peers[id], id, m, now));
    }
  }

  lemma HandleReads(parses: Bytes -> bool, initial: nat, sys: System, e: Event)
    requires Inv(initial, sys)
    ensures Handed(sys.shared, Handle(parses, initial, sys, e).shared, ReadByCall(sys.shared, e))
  {
    match e {
      case Ask(id, now) => AskReads(parses, initial, sys, id, now);
      case Receive(id, m, now) => ReceiveReads(parses, initial, sys, id, m, now);
      case Read => ConsumedIsRead(sys.shared);
    }
  }

  lemma {:induction false} CallsRead(parses: Bytes -> bool, initial: nat, sys: System, calls: seq<Event>)
    requires Inv(initial, sys)
    ensures Handed(sys.shared, HandleAll(parses, initial, sys, calls).shared, CallReads(parses, initial, sys, calls))
    decreases |calls|
  {
    if calls != [] {
      var next := CallsSplit(parses, initial, sys, calls);
      HandleReads(parses, initial, sys, calls[0]);
      CallsRead(parses, initial, next, calls[1..]);
      HandedThen(sys.shared, next.shared, HandleAll(parses, initial, next, calls[1..]).shared,
                 ReadByCall(sys.shared, calls[0]), CallReads(parses, initial, next, calls[1..]));
    }
  }

  lemma CallsSplit(parses: Bytes -> bool, initial: nat, sys: System, calls: seq<Event>) returns (next: System)
    requires Inv(initial, sys) && calls != []
    ensures next == Handle(parses, initial, sys, calls[0]) && Inv(initial, next)
    ensures HandleAll(parses, initial, sys, calls) == HandleAll(parses, initial, next, calls[1..])
    ensures CallReads(parses, initial, sys, calls) ==
      ReadByCall(sys.shared, calls[0]) + CallReads(parses, initial, next, calls[1..])
  {
    HandleKeeps(parses, initial, sys, calls[0]);
    next := Handle(parses, initial, sys, calls[0]);
  }

  /** The same over any calls of the client, from whatever state a run has led to. */
  lemma CallReadsAreEmitted(parses: Bytes -> bool, blocks: seq<ChainedBlock>, chain: seq<SmartHeader>,
                            tipHeight: nat, steps: seq<Step>, calls: seq<Event>)
    requires ChainOk(blocks, chain)
    ensures Inv(tipHeight, InitialSystem(blocks, chain, tipHeight))
    ensures var sys := Reach(parses, blocks, chain, tipHeight, steps);
      var final := HandleAll(parses, tipHeight, sys, calls).shared;
      JoinAll(Reads(parses, tipHeight, InitialSystem(blocks, chain, tipHeight), steps)
              + CallReads(parses, tipHeight, sys, calls)) + Flatten(final.ready) == Emitted(final)
  {
    var start, sys := ReachReads(parses, blocks, chain, tipHeight, steps);
    CallsRead(parses, tipHeight, sys, calls);
    var early, late := Reads(parses, tipHeight, start, steps), CallReads(parses, tipHeight, sys, calls);
    JoinConcat(early, late);
    ReadIsPrefix(tipHeight, HandleAll(parses, tipHeight, sys, calls).shared, JoinAll(early + late));
  }
}
