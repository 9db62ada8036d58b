/** Whole runs with honest peers, and what they deliver. */
module HonestRuns {
  import opened Digests
  import opened SyncState
  import opened Peers
  import opened Protocol
  import opened Runs
  import opened PeerServer
  import opened EndToEnd

  ghost function Acting(sys: System, step: Step): Peer {
    if IsPeerStep(step) then sys.PeerAt(step.peer) else FRESH_PEER
  }

  /** Every answer in the run is the honest server's, every new block the fixture's. */
  ghost predicate HonestRun(parses: Bytes -> bool, fx: seq<BlockFixture>, initial: nat, sys: System, steps: seq<Step>)
    requires Inv(initial, sys)
    decreases steps
  {
    steps == [] ||
    (StepKeeps(parses, initial, sys, steps[0]);
     && HonestStep(fx, sys.shared, Acting(sys, steps[0]), steps[0])
     && HonestRun(parses, fx, initial, Next(parses, initial, sys, steps[0]), steps[1..]))
  }

  lemma ActingIsHonest(fx: seq<BlockFixture>, initial: nat, sys: System, step: Step)
    requires Inv(initial, sys) && Honest(fx, initial, sys)
    ensures PeerOk(sys.shared, Acting(sys, step)) && HonestPeer(fx, sys.shared, Acting(sys, step))
  {
  }

  /** What the step does to the acting peer and the shared state. */
  lemma ActingStep(parses: Bytes -> bool, fx: seq<BlockFixture>, initial: nat, sys: System, step: Step)
    returns (r: (Shared, Peer))
    requires FixtureOk(fx) && ParsesAll(parses, fx) && Inv(initial, sys) && Honest(fx, initial, sys)
    requires HonestStep(fx, sys.shared, Acting(sys, step), step)
    ensures HonestShared(fx, initial, r.0) && HonestPeer(fx, r.0, r.1)
    ensures Next(parses, initial, sys, step) ==
      if IsPeerStep(step) then With(sys, step.peer, r) else sys.(shared := r.0)
  {
    ActingIsHonest(fx, initial, sys, step);
    HonestPeerNext(parses, fx, initial, sys.shared, Acting(sys, step), step);
    r := PeerNext(parses, sys.shared, Acting(sys, step), step);
  }

  lemma StepStaysHonest(parses: Bytes -> bool, fx: seq<BlockFixture>, initial: nat, sys: System, step: Step)
    requires FixtureOk(fx) && ParsesAll(parses, fx) && Inv(initial, sys) && Honest(fx, initial, sys)
    requires HonestStep(fx, sys.shared, Acting(sys, step), step)
    ensures Honest(fx, initial, Next(parses, initial, sys, step))
  {
    StepKeeps(parses, initial, sys, step);
    var r := ActingStep(parses, fx, initial, sys, step);
    forall id | id in sys.peers
      ensures HonestPeer(fx, r.0, sys.peers[id])
    {
      HonestPeerStable(fx, sys.shared, r.0, sys.peers[id]);
    }
  }

  lemma {:induction false} RunStaysHonest(parses: Bytes -> bool, fx: seq<BlockFixture>, initial: nat, sys: System,
                                          steps: seq<Step>)
    requires FixtureOk(fx) && ParsesAll(parses, fx) && Inv(initial, sys) && Honest(fx, initial, sys)
    requires HonestRun(parses, fx, initial, sys, steps)
    ensures Honest(fx, initial, Run(parses, initial, sys, steps))
    decreases steps
  {
    if steps != [] {
      StepKeeps(parses, initial, sys, steps[0]);
      StepStaysHonest(parses, fx, initial, sys, steps[0]);
      RunStaysHonest(parses, fx, initial, Next(parses, initial, sys, steps[0]), steps[1..]);
    }
  }

  /** A client that starts from the fixture's own headers. */
  ghost predicate HonestStart(fx: seq<BlockFixture>, blocks: seq<ChainedBlock>, chain: seq<SmartHeader>, tipHeight: nat)
  {
    && FixtureOk(fx) && blocks <= ClientBlocks(fx)
    && chain != [] && chain[0].height + |chain| <= |blocks|
    && (forall i :: 0 <= i < |chain| ==> chain[i] == FixtureHeader(fx, chain[0].height + i))
    && chain[0].height <= tipHeight <= TipHeight(chain)
  }

  lemma HonestStartOk(fx: seq<BlockFixture>, blocks: seq<ChainedBlock>, chain: seq<SmartHeader>, tipHeight: nat)
    requires HonestStart(fx, blocks, chain, tipHeight)
    ensures ChainOk(blocks, chain)
    ensures Inv(tipHeight, InitialSystem(blocks, chain, tipHeight))
    ensures Honest(fx, tipHeight, InitialSystem(blocks, chain, tipHeight))
  {
    forall i | 0 <= i < |chain|
      ensures HeaderOk(blocks, chain[0].height + i, chain[i])
      ensures i > 0 ==> Links(chain[i], chain[i - 1].filterHeader)
    {
      assert blocks[chain[0].height + i] == FixtureBlock(fx[chain[0].height + i]);
      assert BlockOk(fx, chain[0].height + i);
    }
    InitialOk(blocks, chain, tipHeight);
    assert InitialSystem(blocks, chain, tipHeight).shared.delivered == [];
  }

  ghost function StartState(fx: seq<BlockFixture>, blocks: seq<ChainedBlock>, chain: seq<SmartHeader>, tipHeight: nat)
    : (sys: System)
    requires HonestStart(fx, blocks, chain, tipHeight)
    ensures Inv(tipHeight, sys) && Honest(fx, tipHeight, sys)
  {
    HonestStartOk(fx, blocks, chain, tipHeight);
    InitialSystem(blocks, chain, tipHeight)
  }

  /** With honest peers, under every interleaving: the filter-header chain is the fixture's, the emitted filters
      are the fixture's from the first missing height on, and no peer is ever found invalid. */
  lemma HonestSync(parses: Bytes -> bool, fx: seq<BlockFixture>, blocks: seq<ChainedBlock>, chain: seq<SmartHeader>,
                   tipHeight: nat, steps: seq<Step>)
    requires HonestStart(fx, blocks, chain, tipHeight) && ParsesAll(parses, fx)
    requires HonestRun(parses, fx, tipHeight, StartState(fx, blocks, chain, tipHeight), steps)
    ensures var sys := Run(parses, tipHeight, StartState(fx, blocks, chain, tipHeight), steps);
      && HonestChain(fx, sys.shared)
      && HonestFilters(fx, tipHeight + 1, Emitted(sys.shared))
      && sys.shared.filters.last == tipHeight + |Emitted(sys.shared)|
      && forall id :: id in sys.peers ==> !sys.peers[id].invalid
  {
    var start := StartState(fx, blocks, chain, tipHeight);
    RunStaysHonest(parses, fx, tipHeight, start, steps);
    var sys := Run(parses, tipHeight, start, steps);
    forall id | id in sys.peers
      ensures !sys.peers[id].invalid
    {
      assert HonestPeer(fx, sys.shared, sys.peers[id]);
    }
  }
}
