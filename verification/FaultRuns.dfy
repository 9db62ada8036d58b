/** Whole runs against faulty servers of one fixture: what still holds, and what a corrupted header does for good. */
module FaultRuns {
  import opened Digests
  import opened SyncState
  import opened Peers
  import opened Protocol
  import opened Runs
  import opened PeerServer
  import opened EndToEnd
  import opened FaultEffects
  import opened HonestRuns
  import opened SyncTheorems

  /** Some server of the fixture, with some faults, answers a request for this range like this. */
  ghost predicate FromServer(fx: seq<BlockFixture>, a: RangeRequest, m: CFHeaders) {
    exists faults: Faults :: CFHeadersReply(fx, faults, a.start, a.stopHash) == Some(m)
  }

  /** Filter headers come from servers of the fixture, each with faults of its own, and new blocks are the fixture's.
      Filters come from anywhere. */
  ghost predicate FaultyStep(fx: seq<BlockFixture>, s: Shared, p: Peer, step: Step) {
    match step
    case HeadersArriveStep(_, m) => p.headerRange.Some? ==> FromServer(fx, p.headerRange.value, m)
    case BlockStep(b) => |s.blocks| < |fx| && b == FixtureBlock(fx[|s.blocks|])
    case _ => true
  }

  ghost predicate FaultyRun(parses: Bytes -> bool, fx: seq<BlockFixture>, initial: nat, sys: System, steps: seq<Step>)
    requires Inv(initial, sys)
    decreases steps
  {
    steps == [] ||
    (StepKeeps(parses, initial, sys, steps[0]);
     && FaultyStep(fx, sys.shared, Acting(sys, steps[0]), steps[0])
     && FaultyRun(parses, fx, initial, Next(parses, initial, sys, steps[0]), steps[1..]))
  }

  // ---------- what every such run keeps ----------

  /** The header hashes the fixture's filter hash at its height, or the corruption of it. */
  ghost predicate FromFixture(fx: seq<BlockFixture>, h: SmartHeader) {
    && h.height < |fx| && h.filterHeader.OfFilterHeader?
    && (h.filterHeader.filterHash == fx[h.height].filter.filterHash ||
        h.filterHeader.filterHash == CorruptHash(fx[h.height].filter.filterHash))
  }

  ghost predicate AllFromFixture(fx: seq<BlockFixture>, headers: seq<SmartHeader>) {
    forall i :: 0 <= i < |headers| ==> FromFixture(fx, headers[i])
  }

  ghost predicate KnownShared(fx: seq<BlockFixture>, s: Shared) {
    s.blocks <= ClientBlocks(fx) && AllFromFixture(fx, s.chain)
  }

  /** A validated answer stands on a header of the fixture. */
  ghost predicate KnownPeer(fx: seq<BlockFixture>, s: Shared, p: Peer) {
    p.checkedHeaders.Some? ==>
      var r := p.checkedHeaders.value;
      r.start >= 1 && RightAt(fx, s.chain, r.start - 1) && AllFromFixture(fx, r.headers)
  }

  ghost predicate Known(fx: seq<BlockFixture>, sys: System) {
    KnownShared(fx, sys.shared) && forall id :: id in sys.peers ==> KnownPeer(fx, sys.shared, sys.peers[id])
  }

  /** The last header is not the fixture's. */
  ghost predicate WrongTip(fx: seq<BlockFixture>, s: Shared) {
    !RightAt(fx, s.chain, TipHeight(s.chain))
  }

  /** A header that a served answer may continue is right: the server declares the right one or its corruption. */
  lemma DeclaredIsRight(fx: seq<BlockFixture>, faults: Faults, chain: seq<SmartHeader>, start: nat)
    requires FixtureOk(fx) && AllFromFixture(fx, chain) && 1 <= start <= |fx|
    requires PrevHeader(chain, start) == Some(ServedPrevious(fx, faults, start))
    ensures RightAt(fx, chain, start - 1)
  {
    assert BlockOk(fx, start - 1);
    assert FromFixture(fx, chain[start - 1 - chain[0].height]);
  }

  lemma DerivedFromFixture(fx: seq<BlockFixture>, faults: Faults, blocks: seq<ChainedBlock>, start: nat, count: nat,
                           prev: Digest)
    requires start + count <= |blocks| && start + count <= |fx|
    ensures AllFromFixture(fx, DerivedHeaders(blocks, start, ServedHashes(fx, faults, start, count), prev))
  {
    var hashes := ServedHashes(fx, faults, start, count);
    forall i | 0 <= i < count
      ensures FromFixture(fx, DerivedHeaders(blocks, start, hashes, prev)[i])
    {
      DerivedLink(prev, hashes, i);
      assert hashes[i] == ServedHash(fx, faults, start + i);
    }
  }

  lemma AcceptedKnown(fx: seq<BlockFixture>, s: Shared, a: RangeRequest, m: CFHeaders)
    requires FixtureOk(fx) && KnownShared(fx, s) && a.start >= 1 && m.hashes != [] && FromServer(fx, a, m)
    requires CheckedHeaders(s.blocks, s.chain, a.start, m.hashes, m.prevFilterHeader).Some?
    ensures RightAt(fx, s.chain, a.start - 1)
    ensures AllFromFixture(fx, CheckedHeaders(s.blocks, s.chain, a.start, m.hashes, m.prevFilterHeader).value)
  {
    var faults: Faults :| CFHeadersReply(fx, faults, a.start, a.stopHash) == Some(m);
    DeclaredIsRight(fx, faults, s.chain, a.start);
    assert m.hashes == ServedHashes(fx, faults, a.start, |m.hashes|);
    DerivedFromFixture(fx, faults, s.blocks, a.start, |m.hashes|, m.prevFilterHeader);
  }

  lemma ArrivedIsChecked(s: Shared, p: Peer, m: CFHeaders)
    requires p.headerRange.Some?
    ensures var a := p.headerRange.value; var q := HeadersArrive(s, p, m).1;
      var checked := CheckedHeaders(s.blocks, s.chain, a.start, m.hashes, m.prevFilterHeader);
      q.checkedHeaders == p.checkedHeaders ||
      (m.hashes != [] && checked.Some? && q.checkedHeaders == Some(HeaderResponse(a.start, checked.value)))
  {
  }

  lemma AnswerKnown(fx: seq<BlockFixture>, s: Shared, p: Peer, m: CFHeaders)
    requires FixtureOk(fx) && KnownShared(fx, s) && KnownPeer(fx, s, p)
    requires p.headerRange.Some? && p.headerRange.value.start >= 1 && FromServer(fx, p.headerRange.value, m)
    ensures KnownPeer(fx, s, HeadersArrive(s, p, m).1)
  {
    var a := p.headerRange.value;
    ArrivedIsChecked(s, p, m);
    if m.hashes != [] && CheckedHeaders(s.blocks, s.chain, a.start, m.hashes, m.prevFilterHeader).Some? {
      AcceptedKnown(fx, s, a, m);
    }
  }

  /** A reported answer is appended to a right tip or not at all. */
  lemma ReportKnown(fx: seq<BlockFixture>, initial: nat, s: Shared, p: Peer)
    requires SharedOk(initial, s) && PeerOk(s, p) && KnownShared(fx, s) && KnownPeer(fx, s, p)
    requires p.checkedHeaders.Some?
    ensures KnownShared(fx, HeadersReported(s, p).0) && KnownPeer(fx, HeadersReported(s, p).0, HeadersReported(s, p).1)
    ensures WrongTip(fx, s) ==> HeadersReported(s, p).0.chain == s.chain
  {
    ReportHeadersExact(initial, s, p.checkedHeaders.value);
  }

  ghost predicate KnownNext(fx: seq<BlockFixture>, s: Shared, r: (Shared, Peer)) {
    KnownShared(fx, r.0) && KnownPeer(fx, r.0, r.1) && (WrongTip(fx, s) ==> r.0.chain == s.chain)
  }

  /** Any other step leaves the chain and the validated answer alone. */
  lemma QuietStep(parses: Bytes -> bool, s: Shared, p: Peer, step: Step)
    requires TipHeight(s.chain) < |s.blocks| && NoEmptyBatch(s.filters)
    requires p.checkedFilters.Some? ==> p.checkedFilters.value.filters != []
    requires !step.HeadersArriveStep? && !step.HeadersReportedStep? && !step.FiltersReportedStep?
    ensures var r := PeerNext(parses, s, p, step);
      && r.0.chain == s.chain && r.1.checkedHeaders == p.checkedHeaders
      && r.0.blocks == if step.BlockStep? then s.blocks + [step.block] else s.blocks
  {
  }

  lemma ArriveQuiet(s: Shared, p: Peer, m: CFHeaders)
    requires p.headerRange.Some?
    ensures HeadersArrive(s, p, m).0.chain == s.chain && HeadersArrive(s, p, m).0.blocks == s.blocks
  {
  }

  lemma StaysKnown(fx: seq<BlockFixture>, s: Shared, p: Peer, r: (Shared, Peer))
    requires KnownShared(fx, s) && KnownPeer(fx, s, p)
    requires r.0.chain == s.chain && r.0.blocks <= ClientBlocks(fx)
    requires r.1.checkedHeaders == p.checkedHeaders || KnownPeer(fx, s, r.1)
    ensures KnownNext(fx, s, r)
  {
  }

  lemma PeerNextKnown(parses: Bytes -> bool, fx: seq<BlockFixture>, initial: nat, s: Shared, p: Peer, step: Step)
    requires FixtureOk(fx) && SharedOk(initial, s) && PeerOk(s, p) && KnownShared(fx, s) && KnownPeer(fx, s, p)
    requires FaultyStep(fx, s, p, step)
    ensures TipHeight(s.chain) < |s.blocks| && NoEmptyBatch(s.filters)
    ensures KnownNext(fx, s, PeerNext(parses, s, p, step))
  {
    InvAllows(initial, s);
    StaysKnown(fx, s, p, (s, p));
    match step {
      case HeadersReportedStep(_) =>
        if p.checkedHeaders.Some? {
          ReportKnown(fx, initial, s, p);
        }
      case HeadersArriveStep(_, m) =>
        if p.headerRange.Some? {
          AnswerKnown(fx, s, p, m);
          ArriveQuiet(s, p, m);
          StaysKnown(fx, s, p, HeadersArrive(s, p, m));
        }
      case FiltersReportedStep(_) =>
        if p.checkedFilters.Some? {
          ReportFiltersKeeps(initial, s, p.checkedFilters.value);
          StaysKnown(fx, s, p, FiltersReported(s, p));
        }
      case _ =>
        QuietStep(parses, s, p, step);
        StaysKnown(fx, s, p, PeerNext(parses, s, p, step));
    }
  }

  lemma ActingKnown(parses: Bytes -> bool, fx: seq<BlockFixture>, initial: nat, sys: System, step: Step)
    returns (r: (Shared, Peer))
    requires FixtureOk(fx) && Inv(initial, sys) && Known(fx, sys)
    requires FaultyStep(fx, sys.shared, Acting(sys, step), step)
    ensures KnownNext(fx, sys.shared, r)
    ensures Next(parses, initial, sys, step) ==
      if IsPeerStep(step) then With(sys, step.peer, r) else sys.(shared := r.0)
  {
    PeerNextKnown(parses, fx, initial, sys.shared, Acting(sys, step), step);
    r := PeerNext(parses, sys.shared, Acting(sys, step), step);
  }

  lemma OtherStaysKnown(fx: seq<BlockFixture>, s: Shared, t: Shared, p: Peer)
    requires KnownPeer(fx, s, p) && s.chain <= t.chain
    ensures KnownPeer(fx, t, p)
  {
  }

  lemma StepKnown(parses: Bytes -> bool, fx: seq<BlockFixture>, initial: nat, sys: System, step: Step)
    requires FixtureOk(fx) && Inv(initial, sys) && Known(fx, sys)
    requires FaultyStep(fx, sys.shared, Acting(sys, step), step)
    ensures Known(fx, Next(parses, initial, sys, step))
    ensures WrongTip(fx, sys.shared) ==> Next(parses, initial, sys, step).shared.chain == sys.shared.chain
  {
    var r := ActingKnown(parses, fx, initial, sys, step);
    assert sys.shared.chain <= r.0.chain by {
      StepKeeps(parses, initial, sys, step);
    }
    forall id | id in sys.peers
      ensures KnownPeer(fx, r.0, sys.peers[id])
    {
      OtherStaysKnown(fx, sys.shared, r.0, sys.peers[id]);
    }
  }

  lemma {:induction false} RunKnown(parses: Bytes -> bool, fx: seq<BlockFixture>, initial: nat, sys: System,
                                    steps: seq<Step>)
    requires FixtureOk(fx) && Inv(initial, sys) && Known(fx, sys) && FaultyRun(parses, fx, initial, sys, steps)
    ensures Known(fx, Run(parses, initial, sys, steps))
    ensures WrongTip(fx, sys.shared) ==> Run(parses, initial, sys, steps).shared.chain == sys.shared.chain
    decreases steps
  {
    if steps != [] {
      StepKeeps(parses, initial, sys, steps[0]);
      StepKnown(parses, fx, initial, sys, steps[0]);
      RunKnown(parses, fx, initial, Next(parses, initial, sys, steps[0]), steps[1..]);
    }
  }

  lemma StartKnown(fx: seq<BlockFixture>, blocks: seq<ChainedBlock>, chain: seq<SmartHeader>, tipHeight: nat)
    requires HonestStart(fx, blocks, chain, tipHeight)
    ensures Known(fx, StartState(fx, blocks, chain, tipHeight))
    ensures RightAt(fx, chain, tipHeight)
  {
    forall i | 0 <= i < |chain|
      ensures FromFixture(fx, chain[i])
    {
      assert BlockOk(fx, chain[0].height + i);
    }
    assert At(chain, tipHeight) == Some(FixtureHeader(fx, tipHeight));
  }

  // ---------- nothing wrong is ever emitted ----------

  /** The chain commits to these filters from a height on. */
  ghost predicate CommitsAt(chain: seq<SmartHeader>, h: nat, f: FilterModel) {
    && f.header.height == h && Commits(chain, h, f.filter) && At(chain, h).value.height == h
  }

  ghost predicate CommitsAll(chain: seq<SmartHeader>, from: nat, filters: seq<FilterModel>) {
    forall i :: 0 <= i < |filters| ==> CommitsAt(chain, from + i, filters[i])
  }

  lemma EmittedCommitted(initial: nat, s: Shared)
    requires SharedOk(initial, s)
    ensures s.filters.last == initial + |Emitted(s)|
    ensures CommitsAll(s.chain, initial + 1, Emitted(s))
  {
    forall i | 0 <= i < |Emitted(s)|
      ensures CommitsAt(s.chain, initial + 1 + i, Emitted(s)[i])
    {
      assert FilterOk(s, initial + 1 + i, Emitted(s)[i]);
      HeightAt(s, initial + 1 + i);
    }
  }

  lemma HeightAt(s: Shared, h: nat)
    requires ChainOk(s.blocks, s.chain) && At(s.chain, h).Some?
    ensures At(s.chain, h).value.height == h
  {
    assert HeaderOk(s.blocks, s.chain[0].height + (h - s.chain[0].height), s.chain[h - s.chain[0].height]);
  }

  /** Above a right header, a header that commits to some filter is right and commits to the fixture's. */
  lemma NextRight(fx: seq<BlockFixture>, chain: seq<SmartHeader>, h: nat, f: FilterModel)
    requires FixtureOk(fx) && AllFromFixture(fx, chain)
    requires h > 0 && RightAt(fx, chain, h - 1) && CommitsAt(chain, h, f)
    ensures RightAt(fx, chain, h) && f.filter == fx[h].filter.bytes
  {
    assert FromFixture(fx, chain[h - chain[0].height]);
    assert BlockOk(fx, h);
  }

  lemma {:induction false} CommittedRight(fx: seq<BlockFixture>, chain: seq<SmartHeader>, initial: nat,
                                          filters: seq<FilterModel>, k: nat)
    requires FixtureOk(fx) && AllFromFixture(fx, chain) && RightAt(fx, chain, initial)
    requires CommitsAll(chain, initial + 1, filters) && k <= |filters|
    ensures RightAt(fx, chain, initial + k)
    ensures k > 0 ==> filters[k - 1].header.height == initial + k
    ensures k > 0 ==> filters[k - 1].filter == fx[initial + k].filter.bytes
  {
    if k > 0 {
      CommittedRight(fx, chain, initial, filters, k - 1);
      assert CommitsAt(chain, initial + 1 + (k - 1), filters[k - 1]);
      NextRight(fx, chain, initial + k, filters[k - 1]);
    }
  }

  /** Whatever faults the servers inject, and wherever the filters come from: every filter that the client emits has
      the fixture's bytes, and every filter header up to the last processed height is the fixture's. */
  lemma FaultyRunsEmitRight(parses: Bytes -> bool, fx: seq<BlockFixture>, blocks: seq<ChainedBlock>,
                            chain: seq<SmartHeader>, tipHeight: nat, steps: seq<Step>)
    requires HonestStart(fx, blocks, chain, tipHeight)
    requires FaultyRun(parses, fx, tipHeight, StartState(fx, blocks, chain, tipHeight), steps)
    ensures var s := Run(parses, tipHeight, StartState(fx, blocks, chain, tipHeight), steps).shared;
      && s.filters.last == tipHeight + |Emitted(s)| && s.filters.last < |fx|
      && (forall i :: 0 <= i < |Emitted(s)| ==>
            Emitted(s)[i].header.height == tipHeight + 1 + i &&
            Emitted(s)[i].filter == fx[tipHeight + 1 + i].filter.bytes)
      && (forall h: nat :: tipHeight <= h <= s.filters.last ==> RightAt(fx, s.chain, h))
  {
    var s := FaultyReached(parses, fx, blocks, chain, tipHeight, steps);
    AllEmittedRight(fx, tipHeight, s);
  }

  lemma FaultyReached(parses: Bytes -> bool, fx: seq<BlockFixture>, blocks: seq<ChainedBlock>,
                      chain: seq<SmartHeader>, tipHeight: nat, steps: seq<Step>)
    returns (s: Shared)
    requires HonestStart(fx, blocks, chain, tipHeight)
    requires FaultyRun(parses, fx, tipHeight, StartState(fx, blocks, chain, tipHeight), steps)
    ensures s == Run(parses, tipHeight, StartState(fx, blocks, chain, tipHeight), steps).shared
    ensures SharedOk(tipHeight, s) && KnownShared(fx, s) && RightAt(fx, s.chain, tipHeight)
  {
    var start := StartState(fx, blocks, chain, tipHeight);
    StartKnown(fx, blocks, chain, tipHeight);
    RunKnown(parses, fx, tipHeight, start, steps);
    s := Run(parses, tipHeight, start, steps).shared;
    assert start.shared.chain <= s.chain by {
      RunGrows(parses, tipHeight, start, steps);
    }
    RightStays(fx, chain, s.chain, tipHeight);
  }

  lemma RightStays(fx: seq<BlockFixture>, chain: seq<SmartHeader>, later: seq<SmartHeader>, h: nat)
    requires chain <= later && RightAt(fx, chain, h)
    ensures RightAt(fx, later, h)
  {
  }

  lemma AllEmittedRight(fx: seq<BlockFixture>, initial: nat, s: Shared)
    requires FixtureOk(fx) && SharedOk(initial, s) && KnownShared(fx, s) && RightAt(fx, s.chain, initial)
    ensures s.filters.last == initial + |Emitted(s)| && s.filters.last < |fx|
    ensures forall i :: 0 <= i < |Emitted(s)| ==>
      Emitted(s)[i].header.height == initial + 1 + i && Emitted(s)[i].filter == fx[initial + 1 + i].filter.bytes
    ensures forall h: nat :: initial <= h <= s.filters.last ==> RightAt(fx, s.chain, h)
  {
    EmittedCommitted(initial, s);
    AllCommittedRight(fx, s.chain, initial, Emitted(s));
  }

  lemma AllCommittedRight(fx: seq<BlockFixture>, chain: seq<SmartHeader>, initial: nat, filters: seq<FilterModel>)
    requires FixtureOk(fx) && AllFromFixture(fx, chain) && RightAt(fx, chain, initial)
    requires CommitsAll(chain, initial + 1, filters)
    ensures initial + |filters| < |fx|
    ensures forall i :: 0 <= i < |filters| ==>
      filters[i].header.height == initial + 1 + i && filters[i].filter == fx[initial + 1 + i].filter.bytes
    ensures forall h: nat :: initial <= h <= initial + |filters| ==> RightAt(fx, chain, h)
  {
    CommittedRight(fx, chain, initial, filters, |filters|);
    forall i | 0 <= i < |filters|
      ensures filters[i].header.height == initial + 1 + i && filters[i].filter == fx[initial + 1 + i].filter.bytes
    {
      CommittedRight(fx, chain, initial, filters, i + 1);
    }
    forall h: nat | initial <= h <= initial + |filters|
      ensures RightAt(fx, chain, h)
    {
      CommittedRight(fx, chain, initial, filters, h - initial);
    }
  }

  // ---------- a wrong tip is final ----------

  /** The header at this height hashes the fixture's filter hash, not a corruption of it. */
  ghost predicate RightHashAt(fx: seq<BlockFixture>, chain: seq<SmartHeader>, h: nat) {
    && h < |fx| && At(chain, h).Some? && At(chain, h).value.filterHeader.OfFilterHeader?
    && At(chain, h).value.filterHeader.filterHash == fx[h].filter.filterHash
  }

  lemma RightAbove(fx: seq<BlockFixture>, s: Shared, h: nat)
    requires FixtureOk(fx) && ChainOk(s.blocks, s.chain) && h > 0
    requires At(s.chain, h - 1).Some? && At(s.chain, h).Some?
    ensures RightAt(fx, s.chain, h) <==> RightAt(fx, s.chain, h - 1) && RightHashAt(fx, s.chain, h)
  {
    assert Links(s.chain[h - s.chain[0].height], s.chain[h - s.chain[0].height - 1].filterHeader);
    if h < |fx| {
      assert BlockOk(fx, h);
    }
  }

  /** A header is right exactly if no filter hash up to it was corrupted. */
  lemma {:induction false} RightIff(fx: seq<BlockFixture>, initial: nat, s: Shared, h: nat)
    requires FixtureOk(fx) && ChainOk(s.blocks, s.chain) && RightAt(fx, s.chain, initial)
    requires initial <= h && At(s.chain, h).Some?
    ensures RightAt(fx, s.chain, h) <==> forall k: nat :: initial < k <= h ==> RightHashAt(fx, s.chain, k)
    decreases h - initial
  {
    if h > initial {
      RightIff(fx, initial, s, h - 1);
      RightAbove(fx, s, h);
    }
  }

  /** The last header is wrong exactly if some header above the start hashes a corrupted filter hash. */
  lemma WrongTipIff(fx: seq<BlockFixture>, initial: nat, s: Shared)
    requires FixtureOk(fx) && SharedOk(initial, s) && RightAt(fx, s.chain, initial)
    ensures WrongTip(fx, s) <==>
      exists h: nat :: initial < h <= TipHeight(s.chain) && !RightHashAt(fx, s.chain, h)
  {
    assert HeaderOk(s.blocks, s.chain[0].height + |s.chain| - 1, s.chain[|s.chain| - 1]);
    RightIff(fx, initial, s, TipHeight(s.chain));
  }

  /** One corrupted filter hash in an accepted answer stops the client for good.  Once the last filter header is not
      the fixture's, no server of the fixture, honest or not, ever extends the chain, and no filter from that header's
      height on is ever emitted. */
  lemma WrongTipIsFinal(parses: Bytes -> bool, fx: seq<BlockFixture>, initial: nat, sys: System, steps: seq<Step>)
    requires FixtureOk(fx) && Inv(initial, sys) && Known(fx, sys) && RightAt(fx, sys.shared.chain, initial)
    requires WrongTip(fx, sys.shared) && FaultyRun(parses, fx, initial, sys, steps)
    ensures var s := Run(parses, initial, sys, steps).shared;
      s.chain == sys.shared.chain && s.filters.last < TipHeight(s.chain)
  {
    RunKnown(parses, fx, initial, sys, steps);
    var s := Run(parses, initial, sys, steps).shared;
    AllEmittedRight(fx, initial, s);
    LastBelowTip(initial, s);
  }

  lemma LastBelowTip(initial: nat, s: Shared)
    requires SharedOk(initial, s) && At(s.chain, s.filters.last).Some?
    ensures s.filters.last <= TipHeight(s.chain)
  {
    assert HeaderOk(s.blocks, s.chain[0].height + |s.chain| - 1, s.chain[|s.chain| - 1]);
  }
}
