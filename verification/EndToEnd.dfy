/** The client and the simulated peer together: with honest peers the client ends up with the fixture, exactly. */
module EndToEnd {
  import opened Digests
  import opened SyncState
  import opened Peers
  import opened Protocol
  import opened PeerServer

  // ---------- the fixture as the client sees it ----------

  function FixtureBlock(b: BlockFixture): ChainedBlock {
    ChainedBlock(b.block.Hash(), b.block.header.time)
  }

  ghost function ClientBlocks(fx: seq<BlockFixture>): seq<ChainedBlock> {
    seq(|fx|, i requires 0 <= i < |fx| => FixtureBlock(fx[i]))
  }

  function FixtureHeader(fx: seq<BlockFixture>, h: nat): SmartHeader
    requires h < |fx|
  {
    SmartHeader(fx[h].block.Hash(), fx[h].filter.filterHeader, h, fx[h].block.header.time)
  }

  function FixtureFilter(fx: seq<BlockFixture>, h: nat): FilterModel
    requires h < |fx|
  {
    FilterModel(FixtureHeader(fx, h), fx[h].filter.bytes)
  }

  lemma ClientFindsBlock(fx: seq<BlockFixture>, blocks: seq<ChainedBlock>, h: nat)
    requires FixtureOk(fx) && blocks <= ClientBlocks(fx) && h < |blocks|
    ensures blocks[h].hash == fx[h].block.Hash()
    ensures FindBlock(blocks, blocks[h].hash) == Some(h)
  {
    var r := FindBlock(blocks, blocks[h].hash);
    assert forall i :: 0 <= i < |blocks| ==> blocks[i] == FixtureBlock(fx[i]);
    if r.Some? {
      HashesDiffer(fx, r.value, h);
    }
  }

  // ---------- honest states ----------

  ghost predicate HonestChain(fx: seq<BlockFixture>, s: Shared) {
    && s.blocks <= ClientBlocks(fx)
    && s.chain != [] && s.chain[0].height + |s.chain| <= |s.blocks|
    && forall i :: 0 <= i < |s.chain| ==> s.chain[i] == FixtureHeader(fx, s.chain[0].height + i)
  }

  /** These are the fixture's filters from height `start` on. */
  ghost predicate HonestFilters(fx: seq<BlockFixture>, start: nat, filters: seq<FilterModel>) {
    && (filters == [] || start + |filters| <= |fx|)
    && forall i :: 0 <= i < |filters| ==> filters[i] == FixtureFilter(fx, start + i)
  }

  ghost predicate HonestBatch(fx: seq<BlockFixture>, r: FilterResponse) {
    HonestFilters(fx, r.start, r.filters)
  }

  ghost predicate HonestShared(fx: seq<BlockFixture>, initial: nat, s: Shared) {
    && HonestChain(fx, s)
    && s.chain[0].height <= initial <= s.filters.last
    && (forall h :: h in s.filters.pending ==> HonestBatch(fx, s.filters.pending[h]))
    && HonestFilters(fx, initial + 1, Emitted(s))
  }

  ghost predicate HonestPeer(fx: seq<BlockFixture>, s: Shared, p: Peer) {
    && !p.invalid
    && (p.headerRange.Some? ==> HeaderRangeServable(s, p.headerRange.value))
    && (p.filterRange.Some? ==>
          && FilterRangeServable(s, p.filterRange.value)
          && p.filterRange.value.stop < |fx|
          && CollectedHonest(fx, p.filterRange.value.start, p.collected))
    && (p.checkedHeaders.Some? ==> HonestHeaders(fx, p.checkedHeaders.value))
    && (p.checkedFilters.Some? ==> HonestBatch(fx, p.checkedFilters.value))
  }

  ghost predicate HeaderRangeServable(s: Shared, a: RangeRequest) {
    a.start >= 1 && At(s.chain, a.start - 1).Some? && a.Count() <= HEADERS_PER_REQUEST
  }

  ghost predicate FilterRangeServable(s: Shared, a: RangeRequest) {
    1 <= a.start <= a.stop <= TipHeight(s.chain) && At(s.chain, a.start - 1).Some?
  }

  ghost predicate CollectedHonest(fx: seq<BlockFixture>, start: nat, collected: seq<CFilter>) {
    && (collected == [] || start + |collected| <= |fx|)
    && forall i :: 0 <= i < |collected| ==> collected[i] == ServedFilter(fx, HONEST, start + i)
  }

  ghost predicate HonestHeaders(fx: seq<BlockFixture>, r: HeaderResponse) {
    && (r.headers == [] || r.start + |r.headers| <= |fx|)
    && forall i :: 0 <= i < |r.headers| ==> r.headers[i] == FixtureHeader(fx, r.start + i)
  }

  ghost predicate Honest(fx: seq<BlockFixture>, initial: nat, sys: System) {
    HonestShared(fx, initial, sys.shared) && forall id :: id in sys.peers ==> HonestPeer(fx, sys.shared, sys.peers[id])
  }

  /** Peers answer as the honest server does; new blocks are the fixture's.  Everything else is free. */
  ghost predicate HonestStep(fx: seq<BlockFixture>, s: Shared, p: Peer, step: Step) {
    match step
    case HeadersArriveStep(_, m) =>
      p.headerRange.Some? ==>
        CFHeadersReply(fx, HONEST, p.headerRange.value.start, p.headerRange.value.stopHash) == Some(m)
    case FilterArrivesStep(_, m) =>
      p.filterRange.Some? ==>
        var h := p.filterRange.value.start + |p.collected|;
        h < |fx| && m == ServedFilter(fx, HONEST, h)
    case BlockStep(b) => |s.blocks| < |fx| && b == FixtureBlock(fx[|s.blocks|])
    case _ => true
  }

  ghost predicate ParsesAll(parses: Bytes -> bool, fx: seq<BlockFixture>) {
    forall h :: 0 <= h < |fx| ==> parses(fx[h].filter.bytes)
  }

  // ---------- honest headers ----------

  lemma HonestAt(fx: seq<BlockFixture>, s: Shared, h: nat)
    requires HonestChain(fx, s) && At(s.chain, h).Some?
    ensures h < |s.blocks| <= |fx| && At(s.chain, h).value == FixtureHeader(fx, h)
    ensures PrevHeader(s.chain, h + 1) == Some(FilterHeaderBelow(fx, h + 1))
  {
    assert s.chain[h - s.chain[0].height] == FixtureHeader(fx, s.chain[0].height + (h - s.chain[0].height));
  }

  lemma HonestDerived(fx: seq<BlockFixture>, blocks: seq<ChainedBlock>, start: nat, count: nat)
    requires FixtureOk(fx) && blocks <= ClientBlocks(fx) && 1 <= start && start + count <= |blocks| && count > 0
    ensures HonestHeaders(fx, HeaderResponse(start,
              DerivedHeaders(blocks, start, ServedHashes(fx, HONEST, start, count), FilterHeaderBelow(fx, start))))
  {
    var hashes := ServedHashes(fx, HONEST, start, count);
    var hs := DerivedHeaders(blocks, start, hashes, FilterHeaderBelow(fx, start));
    forall i | 0 <= i < |hs|
      ensures start + i < |fx| && hs[i] == FixtureHeader(fx, start + i)
    {
      assert hashes[..i + 1] == ServedHashes(fx, HONEST, start, i + 1);
      HashesLeadTo(fx, start, i + 1);
      assert blocks[start + i] == FixtureBlock(fx[start + i]);
    }
  }

  /** What the honest server sends for a range that the client asks for. */
  lemma HonestReply(fx: seq<BlockFixture>, s: Shared, a: RangeRequest, m: CFHeaders)
    requires FixtureOk(fx) && HonestChain(fx, s) && RangeOk(s, a) && HeaderRangeServable(s, a)
    requires CFHeadersReply(fx, HONEST, a.start, a.stopHash) == Some(m)
    ensures a.stop < |s.blocks| <= |fx| && FindBlock(s.blocks, m.stopHash) == Some(a.stop)
    ensures m.hashes == ServedHashes(fx, HONEST, a.start, a.Count()) && |m.hashes| == a.Count()
    ensures PrevHeader(s.chain, a.start) == Some(m.prevFilterHeader)
    ensures m.prevFilterHeader == FilterHeaderBelow(fx, a.start)
  {
    ClientFindsBlock(fx, s.blocks, a.stop);
    KnownHeightOf(fx, a.stop);
    HonestAt(fx, s, a.start - 1);
    assert a.start !in HONEST.emptyCFHeaders && a.start !in HONEST.corruptPrevFilterHeader;
  }

  /** An honest cfheaders answer is never cut short and always accepted. */
  lemma HonestHeadersAccepted(fx: seq<BlockFixture>, s: Shared, p: Peer, m: CFHeaders)
    requires FixtureOk(fx) && HonestChain(fx, s) && HonestPeer(fx, s, p) && PeerOk(s, p)
    requires p.headerRange.Some? && HonestStep(fx, s, p, HeadersArriveStep(0, m))
    ensures var (t, q) := HeadersArrive(s, p, m); var a := p.headerRange.value;
      && t == s && HonestPeer(fx, s, q)
      && q == p.(checkedHeaders := q.checkedHeaders) && q.checkedHeaders.Some?
      && q.checkedHeaders.value.start == a.start && |q.checkedHeaders.value.headers| == a.Count()
  {
    var a := p.headerRange.value;
    HonestReply(fx, s, a, m);
    HonestDerived(fx, s.blocks, a.start, a.Count());
    var r := HeaderResponse(a.start, DerivedHeaders(s.blocks, a.start, m.hashes, m.prevFilterHeader));
    assert HeadersArrive(s, p, m) == (s, p.(checkedHeaders := Some(r)));
  }

  // ---------- honest filters ----------

  lemma HonestCommits(fx: seq<BlockFixture>, s: Shared, h: nat)
    requires FixtureOk(fx) && HonestChain(fx, s) && h >= 1
    requires At(s.chain, h).Some? && At(s.chain, h - 1).Some?
    ensures h < |fx| && Commits(s.chain, h, fx[h].filter.bytes)
  {
    HonestAt(fx, s, h);
    HonestAt(fx, s, h - 1);
    assert BlockOk(fx, h);
  }

  lemma InRange(fx: seq<BlockFixture>, s: Shared, a: RangeRequest, h: nat)
    requires HonestChain(fx, s) && FilterRangeServable(s, a) && a.start <= h <= a.stop
    ensures At(s.chain, h).Some? && At(s.chain, h - 1).Some?
  {
    assert s.chain[|s.chain| - 1] == FixtureHeader(fx, s.chain[0].height + (|s.chain| - 1));
  }

  lemma HonestFits(parses: Bytes -> bool, fx: seq<BlockFixture>, s: Shared, a: RangeRequest, h: nat)
    requires FixtureOk(fx) && ParsesAll(parses, fx) && HonestChain(fx, s) && FilterRangeServable(s, a)
    requires a.start <= h <= a.stop
    ensures h < |s.blocks| <= |fx| && At(s.chain, h).Some?
    ensures ServedFilter(fx, HONEST, h) == CFilter(fx[h].block.Hash(), fx[h].filter.bytes)
    ensures FilterFits(parses, s.blocks, s.chain, h, fx[h].filter.bytes)
    ensures FilterModelAt(s.blocks, s.chain, h, ServedFilter(fx, HONEST, h)) == FixtureFilter(fx, h)
  {
    InRange(fx, s, a, h);
    HonestAt(fx, s, h);
    HonestCommits(fx, s, h);
    assert h !in HONEST.corruptCFilters && h !in HONEST.wrongCFilterBlockHash;
    assert s.blocks[h] == FixtureBlock(fx[h]);
  }

  lemma HonestRangeFits(parses: Bytes -> bool, fx: seq<BlockFixture>, s: Shared, a: RangeRequest,
                        batch: seq<CFilter>)
    requires FixtureOk(fx) && ParsesAll(parses, fx) && HonestChain(fx, s) && FilterRangeServable(s, a)
    requires 0 < |batch| <= a.Count() && CollectedHonest(fx, a.start, batch)
    ensures RangeFits(parses, s.blocks, s.chain, a.start, batch)
  {
    forall i | 0 <= i < |batch|
      ensures FilterFits(parses, s.blocks, s.chain, a.start + i, batch[i].bytes)
    {
      HonestFits(parses, fx, s, a, a.start + i);
      assert batch[i] == ServedFilter(fx, HONEST, a.start + i);
    }
  }

  lemma CheckedAt(parses: Bytes -> bool, blocks: seq<ChainedBlock>, chain: seq<SmartHeader>, start: nat,
                  payloads: seq<CFilter>)
    returns (r: seq<FilterModel>)
    requires payloads != [] && RangeFits(parses, blocks, chain, start, payloads)
    ensures CheckedFilters(parses, blocks, chain, start, payloads) == Some(r) && |r| == |payloads|
    ensures forall i :: 0 <= i < |r| ==>
      FilterFits(parses, blocks, chain, start + i, payloads[i].bytes) &&
      r[i] == FilterModelAt(blocks, chain, start + i, payloads[i])
  {
    r := CheckedFilters(parses, blocks, chain, start, payloads).value;
  }

  lemma HonestBatchAccepted(parses: Bytes -> bool, fx: seq<BlockFixture>, s: Shared, a: RangeRequest,
                            batch: seq<CFilter>)
    requires FixtureOk(fx) && ParsesAll(parses, fx) && HonestChain(fx, s) && FilterRangeServable(s, a)
    requires 0 < |batch| <= a.Count() && CollectedHonest(fx, a.start, batch)
    ensures var r := CheckedFilters(parses, s.blocks, s.chain, a.start, batch);
      r.Some? && HonestFilters(fx, a.start, r.value)
  {
    HonestRangeFits(parses, fx, s, a, batch);
    var r := CheckedAt(parses, s.blocks, s.chain, a.start, batch);
    forall i | 0 <= i < |r|
      ensures a.start + i < |fx| && r[i] == FixtureFilter(fx, a.start + i)
    {
      HonestFits(parses, fx, s, a, a.start + i);
      assert batch[i] == ServedFilter(fx, HONEST, a.start + i);
    }
  }

  /** The stop hash is seen at the end of the range, and not before. */
  lemma StopHashAtEnd(fx: seq<BlockFixture>, s: Shared, a: RangeRequest, h: nat)
    requires FixtureOk(fx) && HonestChain(fx, s) && RangeOk(s, a) && a.start <= h <= a.stop
    ensures h < |fx|
    ensures ServedFilter(fx, HONEST, h).blockHash == a.stopHash <==> h == a.stop
  {
    assert h !in HONEST.wrongCFilterBlockHash;
    ClientFindsBlock(fx, s.blocks, a.stop);
    if fx[h].block.Hash() == fx[a.stop].block.Hash() {
      HashesDiffer(fx, h, a.stop);
    }
  }

  /** Honest cfilters are collected to the end of the range, and the batch is accepted. */
  lemma HonestCollected(parses: Bytes -> bool, fx: seq<BlockFixture>, s: Shared, p: Peer, m: CFilter)
    returns (batch: seq<CFilter>, filters: seq<FilterModel>)
    requires FixtureOk(fx) && ParsesAll(parses, fx) && HonestChain(fx, s) && HonestPeer(fx, s, p) && PeerOk(s, p)
    requires p.filterRange.Some? && HonestStep(fx, s, p, FilterArrivesStep(0, m))
    ensures batch == p.collected + [m] && CollectedHonest(fx, p.filterRange.value.start, batch)
    ensures var a := p.filterRange.value;
      if |batch| < a.Count() then FilterArrives(parses, s, p, m) == (s, p.(collected := batch))
      else
        && |filters| == |batch| == a.Count() && HonestFilters(fx, a.start, filters)
        && FilterArrives(parses, s, p, m)
           == (s, p.(collected := [], checkedFilters := Some(FilterResponse(a.start, filters))))
  {
    var a := p.filterRange.value;
    batch, filters := p.collected + [m], [];
    StopHashAtEnd(fx, s, a, a.start + |p.collected|);
    if |batch| >= a.Count() {
      HonestBatchAccepted(parses, fx, s, a, batch);
      filters := CheckedFilters(parses, s.blocks, s.chain, a.start, batch).value;
    }
  }

  lemma HonestFilterAccepted(parses: Bytes -> bool, fx: seq<BlockFixture>, s: Shared, p: Peer, m: CFilter)
    requires FixtureOk(fx) && ParsesAll(parses, fx) && HonestChain(fx, s) && HonestPeer(fx, s, p) && PeerOk(s, p)
    requires p.filterRange.Some? && HonestStep(fx, s, p, FilterArrivesStep(0, m))
    ensures var (t, q) := FilterArrives(parses, s, p, m); var a := p.filterRange.value;
      && t == s && HonestPeer(fx, s, q)
      && (if |p.collected| + 1 < a.Count() then q == p.(collected := p.collected + [m])
          else && q == p.(collected := [], checkedFilters := q.checkedFilters) && q.checkedFilters.Some?
               && q.checkedFilters.value.start == a.start && |q.checkedFilters.value.filters| == a.Count())
  {
    var batch, filters := HonestCollected(parses, fx, s, p, m);
  }

  // ---------- honesty is kept ----------

  lemma HonestPeerStable(fx: seq<BlockFixture>, s: Shared, t: Shared, p: Peer)
    requires HonestChain(fx, s) && HonestChain(fx, t) && Grows(s, t) && HonestPeer(fx, s, p)
    ensures HonestPeer(fx, t, p)
  {
    assert s.chain[|s.chain| - 1] == FixtureHeader(fx, s.chain[0].height + (|s.chain| - 1));
    assert t.chain[|t.chain| - 1] == FixtureHeader(fx, t.chain[0].height + (|t.chain| - 1));
  }

  lemma HonestSharedStable(fx: seq<BlockFixture>, initial: nat, s: Shared, t: Shared)
    requires HonestShared(fx, initial, s)
    requires t.blocks == s.blocks && t.chain == s.chain && t.filters.last == s.filters.last
    requires t.delivered + t.ready == s.delivered + s.ready
    requires forall h :: h in t.filters.pending ==>
      h in s.filters.pending && t.filters.pending[h] == s.filters.pending[h]
    ensures HonestShared(fx, initial, t)
  {
    assert Emitted(t) == Emitted(s);
  }

  lemma HonestTip(fx: seq<BlockFixture>, s: Shared)
    requires HonestChain(fx, s)
    ensures TipHeight(s.chain) == s.chain[0].height + |s.chain| - 1
  {
    assert s.chain[|s.chain| - 1] == FixtureHeader(fx, s.chain[0].height + (|s.chain| - 1));
  }

  lemma HonestExtends(fx: seq<BlockFixture>, s: Shared, t: Shared, r: HeaderResponse)
    requires HonestChain(fx, s) && HonestHeaders(fx, r)
    requires r.start == s.chain[0].height + |s.chain|
    requires t.blocks == s.blocks && t.chain == s.chain + r.headers
    requires t.chain[0].height + |t.chain| <= |t.blocks|
    ensures HonestChain(fx, t)
  {
    forall i | 0 <= i < |t.chain|
      ensures t.chain[i] == FixtureHeader(fx, t.chain[0].height + i)
    {
      if i >= |s.chain| {
        assert r.headers[i - |s.chain|] == FixtureHeader(fx, r.start + (i - |s.chain|));
      }
    }
  }

  lemma ReportedHeaders(initial: nat, s: Shared, r: HeaderResponse) returns (t: Shared)
    requires SharedOk(initial, s) && CheckedOk(s, r)
    ensures t == ReportHeaders(s, r)
    ensures SharedOk(initial, t) && t.blocks == s.blocks && t.filters == s.filters
    ensures t.ready == s.ready && t.delivered == s.delivered
    ensures t.chain == (if r.start == s.headers.last + 1 then s.chain + r.headers else s.chain)
    ensures t.chain != [] && t.chain[0].height + |t.chain| <= |t.blocks|
  {
    t := ReportHeaders(s, r);
    ReportHeadersExact(initial, s, r);
  }

  lemma HonestReportHeaders(fx: seq<BlockFixture>, initial: nat, s: Shared, r: HeaderResponse)
    requires SharedOk(initial, s) && CheckedOk(s, r) && HonestShared(fx, initial, s) && HonestHeaders(fx, r)
    ensures HonestShared(fx, initial, ReportHeaders(s, r))
  {
    var t := ReportedHeaders(initial, s, r);
    HonestChainReported(fx, s, t, r);
    HonestWithChain(fx, initial, s, t);
  }

  lemma HonestChainReported(fx: seq<BlockFixture>, s: Shared, t: Shared, r: HeaderResponse)
    requires HeadersOk(s) && HonestChain(fx, s) && HonestHeaders(fx, r)
    requires t.blocks == s.blocks
    requires t.chain == (if r.start == s.headers.last + 1 then s.chain + r.headers else s.chain)
    requires t.chain != [] && t.chain[0].height + |t.chain| <= |t.blocks|
    ensures HonestChain(fx, t)
  {
    if r.start == s.headers.last + 1 {
      HonestTip(fx, s);
      HonestExtends(fx, s, t, r);
    }
  }

  lemma HonestWithChain(fx: seq<BlockFixture>, initial: nat, s: Shared, t: Shared)
    requires HonestShared(fx, initial, s) && HonestChain(fx, t) && s.chain <= t.chain
    requires t.filters == s.filters && t.delivered == s.delivered && t.ready == s.ready
    ensures HonestShared(fx, initial, t)
  {
    assert Emitted(t) == Emitted(s);
    assert t.chain[0] == s.chain[0];
  }

  lemma HonestAppend(fx: seq<BlockFixture>, start: nat, a: seq<FilterModel>, b: seq<FilterModel>)
    requires HonestFilters(fx, start, a) && HonestFilters(fx, start + |a|, b)
    ensures HonestFilters(fx, start, a + b)
  {
    forall i | 0 <= i < |a + b|
      ensures (a + b)[i] == FixtureFilter(fx, start + i)
    {
      if i >= |a| {
        assert b[i - |a|] == FixtureFilter(fx, start + |a| + (i - |a|));
      }
    }
  }

  ghost predicate Drainable(initial: nat, s: Shared) {
    && NoEmptyBatch(s.filters)
    && (forall h :: h in s.filters.pending ==> s.filters.pending[h].start == h)
    && s.filters.last == initial + |Emitted(s)|
  }

  lemma HonestDrainOnce(fx: seq<BlockFixture>, initial: nat, s: Shared)
    requires Drainable(initial, s) && HonestShared(fx, initial, s) && s.filters.last + 1 in s.filters.pending
    ensures Drainable(initial, DrainedOnce(s)) && HonestShared(fx, initial, DrainedOnce(s))
    ensures |DrainedOnce(s).filters.pending| < |s.filters.pending|
    ensures DrainFilters(s.filters, s.ready) == DrainFilters(DrainedOnce(s).filters, DrainedOnce(s).ready)
  {
    var r := s.filters.pending[s.filters.last + 1];
    assert HonestBatch(fx, r);
    assert r.filters[|r.filters| - 1] == FixtureFilter(fx, r.start + (|r.filters| - 1));
    DrainedAppends(s, r);
    TakeShrinks(s.filters, s.filters.last + 1);
    HonestAppend(fx, initial + 1, Emitted(s), r.filters);
  }

  lemma DrainedAppends(s: Shared, r: FilterResponse)
    requires s.filters.last + 1 in s.filters.pending && r == s.filters.pending[s.filters.last + 1] && r.filters != []
    ensures Emitted(DrainedOnce(s)) == Emitted(s) + r.filters
  {
    assert DrainedOnce(s).delivered + DrainedOnce(s).ready == s.delivered + s.ready + [r];
    FlattenAppend(s.delivered + s.ready, r);
  }

  lemma {:induction false} HonestDrain(fx: seq<BlockFixture>, initial: nat, s: Shared)
    requires Drainable(initial, s) && HonestShared(fx, initial, s)
    ensures var (f, q) := DrainFilters(s.filters, s.ready);
      HonestShared(fx, initial, s.(filters := f, ready := q))
    decreases |s.filters.pending|
  {
    if s.filters.last + 1 in s.filters.pending {
      HonestDrainOnce(fx, initial, s);
      HonestDrain(fx, initial, DrainedOnce(s));
    }
  }

  lemma HonestReportFilters(fx: seq<BlockFixture>, initial: nat, s: Shared, r: FilterResponse)
    requires SharedOk(initial, s) && BatchOk(s, r) && AheadOk(s, r.start)
    requires HonestShared(fx, initial, s) && HonestBatch(fx, r)
    ensures NoEmptyBatch(s.filters)
    ensures HonestShared(fx, initial, ReportFilters(s, r))
  {
    var u := s.(filters := s.filters.Report(r.start, r));
    ReportReady(initial, s, r);
    assert Emitted(u) == Emitted(s);
    HonestDrain(fx, initial, u);
  }

  lemma HonestSyncHeaders(fx: seq<BlockFixture>, initial: nat, s: Shared, p: Peer, now: int)
    requires SharedOk(initial, s) && HonestShared(fx, initial, s) && HonestPeer(fx, s, p)
    ensures var (t, q) := SyncHeaders(s, p, now); HonestShared(fx, initial, t) && HonestPeer(fx, t, q)
  {
    AssignHeadersKeeps(initial, s, now);
    AssignedServable(s, now);
    var t := AssignHeaders(s, now).0;
    HonestSharedStable(fx, initial, s, t);
    HonestPeerStable(fx, s, t, p);
  }

  lemma AssignedServable(s: Shared, now: int)
    ensures var (t, a) := AssignHeaders(s, now); a.Some? ==> HeaderRangeServable(t, a.value)
  {
  }

  lemma HonestSyncFilters(fx: seq<BlockFixture>, initial: nat, s: Shared, p: Peer, now: int)
    requires SharedOk(initial, s) && HonestShared(fx, initial, s) && HonestPeer(fx, s, p)
    ensures TipHeight(s.chain) < |s.blocks|
    ensures var (t, q) := SyncFilters(s, p, now); HonestShared(fx, initial, t) && HonestPeer(fx, t, q)
  {
    AssignFiltersKeeps(initial, s, now);
    StaleReleaseShrinks(s.filters, now - FILTER_ASSIGNMENT_TIMEOUT);
    var (t, a) := AssignFilters(s, now);
    HonestSharedStable(fx, initial, s, t);
    HonestPeerStable(fx, s, t, p);
    assert s.chain[|s.chain| - 1] == FixtureHeader(fx, s.chain[0].height + (|s.chain| - 1));
  }

  lemma HonestArrives(parses: Bytes -> bool, fx: seq<BlockFixture>, initial: nat, s: Shared, p: Peer, step: Step)
    requires FixtureOk(fx) && ParsesAll(parses, fx)
    requires SharedOk(initial, s) && PeerOk(s, p) && HonestShared(fx, initial, s) && HonestPeer(fx, s, p)
    requires HonestStep(fx, s, p, step)
    requires step.SyncHeadersStep? || step.SyncFiltersStep? || step.HeadersArriveStep? || step.FilterArrivesStep?
    ensures TipHeight(s.chain) < |s.blocks| && NoEmptyBatch(s.filters)
    ensures var (t, q) := PeerNext(parses, s, p, step); HonestShared(fx, initial, t) && HonestPeer(fx, t, q)
  {
    InvAllows(initial, s);
    if step.SyncHeadersStep? {
      HonestSyncHeaders(fx, initial, s, p, step.now);
    } else if step.SyncFiltersStep? {
      HonestSyncFilters(fx, initial, s, p, step.now);
    } else if step.HeadersArriveStep? && p.headerRange.Some? {
      HonestHeadersAccepted(fx, s, p, step.cfheaders);
    } else if step.FilterArrivesStep? && p.filterRange.Some? {
      HonestFilterAccepted(parses, fx, s, p, step.cfilter);
    }
  }

  lemma HonestShares(parses: Bytes -> bool, fx: seq<BlockFixture>, initial: nat, s: Shared, p: Peer, step: Step)
    requires SharedOk(initial, s) && PeerOk(s, p) && HonestShared(fx, initial, s) && HonestPeer(fx, s, p)
    requires HonestStep(fx, s, p, step)
    requires step.HeadersReportedStep? || step.FiltersReportedStep? || step.DisconnectStep? ||
             step.ReorgStep? || step.BlockStep? || step.ConsumeStep?
    ensures TipHeight(s.chain) < |s.blocks| && NoEmptyBatch(s.filters)
    ensures HonestShared(fx, initial, PeerNext(parses, s, p, step).0)
  {
    InvAllows(initial, s);
    var t := PeerNext(parses, s, p, step).0;
    if step.HeadersReportedStep? {
      if p.checkedHeaders.Some? {
        HonestReportHeaders(fx, initial, s, p.checkedHeaders.value);
      }
    } else if step.FiltersReportedStep? {
      if p.checkedFilters.Some? {
        HonestReportFilters(fx, initial, s, p.checkedFilters.value);
      }
    } else if step.BlockStep? {
      assert t.blocks <= ClientBlocks(fx);
      assert Emitted(t) == Emitted(s);
    } else {
      assert t.delivered + t.ready == s.delivered + s.ready;
      HonestSharedStable(fx, initial, s, t);
    }
  }

  lemma HonestPeerNext(parses: Bytes -> bool, fx: seq<BlockFixture>, initial: nat, s: Shared, p: Peer, step: Step)
    requires FixtureOk(fx) && ParsesAll(parses, fx)
    requires SharedOk(initial, s) && PeerOk(s, p) && HonestShared(fx, initial, s) && HonestPeer(fx, s, p)
    requires HonestStep(fx, s, p, step)
    ensures TipHeight(s.chain) < |s.blocks| && NoEmptyBatch(s.filters)
    ensures var (t, q) := PeerNext(parses, s, p, step); HonestShared(fx, initial, t) && HonestPeer(fx, t, q)
  {
    InvAllows(initial, s);
    if step.SyncHeadersStep? || step.SyncFiltersStep? || step.HeadersArriveStep? || step.FilterArrivesStep? {
      HonestArrives(parses, fx, initial, s, p, step);
    } else {
      HonestShares(parses, fx, initial, s, p, step);
      PeerNextKeeps(parses, initial, s, p, step);
      HonestPeerStable(fx, s, PeerNext(parses, s, p, step).0, p);
    }
  }
}
