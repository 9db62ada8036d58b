/** The synchronization state that all compact-filter peers of one client share. */
module SyncState {
  import opened Digests
  import opened Tracking

  const HEADER_ASSIGNMENT_TIMEOUT: nat := 25
  const FILTER_ASSIGNMENT_TIMEOUT: nat := 50
  const HEADERS_PER_REQUEST: nat := 1100
  const FILTERS_PER_REQUEST: nat := 400
  const MAX_LOOKAHEAD_RANGES: nat := 25

  datatype ChainedBlock = ChainedBlock(hash: Digest, time: int)

  datatype SmartHeader = SmartHeader(blockHash: Digest, filterHeader: Digest, height: nat, time: int)

  datatype FilterModel = FilterModel(header: SmartHeader, filter: Bytes)

  datatype CFilter = CFilter(blockHash: Digest, bytes: Bytes)

  datatype RangeRequest = RangeRequest(start: nat, stop: nat, stopHash: Digest) {
    function Count(): int {
      stop - start + 1
    }
  }

  datatype HeaderResponse = HeaderResponse(start: nat, headers: seq<SmartHeader>)

  datatype FilterResponse = FilterResponse(start: nat, filters: seq<FilterModel>)

  // ---------- block headers and filter headers ----------

  /** The height of the block with the given hash. */
  function FindBlock(blocks: seq<ChainedBlock>, hash: Digest): (h: Option<nat>)
    ensures h.Some? ==> h.value < |blocks| && blocks[h.value].hash == hash
    ensures h.None? ==> forall i :: 0 <= i < |blocks| ==> blocks[i].hash != hash
  {
    if blocks == [] then None
    else if blocks[|blocks| - 1].hash == hash then Some(|blocks| - 1)
    else FindBlock(blocks[..|blocks| - 1], hash)
  }

  /** The filter-header chain, indexed by height. */
  function At(chain: seq<SmartHeader>, height: nat): Option<SmartHeader> {
    if chain != [] && chain[0].height <= height < chain[0].height + |chain|
    then Some(chain[height - chain[0].height])
    else None
  }

  function TipHeight(chain: seq<SmartHeader>): nat {
    if chain == [] then 0 else chain[|chain| - 1].height
  }

  /** The filter header below `height`: zero only below the genesis block. */
  function PrevHeader(chain: seq<SmartHeader>, height: nat): Option<Digest> {
    if height == 0 then Some(Zero)
    else match At(chain, height - 1)
      case Some(h) => Some(h.filterHeader)
      case None => None
  }

  /** Old headers are ignored, a gap is an error. */
  function Appended(chain: seq<SmartHeader>, tip: SmartHeader): Option<seq<SmartHeader>> {
    if chain == [] then Some([tip])
    else if tip.height <= TipHeight(chain) then Some(chain)
    else if TipHeight(chain) + 1 != tip.height then None
    else Some(chain + [tip])
  }

  /** Headers derived from the filter hashes of a cfheaders answer. */
  ghost function DerivedHeaders(blocks: seq<ChainedBlock>, start: nat, hashes: seq<Digest>, prev: Digest)
    : seq<SmartHeader>
    requires hashes != [] ==> start + |hashes| <= |blocks|
  {
    seq(|hashes|, i requires 0 <= i < |hashes| =>
      SmartHeader(blocks[start + i].hash, HeaderFold(prev, hashes[..i + 1]), start + i, blocks[start + i].time))
  }

  /** What validation of a cfheaders answer makes of it. */
  ghost function CheckedHeaders(blocks: seq<ChainedBlock>, chain: seq<SmartHeader>, start: nat,
                                hashes: seq<Digest>, declaredPrev: Digest): Option<seq<SmartHeader>>
  {
    if PrevHeader(chain, start) == Some(declaredPrev) && (hashes == [] || start + |hashes| <= |blocks|)
    then Some(DerivedHeaders(blocks, start, hashes, declaredPrev))
    else None
  }

  /** The filter-header chain commits to exactly these filter bytes at `height`. */
  ghost predicate Commits(chain: seq<SmartHeader>, height: nat, bytes: Bytes) {
    && At(chain, height).Some?
    && PrevHeader(chain, height).Some?
    && At(chain, height).value.filterHeader == OfFilterHeader(OfFilter(bytes), PrevHeader(chain, height).value)
  }

  ghost predicate FilterFits(parses: Bytes -> bool, blocks: seq<ChainedBlock>, chain: seq<SmartHeader>,
                             height: nat, bytes: Bytes)
  {
    parses(bytes) && height < |blocks| && Commits(chain, height, bytes)
  }

  ghost predicate RangeFits(parses: Bytes -> bool, blocks: seq<ChainedBlock>, chain: seq<SmartHeader>,
                            start: nat, payloads: seq<CFilter>)
  {
    forall i :: 0 <= i < |payloads| ==> FilterFits(parses, blocks, chain, start + i, payloads[i].bytes)
  }

  ghost function FilterModelAt(blocks: seq<ChainedBlock>, chain: seq<SmartHeader>, height: nat, payload: CFilter)
    : FilterModel
    requires height < |blocks| && At(chain, height).Some?
  {
    FilterModel(
      SmartHeader(payload.blockHash, At(chain, height).value.filterHeader, height, blocks[height].time),
      payload.bytes)
  }

  /** What validation of a batch of cfilters makes of it. */
  ghost function CheckedFilters(parses: Bytes -> bool, blocks: seq<ChainedBlock>, chain: seq<SmartHeader>,
                                start: nat, payloads: seq<CFilter>): (r: Option<seq<FilterModel>>)
    ensures r.Some? ==> |r.value| == |payloads| > 0
  {
    if payloads != [] && RangeFits(parses, blocks, chain, start, payloads) then
      Some(seq(|payloads|, i requires 0 <= i < |payloads| =>
        assert FilterFits(parses, blocks, chain, start + i, payloads[i].bytes);
        FilterModelAt(blocks, chain, start + i, payloads[i])))
    else
      None
  }

  // ---------- the shared state as a value ----------

  /** `ready` is the channel of finished batches, `delivered` what its reader has taken so far, and
      `appendFailures` counts the times a validated header was refused by the chain. */
  datatype Shared = Shared(
    blocks: seq<ChainedBlock>,
    chain: seq<SmartHeader>,
    headers: Tracker<HeaderResponse>,
    filters: Tracker<FilterResponse>,
    ready: seq<FilterResponse>,
    delivered: seq<FilterResponse>,
    appendFailures: nat)

  /** Appends validated headers one by one, moving the tracker along, up to the first refusal. */
  function AppendAll<R>(chain: seq<SmartHeader>, t: Tracker<R>, headers: seq<SmartHeader>)
    : (r: (seq<SmartHeader>, Tracker<R>, bool))
    ensures r.1.pending == t.pending && r.1.active == t.active
    decreases headers
  {
    if headers == [] then (chain, t, true)
    else match Appended(chain, headers[0])
      case None => (chain, t, false)
      case Some(c) => AppendAll(c, t.(last := headers[0].height), headers[1..])
  }

  /** Moves finished header ranges into the chain, in order.  The third part counts refusals. */
  function DrainHeaders(chain: seq<SmartHeader>, t: Tracker<HeaderResponse>, failures: nat)
    : (seq<SmartHeader>, Tracker<HeaderResponse>, nat)
    decreases |t.pending|
  {
    if t.last + 1 !in t.pending then (chain, t, failures)
    else
      var range := t.pending[t.last + 1];
      var taken := t.Take(t.last + 1);
      TakeShrinks(t, t.last + 1);
      var (c, u, ok) := AppendAll(chain, taken, range.headers);
      if ok then DrainHeaders(c, u, failures) else (c, u, failures + 1)
  }

  /** Moves finished filter ranges into the channel, in order. */
  function DrainFilters(t: Tracker<FilterResponse>, ready: seq<FilterResponse>)
    : (Tracker<FilterResponse>, seq<FilterResponse>)
    requires NoEmptyBatch(t)
    decreases |t.pending|
  {
    if t.last + 1 !in t.pending then (t, ready)
    else
      var range := t.pending[t.last + 1];
      TakeShrinks(t, t.last + 1);
      DrainFilters(t.Take(t.last + 1).(last := range.filters[|range.filters| - 1].header.height), ready + [range])
  }

  predicate NoEmptyBatch(t: Tracker<FilterResponse>) {
    forall h :: h in t.pending ==> t.pending[h].filters != []
  }

  lemma TakeShrinks<R>(t: Tracker<R>, h: nat)
    requires h in t.pending
    ensures |t.Take(h).pending| < |t.pending|
  {
    assert t.Take(h).pending.Keys == t.pending.Keys - {h};
    assert |t.pending.Keys| == |t.pending| && |t.Take(h).pending.Keys| == |t.Take(h).pending|;
  }

  ghost function AssignHeaders(s: Shared, now: int): (Shared, Option<RangeRequest>) {
    var t := s.headers.ReleaseStale(now - HEADER_ASSIGNMENT_TIMEOUT);
    match t.NextStart(HEADERS_PER_REQUEST, MAX_LOOKAHEAD_RANGES)
    case None => (s.(headers := t), None)
    case Some(start) =>
      if start >= |s.blocks| || PrevHeader(s.chain, start).None? then (s.(headers := t), None)
      else
        var stop := Min(start + HEADERS_PER_REQUEST - 1, |s.blocks| - 1);
        (s.(headers := t.Add(start, now)), Some(RangeRequest(start, stop, s.blocks[stop].hash)))
  }

  ghost function AssignFilters(s: Shared, now: int): (Shared, Option<RangeRequest>)
    requires TipHeight(s.chain) < |s.blocks|
  {
    var t := s.filters.ReleaseStale(now - FILTER_ASSIGNMENT_TIMEOUT);
    match t.NextStart(FILTERS_PER_REQUEST, MAX_LOOKAHEAD_RANGES)
    case None => (s.(filters := t), None)
    case Some(start) =>
      if start > TipHeight(s.chain) then (s.(filters := t), None)
      else
        var stop := Min(start + FILTERS_PER_REQUEST - 1, TipHeight(s.chain));
        (s.(filters := t.Add(start, now)), Some(RangeRequest(start, stop, s.blocks[stop].hash)))
  }

  function Min(a: nat, b: nat): nat {
    if a <= b then a else b
  }

  ghost function ReportHeaders(s: Shared, r: HeaderResponse): Shared {
    var (c, t, n) := DrainHeaders(s.chain, s.headers.Report(r.start, r), s.appendFailures);
    s.(chain := c, headers := t, appendFailures := n)
  }

  ghost function ReportFilters(s: Shared, r: FilterResponse): Shared
    requires NoEmptyBatch(s.filters) && r.filters != []
  {
    var (t, q) := DrainFilters(s.filters.Report(r.start, r), s.ready);
    s.(filters := t, ready := q)
  }

  ghost function ReleaseHeaders(s: Shared, r: Option<RangeRequest>): Shared {
    if r.None? then s else s.(headers := s.headers.Release(r.value.start))
  }

  ghost function ReleaseFilters(s: Shared, r: Option<RangeRequest>): Shared {
    if r.None? then s else s.(filters := s.filters.Release(r.value.start))
  }

  ghost function ClearPending(s: Shared): Shared {
    s.(headers := s.headers.Clear(), filters := s.filters.Clear())
  }

  /** What a read of the channel is handed. */
  function NextBatch(s: Shared): Option<seq<FilterModel>> {
    if s.ready == [] then None else Some(s.ready[0].filters)
  }

  ghost function Consume(s: Shared): Shared {
    if s.ready == [] then s else s.(ready := s.ready[1..], delivered := s.delivered + [s.ready[0]])
  }

  // ---------- the objects ----------

  /** The block headers the client has validated; only ever extended here. */
  class ConcurrentChain {
    var blocks: seq<ChainedBlock>

    constructor (genesis: ChainedBlock)
      ensures blocks == [genesis]
    {
      blocks := [genesis];
    }
  }

  class FilterHeaderChain {
    var chain: seq<SmartHeader>

    constructor (headers: seq<SmartHeader>)
      ensures chain == headers
    {
      chain := headers;
    }

    method AppendTip(tip: SmartHeader) returns (ok: bool)
      modifies this
      ensures old(chain) == [] ==> ok && chain == [tip]
      ensures old(chain) != [] && tip.height == TipHeight(old(chain)) + 1 ==> ok && chain == old(chain) + [tip]
      ensures old(chain) != [] && tip.height <= TipHeight(old(chain)) ==> ok && chain == old(chain)
      ensures old(chain) != [] && tip.height > TipHeight(old(chain)) + 1 ==> !ok && chain == old(chain)
      ensures Appended(old(chain), tip) == if ok then Some(chain) else None
    {
      if chain != [] {
        var lastHeader := chain[|chain| - 1];
        if tip.height <= lastHeader.height {
          return true;
        }
        if lastHeader.height + 1 != tip.height {
          return false;
        }
      }
      chain := chain + [tip];
      return true;
    }
  }

  class FilterSynchronizationState {
    const blockHeaderChain: ConcurrentChain
    const filterHeaderChain: FilterHeaderChain
    const headerTracker: RequestTracker<HeaderResponse>
    const filterTracker: RequestTracker<FilterResponse>
    var readyFilters: seq<FilterResponse>
    var deliveredFilters: seq<FilterResponse>
    var appendFailures: nat

    ghost function Model(): Shared
      reads this, filterHeaderChain, headerTracker, filterTracker, blockHeaderChain
    {
      Shared(blockHeaderChain.blocks, filterHeaderChain.chain, headerTracker.Model(), filterTracker.Model(),
             readyFilters, deliveredFilters, appendFailures)
    }

    constructor (blockHeaders: ConcurrentChain, filterHeaders: FilterHeaderChain, tipHeight: nat)
      ensures blockHeaderChain == blockHeaders && filterHeaderChain == filterHeaders
      ensures fresh(headerTracker) && fresh(filterTracker)
      ensures Model() == InitialShared(blockHeaders.blocks, filterHeaders.chain, tipHeight)
    {
      blockHeaderChain := blockHeaders;
      filterHeaderChain := filterHeaders;
      var initialHeaderHeight := if filterHeaders.chain == [] then 0
                                 else filterHeaders.chain[|filterHeaders.chain| - 1].height;
      headerTracker := new RequestTracker(initialHeaderHeight);
      filterTracker := new RequestTracker(tipHeight);
      readyFilters, deliveredFilters, appendFailures := [], [], 0;
    }

    method TryAssignHeaderRange(now: int) returns (assignment: Option<RangeRequest>)
      modifies headerTracker
      ensures (Model(), assignment) == AssignHeaders(old(Model()), now)
    {
      var stale := headerTracker.GetOldestStaleAssignment(now, HEADER_ASSIGNMENT_TIMEOUT);
      if stale.Some? {
        headerTracker.RemoveActiveAssignment(stale.value);
      }
      ghost var u := old(headerTracker.Model()).ReleaseStale(now - HEADER_ASSIGNMENT_TIMEOUT);
      assert headerTracker.Model() == u;
      ghost var s := old(Model());
      assert Model() == s.(headers := u);
      var blocks := blockHeaderChain.blocks;
      var next := headerTracker.TryGetNextRangeStartHeight(HEADERS_PER_REQUEST, MAX_LOOKAHEAD_RANGES);
      if next.None? || next.value >= |blocks| {
        return None;
      }
      var nextRangeStart := next.value;
      var stopHeight := Min(nextRangeStart + HEADERS_PER_REQUEST - 1, |blocks| - 1);
      if PrevHeader(filterHeaderChain.chain, nextRangeStart).None? {
        return None;
      }
      headerTracker.AddActiveAssignment(nextRangeStart, now);
      assert Model() == s.(headers := u.Add(nextRangeStart, now));
      assignment := Some(RangeRequest(nextRangeStart, stopHeight, blocks[stopHeight].hash));
      assert AssignHeaders(s, now) == (s.(headers := u.Add(nextRangeStart, now)), assignment);
    }

    method TryAssignFilterRange(now: int) returns (assignment: Option<RangeRequest>)
      requires TipHeight(filterHeaderChain.chain) < |blockHeaderChain.blocks|
      modifies filterTracker
      ensures (Model(), assignment) == AssignFilters(old(Model()), now)
    {
      var stale := filterTracker.GetOldestStaleAssignment(now, FILTER_ASSIGNMENT_TIMEOUT);
      if stale.Some? {
        filterTracker.RemoveActiveAssignment(stale.value);
      }
      ghost var u := old(filterTracker.Model()).ReleaseStale(now - FILTER_ASSIGNMENT_TIMEOUT);
      assert filterTracker.Model() == u;
      assert Model() == old(Model()).(filters := u);
      var tip := TipHeight(filterHeaderChain.chain);
      var next := filterTracker.TryGetNextRangeStartHeight(FILTERS_PER_REQUEST, MAX_LOOKAHEAD_RANGES);
      if next.None? || next.value > tip {
        return None;
      }
      var nextRangeStart := next.value;
      var stopHeight := Min(nextRangeStart + FILTERS_PER_REQUEST - 1, tip);
      var stopBlock := blockHeaderChain.blocks[stopHeight];
      filterTracker.AddActiveAssignment(nextRangeStart, now);
      assert Model() == old(Model()).(filters := u.Add(nextRangeStart, now));
      return Some(RangeRequest(nextRangeStart, stopHeight, stopBlock.hash));
    }

    method OnHeaderCompleted(rangeStartHeight: nat, headers: seq<SmartHeader>)
      modifies this`appendFailures, headerTracker, filterHeaderChain
      ensures Model() == ReportHeaders(old(Model()), HeaderResponse(rangeStartHeight, headers))
    {
      headerTracker.MoveActiveToPendingAssignment(rangeStartHeight, HeaderResponse(rangeStartHeight, headers));
      ProcessPendingHeaderRanges();
    }

    method ProcessPendingHeaderRanges()
      modifies this`appendFailures, headerTracker, filterHeaderChain
      ensures (filterHeaderChain.chain, headerTracker.Model(), appendFailures)
           == old(DrainHeaders(filterHeaderChain.chain, headerTracker.Model(), appendFailures))
    {
      ghost var goal := DrainHeaders(filterHeaderChain.chain, headerTracker.Model(), appendFailures);
      while true
        invariant DrainHeaders(filterHeaderChain.chain, headerTracker.Model(), appendFailures) == goal
        decreases |headerTracker.pendingResponses|
      {
        ghost var before := headerTracker.Model();
        var nextExpectedStart := headerTracker.lastHeight + 1;
        var pendingRange := headerTracker.TryRemovePendingRange(nextExpectedStart);
        if pendingRange.None? {
          assert headerTracker.Model() == before;
          break;
        }
        var more := AppendRange(pendingRange.value, before);
        if !more {
          return;
        }
      }
    }

    /** Handles one range taken from the finished ones; false when the chain refuses one of its headers. */
    method AppendRange(range: HeaderResponse, ghost before: Tracker<HeaderResponse>) returns (more: bool)
      requires before.last + 1 in before.pending && range == before.pending[before.last + 1]
      requires headerTracker.Model() == before.Take(before.last + 1)
      modifies this`appendFailures, headerTracker, filterHeaderChain
      ensures |headerTracker.pendingResponses| < |before.pending|
      ensures old(DrainHeaders(filterHeaderChain.chain, before, appendFailures)) ==
        if more then DrainHeaders(filterHeaderChain.chain, headerTracker.Model(), appendFailures)
        else (filterHeaderChain.chain, headerTracker.Model(), appendFailures)
    {
      TakeShrinks(before, before.last + 1);
      more := AppendHeaders(range.headers);
      if !more {
        appendFailures := appendFailures + 1;
      }
    }

    /** Appends the headers of one range; false when the chain refuses one. */
    method AppendHeaders(headers: seq<SmartHeader>) returns (ok: bool)
      modifies headerTracker, filterHeaderChain
      ensures (filterHeaderChain.chain, headerTracker.Model(), ok)
           == old(AppendAll(filterHeaderChain.chain, headerTracker.Model(), headers))
    {
      ghost var goal := AppendAll(filterHeaderChain.chain, headerTracker.Model(), headers);
      assert headers[0..] == headers;
      for i := 0 to |headers|
        invariant AppendAll(filterHeaderChain.chain, headerTracker.Model(), headers[i..]) == goal
      {
        assert headers[i..][1..] == headers[i + 1..];
        ok := filterHeaderChain.AppendTip(headers[i]);
        if !ok {
          return;
        }
        headerTracker.SetLastHeight(headers[i].height);
      }
      ok := true;
    }

    method OnFilterRangeCompleted(rangeStartHeight: nat, filters: seq<FilterModel>)
      requires NoEmptyBatch(filterTracker.Model()) && filters != []
      modifies this`readyFilters, filterTracker
      ensures Model() == ReportFilters(old(Model()), FilterResponse(rangeStartHeight, filters))
    {
      filterTracker.MoveActiveToPendingAssignment(rangeStartHeight, FilterResponse(rangeStartHeight, filters));
      TryMakeNextFilterRangeReady();
    }

    method TryMakeNextFilterRangeReady()
      requires NoEmptyBatch(filterTracker.Model())
      modifies this`readyFilters, filterTracker
      ensures (filterTracker.Model(), readyFilters) == old(DrainFilters(filterTracker.Model(), readyFilters))
    {
      ghost var goal := DrainFilters(filterTracker.Model(), readyFilters);
      var lastQueuedHeight := filterTracker.lastHeight;
      while true
        invariant lastQueuedHeight == filterTracker.lastHeight
        invariant NoEmptyBatch(filterTracker.Model())
        invariant DrainFilters(filterTracker.Model(), readyFilters) == goal
        decreases |filterTracker.pendingResponses|
      {
        ghost var before := filterTracker.Model();
        var nextExpectedStart := lastQueuedHeight + 1;
        var pendingRange := filterTracker.TryRemovePendingRange(nextExpectedStart);
        if pendingRange.None? {
          assert filterTracker.Model() == before;
          return;
        }
        TakeShrinks(before, nextExpectedStart);
        var filters := pendingRange.value.filters;
        readyFilters := readyFilters + [pendingRange.value];
        lastQueuedHeight := filters[|filters| - 1].header.height;
        filterTracker.SetLastHeight(lastQueuedHeight);
      }
    }

    method OnHeaderNodeDisconnected(assignment: RangeRequest)
      modifies headerTracker
      ensures Model() == ReleaseHeaders(old(Model()), Some(assignment))
    {
      headerTracker.RemoveActiveAssignment(assignment.start);
    }

    method OnFilterNodeDisconnected(assignment: RangeRequest)
      modifies filterTracker
      ensures Model() == ReleaseFilters(old(Model()), Some(assignment))
    {
      filterTracker.RemoveActiveAssignment(assignment.start);
    }

    /** Checks a cfheaders answer against the chain and derives the filter headers it stands for. */
    method ValidateFilterHeaders(assignment: RangeRequest, filterHashes: seq<Digest>, declaredPrevious: Digest)
      returns (r: Option<seq<SmartHeader>>)
      ensures r == CheckedHeaders(blockHeaderChain.blocks, filterHeaderChain.chain, assignment.start,
                                  filterHashes, declaredPrevious)
    {
      var blocks := blockHeaderChain.blocks;
      var expectedPrevious := PrevHeader(filterHeaderChain.chain, assignment.start);
      if expectedPrevious.None? || declaredPrevious != expectedPrevious.value {
        return None;
      }
      var result: seq<SmartHeader> := [];
      var prevFilterHeader := declaredPrevious;
      for i := 0 to |filterHashes|
        invariant assignment.start + i <= |blocks| || i == 0
        invariant prevFilterHeader == HeaderFold(declaredPrevious, filterHashes[..i])
        invariant |result| == i
        invariant forall j :: 0 <= j < i ==>
          result[j] == SmartHeader(blocks[assignment.start + j].hash,
                                   HeaderFold(declaredPrevious, filterHashes[..j + 1]),
                                   assignment.start + j, blocks[assignment.start + j].time)
      {
        var height := assignment.start + i;
        if height >= |blocks| {
          return None;
        }
        assert filterHashes[..i + 1][..i] == filterHashes[..i];
        var filterHeader := OfFilterHeader(filterHashes[i], prevFilterHeader);
        result := result + [SmartHeader(blocks[height].hash, filterHeader, height, blocks[height].time)];
        prevFilterHeader := filterHeader;
      }
      assert filterHashes[..|filterHashes|] == filterHashes;
      assert result == DerivedHeaders(blocks, assignment.start, filterHashes, declaredPrevious);
      return Some(result);
    }

    function GetExpectedFilterHeader(height: nat): Option<Digest>
      reads filterHeaderChain
    {
      match At(filterHeaderChain.chain, height)
      case Some(h) => Some(h.filterHeader)
      case None => None
    }

    method ClearPendingState()
      modifies headerTracker, filterTracker
      ensures headerTracker.pendingResponses == map[] && filterTracker.pendingResponses == map[]
      ensures headerTracker.activeAssignments == old(headerTracker.activeAssignments)
      ensures filterTracker.activeAssignments == old(filterTracker.activeAssignments)
      ensures headerTracker.lastHeight == old(headerTracker.lastHeight)
      ensures filterTracker.lastHeight == old(filterTracker.lastHeight)
      ensures Model() == ClearPending(old(Model()))
    {
      headerTracker.ClearAllPending();
      filterTracker.ClearAllPending();
    }

    /** Takes the next batch from the channel, which is first in, first out. */
    method GetNextFilterBatch() returns (filters: Option<seq<FilterModel>>)
      modifies this`readyFilters, this`deliveredFilters
      ensures old(readyFilters) == [] ==>
        filters == None && readyFilters == [] && deliveredFilters == old(deliveredFilters)
      ensures old(readyFilters) != [] ==>
        && filters == Some(old(readyFilters)[0].filters) && readyFilters == old(readyFilters)[1..]
        && deliveredFilters == old(deliveredFilters) + [old(readyFilters)[0]]
      ensures Model() == Consume(old(Model())) && filters == NextBatch(old(Model()))
    {
      if readyFilters == [] {
        return None;
      }
      filters := Some(readyFilters[0].filters);
      deliveredFilters := deliveredFilters + [readyFilters[0]];
      readyFilters := readyFilters[1..];
    }
  }

  ghost function InitialShared(blocks: seq<ChainedBlock>, chain: seq<SmartHeader>, tipHeight: nat): Shared {
    Shared(blocks, chain, Tracker(TipHeight(chain), map[], map[]), Tracker(tipHeight, map[], map[]), [], [], 0)
  }
}
