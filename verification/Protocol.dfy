/** All interleavings of any number of peers over one shared state, and what every reachable state satisfies. */
module Protocol {
  import opened Digests
  import opened Tracking
  import opened SyncState
  import opened Peers

  datatype Step =
    | SyncHeadersStep(peer: nat, now: int)
    | SyncFiltersStep(peer: nat, now: int)
    | HeadersArriveStep(peer: nat, cfheaders: CFHeaders)
    | HeadersReportedStep(peer: nat)
    | FilterArrivesStep(peer: nat, cfilter: CFilter)
    | FiltersReportedStep(peer: nat)
    | DisconnectStep(peer: nat)
    | ReorgStep
    | BlockStep(block: ChainedBlock)
    | ConsumeStep

  datatype System = System(shared: Shared, peers: map<nat, Peer>) {
    function PeerAt(id: nat): Peer {
      if id in peers then peers[id] else FRESH_PEER
    }
  }

  // ---------- invariants ----------

  ghost predicate ChainOk(blocks: seq<ChainedBlock>, chain: seq<SmartHeader>) {
    && chain != []
    && chain[0].height + |chain| <= |blocks|
    && (forall i :: 0 <= i < |chain| ==> HeaderOk(blocks, chain[0].height + i, chain[i]))
    && (forall i :: 0 < i < |chain| ==> Links(chain[i], chain[i - 1].filterHeader))
  }

  ghost predicate HeaderOk(blocks: seq<ChainedBlock>, height: nat, h: SmartHeader)
    requires height < |blocks|
  {
    h.height == height && h.blockHash == blocks[height].hash
  }

  /** The header is the hash of some filter hash and the header before it. */
  ghost predicate Links(h: SmartHeader, prev: Digest) {
    h.filterHeader.OfFilterHeader? && h.filterHeader.prev == prev
  }

  ghost predicate CheckedOk(s: Shared, r: HeaderResponse) {
    && 1 <= r.start <= s.headers.last + 1
    && r.headers != []
    && r.start + |r.headers| <= |s.blocks|
    && At(s.chain, r.start - 1).Some?
    && (forall i :: 0 <= i < |r.headers| ==> HeaderOk(s.blocks, r.start + i, r.headers[i]))
    && Links(r.headers[0], At(s.chain, r.start - 1).value.filterHeader)
    && (forall i :: 0 < i < |r.headers| ==> Links(r.headers[i], r.headers[i - 1].filterHeader))
  }

  ghost predicate HeadersOk(s: Shared) {
    && ChainOk(s.blocks, s.chain)
    && s.headers.last == TipHeight(s.chain)
    && (forall h :: h in s.headers.active ==> h == s.headers.last + 1)
    && (forall h :: h in s.headers.pending ==> h <= s.headers.last)
    && s.appendFailures == 0
  }

  /** A filter as it leaves the client: the header chain commits to its bytes at its height. */
  ghost predicate FilterOk(s: Shared, height: nat, f: FilterModel) {
    && f.header.height == height
    && Commits(s.chain, height, f.filter)
    && f.header.filterHeader == At(s.chain, height).value.filterHeader
  }

  ghost predicate BatchOk(s: Shared, r: FilterResponse) {
    && r.filters != []
    && forall i :: 0 <= i < |r.filters| ==> FilterOk(s, r.start + i, r.filters[i])
  }

  ghost predicate PendingOk(s: Shared) {
    forall h :: h in s.filters.pending ==> s.filters.pending[h].start == h && BatchOk(s, s.filters.pending[h])
  }

  function Flatten(batches: seq<FilterResponse>): seq<FilterModel> {
    if batches == [] then []
    else Flatten(batches[..|batches| - 1]) + batches[|batches| - 1].filters
  }

  /** Everything the channel has ever carried, in order. */
  function Emitted(s: Shared): seq<FilterModel> {
    Flatten(s.delivered + s.ready)
  }

  ghost predicate EmittedOk(initial: nat, s: Shared) {
    && s.filters.last == initial + |Emitted(s)|
    && forall i :: 0 <= i < |Emitted(s)| ==> FilterOk(s, initial + 1 + i, Emitted(s)[i])
  }

  ghost predicate FiltersOk(initial: nat, s: Shared) {
    && s.filters.Bounded(FILTERS_PER_REQUEST, MAX_LOOKAHEAD_RANGES)
    && s.filters.last + 1 !in s.filters.pending
    && PendingOk(s)
    && EmittedOk(initial, s)
  }

  ghost predicate SharedOk(initial: nat, s: Shared) {
    HeadersOk(s) && FiltersOk(initial, s)
  }

  ghost predicate RangeOk(s: Shared, a: RangeRequest) {
    1 <= a.start <= a.stop < |s.blocks| && a.stopHash == s.blocks[a.stop].hash
  }

  ghost predicate AheadOk(s: Shared, start: nat) {
    start >= 1 && s.filters.WithinLookahead(start, FILTERS_PER_REQUEST, MAX_LOOKAHEAD_RANGES)
  }

  ghost predicate PeerOk(s: Shared, p: Peer) {
    && (p.headerRange.Some? ==> RangeOk(s, p.headerRange.value) && p.headerRange.value.start <= s.headers.last + 1)
    && (p.filterRange.Some? ==>
          && RangeOk(s, p.filterRange.value)
          && AheadOk(s, p.filterRange.value.start)
          && |p.collected| < p.filterRange.value.Count() <= FILTERS_PER_REQUEST)
    && (p.checkedHeaders.Some? ==> CheckedOk(s, p.checkedHeaders.value))
    && (p.checkedFilters.Some? ==>
          && BatchOk(s, p.checkedFilters.value)
          && AheadOk(s, p.checkedFilters.value.start)
          && |p.checkedFilters.value.filters| <= FILTERS_PER_REQUEST)
  }

  ghost predicate Inv(initial: nat, sys: System) {
    SharedOk(initial, sys.shared) && forall id :: id in sys.peers ==> PeerOk(sys.shared, sys.peers[id])
  }

  // ---------- steps ----------

  /** Busy with reporting a validated answer: the peer's next message has to wait. */
  predicate Reporting(p: Peer) {
    p.checkedHeaders.Some? || p.checkedFilters.Some?
  }

  ghost function PeerNext(parses: Bytes -> bool, s: Shared, p: Peer, step: Step): (Shared, Peer)
    requires TipHeight(s.chain) < |s.blocks| && NoEmptyBatch(s.filters)
    requires p.checkedFilters.Some? ==> p.checkedFilters.value.filters != []
  {
    match step
    case SyncHeadersStep(_, now) => SyncHeaders(s, p, now)
    case SyncFiltersStep(_, now) => SyncFilters(s, p, now)
    case HeadersArriveStep(_, m) =>
      if p.CanSync() && p.headerRange.Some? && !Reporting(p) then HeadersArrive(s, p, m) else (s, p)
    case HeadersReportedStep(_) => if p.checkedHeaders.Some? then HeadersReported(s, p) else (s, p)
    case FilterArrivesStep(_, m) =>
      if p.CanSync() && p.filterRange.Some? && !Reporting(p) then FilterArrives(parses, s, p, m) else (s, p)
    case FiltersReportedStep(_) => if p.checkedFilters.Some? then FiltersReported(s, p) else (s, p)
    case DisconnectStep(_) => ReleaseAssignments(s, p.(connected := false))
    case ReorgStep => (ClearPending(s), p)
    case BlockStep(b) => (s.(blocks := s.blocks + [b]), p)
    case ConsumeStep => (Consume(s), p)
  }

  ghost function Next(parses: Bytes -> bool, initial: nat, sys: System, step: Step): System
    requires Inv(initial, sys)
  {
    InvAllows(initial, sys.shared);
    if step.ReorgStep? || step.BlockStep? || step.ConsumeStep? then
      sys.(shared := PeerNext(parses, sys.shared, FRESH_PEER, step).0)
    else
      var (s, p) := PeerNext(parses, sys.shared, sys.PeerAt(step.peer), step);
      System(s, sys.peers[step.peer := p])
  }

  lemma InvAllows(initial: nat, s: Shared)
    requires SharedOk(initial, s)
    ensures TipHeight(s.chain) < |s.blocks| && NoEmptyBatch(s.filters)
  {
    assert HeaderOk(s.blocks, s.chain[0].height + |s.chain| - 1, s.chain[|s.chain| - 1]);
  }

  /** What no step takes back: block headers, filter headers, heights and emitted filters only ever grow. */
  ghost predicate Grows(s: Shared, t: Shared) {
    && Emitted(s) <= Emitted(t)
    && s.blocks <= t.blocks
    && s.chain <= t.chain
    && s.headers.last <= t.headers.last
    && s.filters.last <= t.filters.last
  }

  // ---------- stability ----------

  lemma CommitsStable(c: seq<SmartHeader>, d: seq<SmartHeader>, height: nat, bytes: Bytes)
    requires c <= d && Commits(c, height, bytes)
    ensures Commits(d, height, bytes) && At(d, height) == At(c, height)
  {
  }

  lemma BatchStable(s: Shared, t: Shared, r: FilterResponse)
    requires s.chain <= t.chain && BatchOk(s, r)
    ensures BatchOk(t, r)
  {
    forall i | 0 <= i < |r.filters|
      ensures FilterOk(t, r.start + i, r.filters[i])
    {
      assert FilterOk(s, r.start + i, r.filters[i]);
      CommitsStable(s.chain, t.chain, r.start + i, r.filters[i].filter);
    }
  }

  lemma CheckedStable(s: Shared, t: Shared, r: HeaderResponse)
    requires Grows(s, t) && CheckedOk(s, r)
    ensures CheckedOk(t, r)
  {
    forall i | 0 <= i < |r.headers|
      ensures HeaderOk(t.blocks, r.start + i, r.headers[i])
    {
      assert HeaderOk(s.blocks, r.start + i, r.headers[i]);
    }
  }

  lemma PeerStable(s: Shared, t: Shared, p: Peer)
    requires Grows(s, t) && PeerOk(s, p)
    ensures PeerOk(t, p)
  {
    if p.checkedHeaders.Some? {
      CheckedStable(s, t, p.checkedHeaders.value);
    }
    if p.checkedFilters.Some? {
      BatchStable(s, t, p.checkedFilters.value);
    }
  }

  lemma FiltersStable(initial: nat, s: Shared, t: Shared)
    requires FiltersOk(initial, s)
    requires s.chain <= t.chain && s.filters == t.filters && s.delivered + s.ready == t.delivered + t.ready
    ensures FiltersOk(initial, t)
  {
    forall h | h in t.filters.pending
      ensures t.filters.pending[h].start == h && BatchOk(t, t.filters.pending[h])
    {
      BatchStable(s, t, s.filters.pending[h]);
    }
    forall i | 0 <= i < |Emitted(t)|
      ensures FilterOk(t, initial + 1 + i, Emitted(t)[i])
    {
      assert FilterOk(s, initial + 1 + i, Emitted(s)[i]);
      CommitsStable(s.chain, t.chain, initial + 1 + i, Emitted(s)[i].filter);
    }
  }

  // ---------- header side ----------

  lemma {:induction false} AppendAllFits<R>(chain: seq<SmartHeader>, t: Tracker<R>, headers: seq<SmartHeader>)
    requires chain != [] && t.last == TipHeight(chain)
    requires forall i :: 0 <= i < |headers| ==> headers[i].height == t.last + 1 + i
    ensures AppendAll(chain, t, headers) == (chain + headers, t.(last := t.last + |headers|), true)
    decreases headers
  {
    if headers == [] {
      assert chain + headers == chain;
    } else {
      var c := chain + [headers[0]];
      AppendAllFits(c, t.(last := headers[0].height), headers[1..]);
      assert c + headers[1..] == chain + headers;
    }
  }

  lemma ChainExtends(s: Shared, r: HeaderResponse)
    requires ChainOk(s.blocks, s.chain) && CheckedOk(s, r) && r.start == TipHeight(s.chain) + 1
    ensures ChainOk(s.blocks, s.chain + r.headers)
    ensures TipHeight(s.chain + r.headers) == TipHeight(s.chain) + |r.headers|
  {
    var blocks, chain := s.blocks, s.chain;
    var longer := chain + r.headers;
    var base := chain[0].height;
    assert HeaderOk(blocks, base + |chain| - 1, chain[|chain| - 1]);
    assert r.start == base + |chain|;
    forall i | 0 <= i < |longer|
      ensures HeaderOk(blocks, base + i, longer[i])
    {
      if i >= |chain| {
        assert HeaderOk(blocks, r.start + (i - |chain|), r.headers[i - |chain|]);
      }
    }
    assert HeaderOk(blocks, base + |longer| - 1, longer[|longer| - 1]);
  }

  /** A validated header range is appended whole when it is the next one, and has no effect on the chain when
      another peer was faster.  The chain never refuses a header. */
  lemma ReportHeadersExact(initial: nat, s: Shared, r: HeaderResponse)
    requires SharedOk(initial, s) && CheckedOk(s, r)
    ensures var t := ReportHeaders(s, r);
      && SharedOk(initial, t) && Grows(s, t)
      && t.chain == (if r.start == s.headers.last + 1 then s.chain + r.headers else s.chain)
      && t.appendFailures == 0
      && t.(chain := s.chain, headers := s.headers) == s
  {
    var reported := s.headers.Report(r.start, r);
    var t := ReportHeaders(s, r);
    if r.start == s.headers.last + 1 {
      var taken := reported.Take(r.start);
      forall i | 0 <= i < |r.headers|
        ensures r.headers[i].height == r.start + i
      {
        assert HeaderOk(s.blocks, r.start + i, r.headers[i]);
      }
      AppendAllFits(s.chain, taken, r.headers);
      ChainExtends(s, r);
      var after := taken.(last := taken.last + |r.headers|);
      assert reported.pending[reported.last + 1] == r;
      assert DrainHeaders(s.chain + r.headers, after, 0) == (s.chain + r.headers, after, 0);
      assert DrainHeaders(s.chain, reported, 0) == (s.chain + r.headers, after, 0);
    }
    FiltersStable(initial, s, t);
  }

  // ---------- filter side ----------

  lemma FlattenAppend(batches: seq<FilterResponse>, r: FilterResponse)
    ensures Flatten(batches + [r]) == Flatten(batches) + r.filters
  {
    assert (batches + [r])[..|batches|] == batches;
  }

  /** What the drain loop needs: everything but that the next range is not waiting. */
  ghost predicate DrainReady(initial: nat, s: Shared) {
    && s.filters.Bounded(FILTERS_PER_REQUEST, MAX_LOOKAHEAD_RANGES)
    && NoEmptyBatch(s.filters) && PendingOk(s) && EmittedOk(initial, s)
  }

  /** The state after one round of the drain loop. */
  ghost function DrainedOnce(s: Shared): Shared
    requires s.filters.last + 1 in s.filters.pending
  {
    var r := s.filters.pending[s.filters.last + 1];
    s.(filters := s.filters.Take(s.filters.last + 1).(last := s.filters.last + |r.filters|), ready := s.ready + [r])
  }

  /** What is left waiting stays as it was. */
  lemma DrainedRest(initial: nat, s: Shared, u: Shared)
    requires DrainReady(initial, s) && s.filters.last + 1 in s.filters.pending && u == DrainedOnce(s)
    requires s.filters.pending[s.filters.last + 1].filters != []
    ensures u.filters.Bounded(FILTERS_PER_REQUEST, MAX_LOOKAHEAD_RANGES) && NoEmptyBatch(u.filters) && PendingOk(u)
  {
    forall h | h in u.filters.pending
      ensures u.filters.pending[h].start == h && BatchOk(u, u.filters.pending[h])
    {
      BatchStable(s, u, s.filters.pending[h]);
    }
    forall h | u.filters.Busy(h)
      ensures u.filters.WithinLookahead(h, FILTERS_PER_REQUEST, MAX_LOOKAHEAD_RANGES)
    {
      assert s.filters.Busy(h);
    }
  }

  lemma DrainOnce(initial: nat, s: Shared)
    requires DrainReady(initial, s) && s.filters.last + 1 in s.filters.pending
    ensures DrainReady(initial, DrainedOnce(s))
    ensures Emitted(DrainedOnce(s)) == Emitted(s) + s.filters.pending[s.filters.last + 1].filters
    ensures |DrainedOnce(s).filters.pending| < |s.filters.pending|
    ensures DrainFilters(s.filters, s.ready) == DrainFilters(DrainedOnce(s).filters, DrainedOnce(s).ready)
  {
    var next := s.filters.last + 1;
    var r := s.filters.pending[next];
    var u := DrainedOnce(s);
    TakeShrinks(s.filters, next);
    assert BatchOk(s, r);
    assert FilterOk(s, r.start + (|r.filters| - 1), r.filters[|r.filters| - 1]);
    assert u.delivered + u.ready == s.delivered + s.ready + [r];
    FlattenAppend(s.delivered + s.ready, r);
    EmittedGrows(initial, s, u, r);
    DrainedRest(initial, s, u);
  }

  lemma EmittedGrows(initial: nat, s: Shared, u: Shared, r: FilterResponse)
    requires EmittedOk(initial, s) && BatchOk(s, r) && r.start == s.filters.last + 1
    requires Emitted(u) == Emitted(s) + r.filters && u.chain == s.chain
    requires u.filters.last == s.filters.last + |r.filters|
    ensures EmittedOk(initial, u)
  {
    forall i | 0 <= i < |Emitted(u)|
      ensures FilterOk(u, initial + 1 + i, Emitted(u)[i])
    {
      var n := |Emitted(s)|;
      if i < n {
        assert FilterOk(s, initial + 1 + i, Emitted(s)[i]);
      } else {
        assert FilterOk(s, r.start + (i - n), r.filters[i - n]);
      }
    }
  }

  /** The drain loop keeps the emitted filters in order, without gaps, and ends with nothing left to emit. */
  lemma {:induction false} DrainKeeps(initial: nat, s: Shared)
    requires DrainReady(initial, s)
    ensures var (f, q) := DrainFilters(s.filters, s.ready);
      var t := s.(filters := f, ready := q);
      && FiltersOk(initial, t) && f.active == s.filters.active
      && s.filters.last <= f.last && Emitted(s) <= Emitted(t)
    decreases |s.filters.pending|
  {
    if s.filters.last + 1 in s.filters.pending {
      DrainOnce(initial, s);
      DrainKeeps(initial, DrainedOnce(s));
    }
  }

  /** A reported batch is ready to be drained. */
  lemma ReportReady(initial: nat, s: Shared, r: FilterResponse)
    requires SharedOk(initial, s) && BatchOk(s, r) && AheadOk(s, r.start)
    ensures NoEmptyBatch(s.filters)
    ensures var u := s.(filters := s.filters.Report(r.start, r)); DrainReady(initial, u) && Emitted(u) == Emitted(s)
  {
    var reported := s.filters.Report(r.start, r);
    var u := s.(filters := reported);
    forall h | h in u.filters.pending
      ensures u.filters.pending[h].start == h && BatchOk(u, u.filters.pending[h])
    {
      if h == r.start {
        BatchStable(s, u, r);
      } else {
        BatchStable(s, u, s.filters.pending[h]);
      }
    }
    forall h | reported.Busy(h)
      ensures reported.WithinLookahead(h, FILTERS_PER_REQUEST, MAX_LOOKAHEAD_RANGES)
    {
      if h != r.start {
        assert s.filters.Busy(h);
      }
    }
    assert Emitted(u) == Emitted(s);
    forall i | 0 <= i < |Emitted(u)|
      ensures FilterOk(u, initial + 1 + i, Emitted(u)[i])
    {
      assert FilterOk(s, initial + 1 + i, Emitted(s)[i]);
    }
  }

  lemma ReportFiltersKeeps(initial: nat, s: Shared, r: FilterResponse)
    requires SharedOk(initial, s) && BatchOk(s, r) && AheadOk(s, r.start)
    ensures NoEmptyBatch(s.filters)
    ensures var t := ReportFilters(s, r);
      && SharedOk(initial, t) && Grows(s, t)
      && t.filters.active == s.filters.active - {r.start}
      && t.(filters := s.filters, ready := s.ready) == s
  {
    ReportReady(initial, s, r);
    DrainKeeps(initial, s.(filters := s.filters.Report(r.start, r)));
  }

  // ---------- handing out ranges ----------

  lemma StaleReleaseShrinks<R>(t: Tracker<R>, cutoff: int)
    ensures var u := t.ReleaseStale(cutoff);
      u.last == t.last && u.pending == t.pending && u.active.Keys <= t.active.Keys
  {
  }

  /** At most one header range is out at a time, and it is always the next one. */
  lemma AssignHeadersKeeps(initial: nat, s: Shared, now: int)
    requires SharedOk(initial, s)
    ensures var (t, a) := AssignHeaders(s, now);
      && SharedOk(initial, t) && Grows(s, t) && t.(headers := s.headers) == s
      && (a.Some? ==>
            && RangeOk(t, a.value) && a.value.start == s.headers.last + 1
            && t.headers.active.Keys == {a.value.start})
  {
    var u := s.headers.ReleaseStale(now - HEADER_ASSIGNMENT_TIMEOUT);
    StaleReleaseShrinks(s.headers, now - HEADER_ASSIGNMENT_TIMEOUT);
    var (t, a) := AssignHeaders(s, now);
    FiltersStable(initial, s, t);
    if a.Some? {
      var k := u.Skips(u.last + 1, HEADERS_PER_REQUEST);
      assert a.value.start == u.last + 1 + k * HEADERS_PER_REQUEST;
      assert At(s.chain, a.value.start - 1).Some?;
      assert HeaderOk(s.blocks, s.chain[0].height + |s.chain| - 1, s.chain[|s.chain| - 1]);
      assert k == 0;
    }
  }

  lemma AssignedWithinBound(t: Tracker<FilterResponse>, u: Tracker<FilterResponse>, now: int)
    requires t.Bounded(FILTERS_PER_REQUEST, MAX_LOOKAHEAD_RANGES)
    requires u.last == t.last && u.pending == t.pending && u.active.Keys <= t.active.Keys
    ensures u.Bounded(FILTERS_PER_REQUEST, MAX_LOOKAHEAD_RANGES)
    ensures match u.NextStart(FILTERS_PER_REQUEST, MAX_LOOKAHEAD_RANGES)
      case None => true
      case Some(start) =>
        && !u.Busy(start) && u.last < start && u.WithinLookahead(start, FILTERS_PER_REQUEST, MAX_LOOKAHEAD_RANGES)
        && u.Add(start, now).Bounded(FILTERS_PER_REQUEST, MAX_LOOKAHEAD_RANGES)
  {
    forall h | u.Busy(h)
      ensures u.WithinLookahead(h, FILTERS_PER_REQUEST, MAX_LOOKAHEAD_RANGES)
    {
      assert t.Busy(h);
    }
    var k := u.Skips(u.last + 1, FILTERS_PER_REQUEST);
    var start := u.last + 1 + k * FILTERS_PER_REQUEST;
    if k < MAX_LOOKAHEAD_RANGES {
      forall h | u.Add(start, now).Busy(h)
        ensures u.WithinLookahead(h, FILTERS_PER_REQUEST, MAX_LOOKAHEAD_RANGES)
      {
        assert h == start || u.Busy(h);
      }
    }
  }

  /** Handing out or releasing a filter range leaves what is waiting and what is emitted alone. */
  lemma FiltersKept(initial: nat, s: Shared, t: Shared)
    requires FiltersOk(initial, s) && t == s.(filters := t.filters)
    requires t.filters.pending == s.filters.pending && t.filters.last == s.filters.last
    requires t.filters.Bounded(FILTERS_PER_REQUEST, MAX_LOOKAHEAD_RANGES)
    ensures FiltersOk(initial, t) && Emitted(t) == Emitted(s)
  {
    forall h | h in t.filters.pending
      ensures BatchOk(t, t.filters.pending[h])
    {
      BatchStable(s, t, s.filters.pending[h]);
    }
    forall i | 0 <= i < |Emitted(t)|
      ensures FilterOk(t, initial + 1 + i, Emitted(t)[i])
    {
      assert FilterOk(s, initial + 1 + i, Emitted(s)[i]);
    }
  }

  lemma AssignFiltersKeeps(initial: nat, s: Shared, now: int)
    requires SharedOk(initial, s)
    ensures TipHeight(s.chain) < |s.blocks|
    ensures var (t, a) := AssignFilters(s, now);
      && SharedOk(initial, t) && Grows(s, t) && t.(filters := s.filters) == s
      && (a.Some? ==>
            && RangeOk(t, a.value) && AheadOk(t, a.value.start)
            && a.value.Count() <= FILTERS_PER_REQUEST && a.value.stop <= TipHeight(s.chain)
            && !s.filters.ReleaseStale(now - FILTER_ASSIGNMENT_TIMEOUT).Busy(a.value.start))
  {
    InvAllows(initial, s);
    var cutoff := now - FILTER_ASSIGNMENT_TIMEOUT;
    var u := s.filters.ReleaseStale(cutoff);
    StaleReleaseShrinks(s.filters, cutoff);
    AssignedWithinBound(s.filters, u, now);
    FiltersKept(initial, s, AssignFilters(s, now).0);
  }

  /** Nothing can block the next filter range: unless it is being fetched, it is the one handed out. */
  lemma NextRangeIsOffered(initial: nat, s: Shared, now: int)
    requires SharedOk(initial, s)
    requires s.filters.last < TipHeight(s.chain)
    requires s.filters.last + 1 !in s.filters.ReleaseStale(now - FILTER_ASSIGNMENT_TIMEOUT).active
    ensures TipHeight(s.chain) < |s.blocks|
    ensures var a := AssignFilters(s, now).1; a.Some? && a.value.start == s.filters.last + 1
  {
    InvAllows(initial, s);
    var u := s.filters.ReleaseStale(now - FILTER_ASSIGNMENT_TIMEOUT);
    StaleReleaseShrinks(s.filters, now - FILTER_ASSIGNMENT_TIMEOUT);
    assert u.Skips(u.last + 1, FILTERS_PER_REQUEST) == 0;
  }

  // ---------- releasing, clearing, consuming ----------

  lemma ReleaseKeeps(initial: nat, s: Shared, h: Option<RangeRequest>, f: Option<RangeRequest>)
    requires SharedOk(initial, s)
    ensures var t := ReleaseFilters(ReleaseHeaders(s, h), f);
      SharedOk(initial, t) && Grows(s, t) && t.chain == s.chain && t.blocks == s.blocks
  {
    var t := ReleaseFilters(ReleaseHeaders(s, h), f);
    var v := t.(filters := s.filters);
    FiltersStable(initial, s, v);
    forall k | k in t.filters.pending
      ensures t.filters.pending[k].start == k && BatchOk(t, t.filters.pending[k])
    {
      BatchStable(s, t, s.filters.pending[k]);
    }
    forall k | t.filters.Busy(k)
      ensures t.filters.WithinLookahead(k, FILTERS_PER_REQUEST, MAX_LOOKAHEAD_RANGES)
    {
      assert s.filters.Busy(k);
    }
    assert Emitted(t) == Emitted(v);
    forall i | 0 <= i < |Emitted(t)|
      ensures FilterOk(t, initial + 1 + i, Emitted(t)[i])
    {
      assert FilterOk(v, initial + 1 + i, Emitted(v)[i]);
    }
  }

  lemma OtherStepsKeep(parses: Bytes -> bool, initial: nat, s: Shared, p: Peer, step: Step)
    requires SharedOk(initial, s) && PeerOk(s, p)
    requires step.ReorgStep? || step.BlockStep? || step.ConsumeStep?
    ensures TipHeight(s.chain) < |s.blocks| && NoEmptyBatch(s.filters)
    ensures var (t, q) := PeerNext(parses, s, p, step);
      SharedOk(initial, t) && PeerOk(t, q) && Grows(s, t) && t.chain == s.chain
  {
    InvAllows(initial, s);
    match step {
      case ReorgStep =>
        var t := ClearPending(s);
        forall k | t.filters.Busy(k)
          ensures t.filters.WithinLookahead(k, FILTERS_PER_REQUEST, MAX_LOOKAHEAD_RANGES)
        {
          assert s.filters.Busy(k);
        }
        assert Emitted(t) == Emitted(s);
        forall i | 0 <= i < |Emitted(t)|
          ensures FilterOk(t, initial + 1 + i, Emitted(t)[i])
        {
          assert FilterOk(s, initial + 1 + i, Emitted(s)[i]);
        }
        PeerStable(s, t, p);
      case BlockStep(b) =>
        var t := s.(blocks := s.blocks + [b]);
        forall i | 0 <= i < |t.chain|
          ensures HeaderOk(t.blocks, t.chain[0].height + i, t.chain[i])
        {
          assert HeaderOk(s.blocks, s.chain[0].height + i, s.chain[i]);
        }
        FiltersStable(initial, s, t);
        PeerStable(s, t, p);
      case ConsumeStep =>
        var t := Consume(s);
        assert t.delivered + t.ready == s.delivered + s.ready;
        FiltersStable(initial, s, t);
        PeerStable(s, t, p);
    }
  }

  // ---------- answers ----------

  ghost predicate StepGood(initial: nat, s: Shared, r: (Shared, Peer)) {
    SharedOk(initial, r.0) && PeerOk(r.0, r.1) && Grows(s, r.0)
  }

  lemma RejectKeeps(initial: nat, s: Shared, p: Peer, q: Peer)
    requires SharedOk(initial, s) && PeerOk(s, p)
    requires q == p.(connected := q.connected, invalid := q.invalid)
    ensures var (t, r) := ReleaseAssignments(s, q);
      SharedOk(initial, t) && PeerOk(t, r) && Grows(s, t) && t.chain == s.chain
  {
    ReleaseKeeps(initial, s, q.headerRange, q.filterRange);
    var (t, r) := ReleaseAssignments(s, q);
    PeerStable(s, t, q.(headerRange := None, filterRange := None, collected := []));
  }

  lemma Rejected(initial: nat, s: Shared, p: Peer) returns (r: (Shared, Peer))
    requires SharedOk(initial, s) && PeerOk(s, p)
    ensures r == Reject(s, p) && StepGood(initial, s, r) && r.0.chain == s.chain
  {
    r := Reject(s, p);
    RejectKeeps(initial, s, p, p.(invalid := true));
  }

  lemma DerivedLink(prev: Digest, hashes: seq<Digest>, i: nat)
    requires i < |hashes|
    ensures HeaderFold(prev, hashes[..i + 1]) == OfFilterHeader(hashes[i], HeaderFold(prev, hashes[..i]))
    ensures HeaderFold(prev, hashes[..0]) == prev
  {
    assert hashes[..i + 1][..i] == hashes[..i];
  }

  /** Whatever a peer answers, the headers that pass the check continue the chain where it was asked to. */
  lemma CheckedHeadersLink(s: Shared, a: RangeRequest, m: CFHeaders)
    requires ChainOk(s.blocks, s.chain) && RangeOk(s, a) && a.start <= s.headers.last + 1
    requires m.hashes != []
    requires CheckedHeaders(s.blocks, s.chain, a.start, m.hashes, m.prevFilterHeader).Some?
    ensures CheckedOk(s, HeaderResponse(a.start,
                        CheckedHeaders(s.blocks, s.chain, a.start, m.hashes, m.prevFilterHeader).value))
  {
    var hs := DerivedHeaders(s.blocks, a.start, m.hashes, m.prevFilterHeader);
    forall i | 0 <= i < |hs|
      ensures i > 0 ==> Links(hs[i], hs[i - 1].filterHeader)
      ensures i == 0 ==> Links(hs[i], m.prevFilterHeader)
    {
      DerivedLink(m.prevFilterHeader, m.hashes, i);
    }
  }

  lemma HeadersArriveKeeps(initial: nat, s: Shared, p: Peer, m: CFHeaders)
    requires SharedOk(initial, s) && PeerOk(s, p) && p.headerRange.Some?
    ensures StepGood(initial, s, HeadersArrive(s, p, m)) && HeadersArrive(s, p, m).0.chain == s.chain
  {
    var rejected := Rejected(initial, s, p);
    var a := p.headerRange.value;
    if m.hashes != [] && CheckedHeaders(s.blocks, s.chain, a.start, m.hashes, m.prevFilterHeader).Some? {
      CheckedHeadersLink(s, a, m);
    }
  }

  /** Whatever a peer sends, a batch that passes the check is committed to by the chain, filter by filter. */
  lemma CheckedFiltersCommitted(parses: Bytes -> bool, s: Shared, start: nat, batch: seq<CFilter>)
    requires CheckedFilters(parses, s.blocks, s.chain, start, batch).Some?
    ensures BatchOk(s, FilterResponse(start, CheckedFilters(parses, s.blocks, s.chain, start, batch).value))
  {
    var fs := CheckedFilters(parses, s.blocks, s.chain, start, batch).value;
    forall i | 0 <= i < |fs|
      ensures FilterOk(s, start + i, fs[i])
    {
      assert FilterFits(parses, s.blocks, s.chain, start + i, batch[i].bytes);
    }
  }

  lemma FilterArrivesKeeps(parses: Bytes -> bool, initial: nat, s: Shared, p: Peer, m: CFilter)
    requires SharedOk(initial, s) && PeerOk(s, p) && p.filterRange.Some?
    ensures StepGood(initial, s, FilterArrives(parses, s, p, m)) && FilterArrives(parses, s, p, m).0.chain == s.chain
  {
    var a := p.filterRange.value;
    var batch := p.collected + [m];
    if m.blockHash == a.stopHash || |batch| >= a.Count() {
      if CheckedFilters(parses, s.blocks, s.chain, a.start, batch).Some? {
        CheckedFiltersCommitted(parses, s, a.start, batch);
      } else {
        var rejected := Rejected(initial, s, p);
      }
    }
  }

  // ---------- every step, every run ----------

  lemma SyncHeadersKeeps(initial: nat, s: Shared, p: Peer, now: int)
    requires SharedOk(initial, s) && PeerOk(s, p)
    ensures StepGood(initial, s, SyncHeaders(s, p, now))
  {
    AssignHeadersKeeps(initial, s, now);
    PeerStable(s, AssignHeaders(s, now).0, p);
  }

  lemma SyncFiltersKeeps(initial: nat, s: Shared, p: Peer, now: int)
    requires SharedOk(initial, s) && PeerOk(s, p) && TipHeight(s.chain) < |s.blocks|
    ensures StepGood(initial, s, SyncFilters(s, p, now))
  {
    AssignFiltersKeeps(initial, s, now);
    PeerStable(s, AssignFilters(s, now).0, p);
  }

  lemma HeadersReportedKeeps(initial: nat, s: Shared, p: Peer)
    requires SharedOk(initial, s) && PeerOk(s, p) && p.checkedHeaders.Some?
    ensures StepGood(initial, s, HeadersReported(s, p))
  {
    var t := ReportHeaders(s, p.checkedHeaders.value);
    ReportHeadersExact(initial, s, p.checkedHeaders.value);
    PeerStable(s, t, p.(checkedHeaders := None, headerRange := None));
  }

  lemma FiltersReportedKeeps(initial: nat, s: Shared, p: Peer)
    requires SharedOk(initial, s) && PeerOk(s, p) && p.checkedFilters.Some?
    requires p.checkedFilters.value.filters != [] && NoEmptyBatch(s.filters)
    ensures StepGood(initial, s, FiltersReported(s, p))
  {
    var t := ReportFilters(s, p.checkedFilters.value);
    ReportFiltersKeeps(initial, s, p.checkedFilters.value);
    PeerStable(s, t, p.(checkedFilters := None, filterRange := None));
  }

  lemma PeerNextKeeps(parses: Bytes -> bool, initial: nat, s: Shared, p: Peer, step: Step)
    requires SharedOk(initial, s) && PeerOk(s, p)
    ensures TipHeight(s.chain) < |s.blocks| && NoEmptyBatch(s.filters)
    ensures StepGood(initial, s, PeerNext(parses, s, p, step))
  {
    InvAllows(initial, s);
    PeerStable(s, s, p);
    match step {
      case SyncHeadersStep(_, now) =>
        SyncHeadersKeeps(initial, s, p, now);
      case SyncFiltersStep(_, now) =>
        SyncFiltersKeeps(initial, s, p, now);
      case HeadersArriveStep(_, m) =>
        if p.headerRange.Some? {
          HeadersArriveKeeps(initial, s, p, m);
        }
      case HeadersReportedStep(_) =>
        if p.checkedHeaders.Some? {
          HeadersReportedKeeps(initial, s, p);
        }
      case FilterArrivesStep(_, m) =>
        if p.filterRange.Some? {
          FilterArrivesKeeps(parses, initial, s, p, m);
        }
      case FiltersReportedStep(_) =>
        if p.checkedFilters.Some? {
          FiltersReportedKeeps(initial, s, p);
        }
      case DisconnectStep(_) =>
        RejectKeeps(initial, s, p, p.(connected := false));
      case _ =>
        OtherStepsKeep(parses, initial, s, p, step);
    }
  }

  lemma StepKeeps(parses: Bytes -> bool, initial: nat, sys: System, step: Step)
    requires Inv(initial, sys)
    ensures Inv(initial, Next(parses, initial, sys, step))
    ensures Grows(sys.shared, Next(parses, initial, sys, step).shared)
  {
    var s := sys.shared;
    var t := Next(parses, initial, sys, step);
    if step.ReorgStep? || step.BlockStep? || step.ConsumeStep? {
      OtherStepsKeep(parses, initial, s, FRESH_PEER, step);
    } else {
      PeerNextKeeps(parses, initial, s, sys.PeerAt(step.peer), step);
    }
    forall id | id in t.peers
      ensures PeerOk(t.shared, t.peers[id])
    {
      if id in sys.peers {
        PeerStable(s, t.shared, sys.peers[id]);
      }
    }
  }

  /** The state after a run.  That the invariant survives is part of the contract. */
  ghost function Run(parses: Bytes -> bool, initial: nat, sys: System, steps: seq<Step>): (r: System)
    requires Inv(initial, sys)
    ensures Inv(initial, r)
    decreases steps
  {
    if steps == [] then sys
    else
      StepKeeps(parses, initial, sys, steps[0]);
      Run(parses, initial, Next(parses, initial, sys, steps[0]), steps[1..])
  }

  ghost function InitialSystem(blocks: seq<ChainedBlock>, chain: seq<SmartHeader>, tipHeight: nat): System {
    System(InitialShared(blocks, chain, tipHeight), map[])
  }

  lemma InitialOk(blocks: seq<ChainedBlock>, chain: seq<SmartHeader>, tipHeight: nat)
    requires ChainOk(blocks, chain)
    ensures Inv(tipHeight, InitialSystem(blocks, chain, tipHeight))
  {
    var s := InitialSystem(blocks, chain, tipHeight).shared;
    assert s.delivered + s.ready == [];
  }
}
