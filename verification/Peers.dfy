/** One connected peer: what it has been asked for, what it has answered, and its reaction to each message. */
module Peers {
  import opened Digests
  import opened SyncState

  datatype CFHeaders = CFHeaders(stopHash: Digest, prevFilterHeader: Digest, hashes: seq<Digest>)

  datatype FilterType = Basic | Other

  datatype Message =
    | CFHeadersMessage(headersType: FilterType, cfheaders: CFHeaders)
    | CFilterMessage(filterType: FilterType, cfilter: CFilter)
    | OtherMessage

  /** `checkedHeaders` and `checkedFilters` hold an answer that has been validated but not yet reported to the
      shared state: the two are separate critical sections, and other peers may act in between. */
  datatype Peer = Peer(
    connected: bool,
    invalid: bool,
    headerRange: Option<RangeRequest>,
    filterRange: Option<RangeRequest>,
    collected: seq<CFilter>,
    checkedHeaders: Option<HeaderResponse>,
    checkedFilters: Option<FilterResponse>)
  {
    predicate CanSync() {
      connected && !invalid
    }
  }

  const FRESH_PEER := Peer(true, false, None, None, [], None, None)

  /** Gives back whatever the peer has been asked for. */
  ghost function ReleaseAssignments(s: Shared, p: Peer): (Shared, Peer) {
    (ReleaseFilters(ReleaseHeaders(s, p.headerRange), p.filterRange),
     p.(headerRange := None, filterRange := None, collected := []))
  }

  ghost function Reject(s: Shared, p: Peer): (Shared, Peer) {
    ReleaseAssignments(s, p.(invalid := true))
  }

  ghost function SyncHeaders(s: Shared, p: Peer, now: int): (Shared, Peer) {
    if !p.CanSync() || p.headerRange.Some? then (s, p)
    else
      var (t, r) := AssignHeaders(s, now);
      (t, p.(headerRange := r))
  }

  ghost function SyncFilters(s: Shared, p: Peer, now: int): (Shared, Peer)
    requires TipHeight(s.chain) < |s.blocks|
  {
    if !p.CanSync() || p.filterRange.Some? then (s, p)
    else
      var (t, r) := AssignFilters(s, now);
      (t, if r.None? then p else p.(filterRange := r, collected := []))
  }

  ghost function TrySync(s: Shared, p: Peer, now: int): (Shared, Peer)
    requires TipHeight(s.chain) < |s.blocks|
  {
    var (t, q) := SyncHeaders(s, p, now);
    SyncFilters(t, q, now)
  }

  /** A cfheaders answer is checked.  An unknown stop hash is ignored, everything else that does not fit the
      assignment or the chain makes the peer invalid. */
  ghost function HeadersArrive(s: Shared, p: Peer, m: CFHeaders): (Shared, Peer)
    requires p.headerRange.Some?
  {
    var a := p.headerRange.value;
    if m.hashes == [] then Reject(s, p)
    else match FindBlock(s.blocks, m.stopHash)
      case None => (s, p)
      case Some(stop) =>
        if stop - |m.hashes| + 1 != a.start then Reject(s, p)
        else match CheckedHeaders(s.blocks, s.chain, a.start, m.hashes, m.prevFilterHeader)
          case None => Reject(s, p)
          case Some(headers) => (s, p.(checkedHeaders := Some(HeaderResponse(a.start, headers))))
  }

  ghost function HeadersReported(s: Shared, p: Peer): (Shared, Peer)
    requires p.checkedHeaders.Some?
  {
    (ReportHeaders(s, p.checkedHeaders.value), p.(checkedHeaders := None, headerRange := None))
  }

  /** A cfilter is collected; the batch is checked at the stop hash or when the count is reached. */
  ghost function FilterArrives(parses: Bytes -> bool, s: Shared, p: Peer, m: CFilter): (Shared, Peer)
    requires p.filterRange.Some?
  {
    var a := p.filterRange.value;
    var batch := p.collected + [m];
    if m.blockHash != a.stopHash && |batch| < a.Count() then (s, p.(collected := batch))
    else match CheckedFilters(parses, s.blocks, s.chain, a.start, batch)
      case None => Reject(s, p)
      case Some(filters) =>
        (s, p.(collected := [], checkedFilters := Some(FilterResponse(a.start, filters))))
  }

  ghost function FiltersReported(s: Shared, p: Peer): (Shared, Peer)
    requires p.checkedFilters.Some? && p.checkedFilters.value.filters != [] && NoEmptyBatch(s.filters)
  {
    (ReportFilters(s, p.checkedFilters.value), p.(checkedFilters := None, filterRange := None))
  }
}
