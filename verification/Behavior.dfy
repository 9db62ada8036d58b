/** The per-connection object, and the proof that its handlers are runs of the step relation. */
module Behavior {
  import opened Digests
  import opened SyncState
  import opened Peers
  import opened Protocol
  import opened Runs

  /** Reporting a validated answer, then asking for the next ranges. */
  ghost function ReportAndSync(parses: Bytes -> bool, initial: nat, s: Shared, p: Peer, report: Step, now: int)
    : (r: (Shared, Peer))
    requires SharedOk(initial, s) && PeerOk(s, p)
    ensures SharedOk(initial, r.0) && PeerOk(r.0, r.1)
  {
    var (u, q) := Stepped(parses, initial, s, p, report);
    TrySyncKeeps(parses, initial, u, q, now);
    TrySync(u, q, now)
  }

  /** The reaction to one answer: check it, and if it is good report it and ask for more. */
  ghost function Handled(parses: Bytes -> bool, initial: nat, s: Shared, p: Peer, arrive: Step, report: Step, now: int)
    : (r: (Shared, Peer))
    requires SharedOk(initial, s) && PeerOk(s, p)
    ensures SharedOk(initial, r.0) && PeerOk(r.0, r.1)
  {
    var (t, q) := Stepped(parses, initial, s, p, arrive);
    if Reporting(q) then ReportAndSync(parses, initial, t, q, report, now) else (t, q)
  }

  /** The reaction to one message.  Only basic filters are looked at, and only when they were asked for. */
  ghost function Received(parses: Bytes -> bool, initial: nat, s: Shared, p: Peer, id: nat, m: Message, now: int)
    : (r: (Shared, Peer))
    requires SharedOk(initial, s) && PeerOk(s, p)
    ensures SharedOk(initial, r.0) && PeerOk(r.0, r.1)
  {
    if !p.CanSync() then (s, p)
    else if p.headerRange.Some? && m.CFHeadersMessage? && m.headersType.Basic? then
      Handled(parses, initial, s, p, HeadersArriveStep(id, m.cfheaders), HeadersReportedStep(id), now)
    else if p.filterRange.Some? && m.CFilterMessage? && m.filterType.Basic? then
      Handled(parses, initial, s, p, FilterArrivesStep(id, m.cfilter), FiltersReportedStep(id), now)
    else (s, p)
  }

  lemma TrySyncKeeps(parses: Bytes -> bool, initial: nat, s: Shared, p: Peer, now: int)
    requires SharedOk(initial, s) && PeerOk(s, p)
    ensures TipHeight(s.chain) < |s.blocks|
    ensures var (t, q) := SyncHeaders(s, p, now);
      SharedOk(initial, t) && PeerOk(t, q) && TipHeight(t.chain) < |t.blocks|
    ensures var (t, q) := TrySync(s, p, now); SharedOk(initial, t) && PeerOk(t, q)
  {
    PeerNextKeeps(parses, initial, s, p, SyncHeadersStep(0, now));
    var (t, q) := SyncHeaders(s, p, now);
    PeerNextKeeps(parses, initial, t, q, SyncFiltersStep(0, now));
  }

  /** The steps of the protocol that one handler call amounts to. */
  ghost function HandlerSteps(parses: Bytes -> bool, initial: nat, s: Shared, p: Peer, id: nat, m: Message, now: int)
    : seq<Step>
    requires SharedOk(initial, s) && PeerOk(s, p)
  {
    if !p.CanSync() then []
    else if p.headerRange.Some? && m.CFHeadersMessage? && m.headersType.Basic? then
      HandledSteps(parses, initial, s, p, HeadersArriveStep(id, m.cfheaders), HeadersReportedStep(id), now)
    else if p.filterRange.Some? && m.CFilterMessage? && m.filterType.Basic? then
      HandledSteps(parses, initial, s, p, FilterArrivesStep(id, m.cfilter), FiltersReportedStep(id), now)
    else []
  }

  ghost function HandledSteps(parses: Bytes -> bool, initial: nat, s: Shared, p: Peer,
                              arrive: Step, report: Step, now: int): seq<Step>
    requires SharedOk(initial, s) && PeerOk(s, p)
    requires arrive.HeadersArriveStep? || arrive.FilterArrivesStep?
  {
    if Reporting(Stepped(parses, initial, s, p, arrive).1)
    then [arrive] + ([report] + ([SyncHeadersStep(arrive.peer, now)] + [SyncFiltersStep(arrive.peer, now)]))
    else [arrive]
  }

  lemma SyncIsRun(parses: Bytes -> bool, initial: nat, sys: System, id: nat, now: int)
    requires Inv(initial, sys)
    ensures TipHeight(sys.shared.chain) < |sys.shared.blocks|
    ensures Run(parses, initial, sys, [SyncHeadersStep(id, now)] + [SyncFiltersStep(id, now)])
         == With(sys, id, TrySync(sys.shared, sys.PeerAt(id), now))
  {
    TrySyncKeeps(parses, initial, sys.shared, sys.PeerAt(id), now);
    var filters := SyncFiltersStep(id, now);
    RunThen(parses, initial, sys, id, SyncHeadersStep(id, now), [filters]);
    var one := With(sys, id, Stepped(parses, initial, sys.shared, sys.PeerAt(id), SyncHeadersStep(id, now)));
    RunThen(parses, initial, one, id, filters, []);
    assert [filters] + [] == [filters];
    WithTwice(sys, id, (one.shared, one.peers[id]), TrySync(sys.shared, sys.PeerAt(id), now));
  }

  lemma ReportIsRun(parses: Bytes -> bool, initial: nat, sys: System, id: nat, report: Step, now: int)
    requires Inv(initial, sys) && id in sys.peers
    requires report == HeadersReportedStep(id) || report == FiltersReportedStep(id)
    ensures Run(parses, initial, sys, [report] + ([SyncHeadersStep(id, now)] + [SyncFiltersStep(id, now)]))
         == With(sys, id, ReportAndSync(parses, initial, sys.shared, sys.peers[id], report, now))
  {
    RunThen(parses, initial, sys, id, report, [SyncHeadersStep(id, now)] + [SyncFiltersStep(id, now)]);
    var reported := Stepped(parses, initial, sys.shared, sys.peers[id], report);
    SyncIsRun(parses, initial, With(sys, id, reported), id, now);
    WithTwice(sys, id, reported, ReportAndSync(parses, initial, sys.shared, sys.peers[id], report, now));
  }

  lemma HandledIsRun(parses: Bytes -> bool, initial: nat, sys: System, id: nat, arrive: Step, report: Step, now: int)
    requires Inv(initial, sys) && id in sys.peers
    requires (arrive.HeadersArriveStep? || arrive.FilterArrivesStep?) && arrive.peer == id
    requires report == HeadersReportedStep(id) || report == FiltersReportedStep(id)
    ensures Run(parses, initial, sys, HandledSteps(parses, initial, sys.shared, sys.peers[id], arrive, report, now))
         == With(sys, id, Handled(parses, initial, sys.shared, sys.peers[id], arrive, report, now))
  {
    var arrived := Stepped(parses, initial, sys.shared, sys.peers[id], arrive);
    if Reporting(arrived.1) {
      RunThen(parses, initial, sys, id, arrive,
              [report] + ([SyncHeadersStep(id, now)] + [SyncFiltersStep(id, now)]));
      ReportIsRun(parses, initial, With(sys, id, arrived), id, report, now);
      WithTwice(sys, id, arrived, Handled(parses, initial, sys.shared, sys.peers[id], arrive, report, now));
    } else {
      RunThen(parses, initial, sys, id, arrive, []);
      assert [arrive] + [] == [arrive];
    }
  }

  /** A handler call is a run: what holds after every run holds after every sequence of handler calls. */
  lemma HandlerIsRun(parses: Bytes -> bool, initial: nat, sys: System, id: nat, m: Message, now: int)
    requires Inv(initial, sys) && id in sys.peers
    ensures Run(parses, initial, sys, HandlerSteps(parses, initial, sys.shared, sys.peers[id], id, m, now))
         == With(sys, id, Received(parses, initial, sys.shared, sys.peers[id], id, m, now))
  {
    var p := sys.peers[id];
    assert sys.peers[id := p] == sys.peers;
    if !p.CanSync() {
    } else if p.headerRange.Some? && m.CFHeadersMessage? && m.headersType.Basic? {
      HandledIsRun(parses, initial, sys, id, HeadersArriveStep(id, m.cfheaders), HeadersReportedStep(id), now);
    } else if p.filterRange.Some? && m.CFilterMessage? && m.filterType.Basic? {
      HandledIsRun(parses, initial, sys, id, FilterArrivesStep(id, m.cfilter), FiltersReportedStep(id), now);
    }
  }

  class CompactFilterBehavior {
    const synchronizationState: FilterSynchronizationState
    const parses: Bytes -> bool  // what the Golomb-Rice filter constructor accepts
    ghost const initialHeight: nat
    ghost const id: nat

    var connected: bool
    var invalidReceived: bool
    var assignedHeaderRange: Option<RangeRequest>
    var assignedFilterRange: Option<RangeRequest>
    var collectedFilters: seq<CFilter>

    ghost function Model(): Peer
      reads this
    {
      Peer(connected, invalidReceived, assignedHeaderRange, assignedFilterRange, collectedFilters, None, None)
    }

    ghost function Objects(): set<object> {
      {synchronizationState.headerTracker as object, synchronizationState.filterTracker as object,
       synchronizationState.filterHeaderChain as object}
    }

    ghost predicate Valid()
      reads this, synchronizationState, Objects(), synchronizationState.blockHeaderChain
    {
      && SharedOk(initialHeight, synchronizationState.Model())
      && PeerOk(synchronizationState.Model(), Model())
    }

    constructor (state: FilterSynchronizationState, parses: Bytes -> bool, ghost initialHeight: nat, ghost id: nat)
      requires SharedOk(initialHeight, state.Model())
      ensures Valid() && Model() == FRESH_PEER
      ensures synchronizationState == state && this.parses == parses
      ensures this.initialHeight == initialHeight && this.id == id
    {
      synchronizationState := state;
      this.parses := parses;
      this.initialHeight, this.id := initialHeight, id;
      connected, invalidReceived := true, false;
      assignedHeaderRange, assignedFilterRange, collectedFilters := None, None, [];
    }

    method OnMessageReceived(message: Message, now: int)
      requires Valid()
      modifies this, synchronizationState, Objects()
      ensures Valid()
      ensures (synchronizationState.Model(), Model()) ==
        old(Received(parses, initialHeight, synchronizationState.Model(), Model(), id, message, now))
    {
      if !IsNodeInValidState() {
        return;
      }
      if assignedHeaderRange.Some? && message.CFHeadersMessage? && message.headersType.Basic? {
        HandleFilterHeaderMessage(message.cfheaders, assignedHeaderRange.value, now);
        return;
      }
      if assignedFilterRange.Some? && message.CFilterMessage? && message.filterType.Basic? {
        HandleFilterMessage(message.cfilter, assignedFilterRange.value, now);
      }
    }

    predicate IsNodeInValidState()
      reads this
    {
      !invalidReceived && connected
    }

    method HandleFilterHeaderMessage(cfHeaders: CFHeaders, assignment: RangeRequest, now: int)
      requires Valid() && IsNodeInValidState() && assignedHeaderRange == Some(assignment)
      modifies this, synchronizationState, Objects()
      ensures Valid()
      ensures (synchronizationState.Model(), Model()) ==
        old(Received(parses, initialHeight, synchronizationState.Model(), Model(), id,
                     CFHeadersMessage(Basic, cfHeaders), now))
    {
      ghost var s, p := synchronizationState.Model(), Model();
      ghost var checked := Stepped(parses, initialHeight, s, p, HeadersArriveStep(id, cfHeaders));
      var batchCount := |cfHeaders.hashes|;
      if batchCount == 0 {
        HandleInvalid();
        return;
      }
      var stopBlock := FindBlock(synchronizationState.blockHeaderChain.blocks, cfHeaders.stopHash);
      if stopBlock.None? {
        return;
      }
      var startHeight := stopBlock.value - batchCount + 1;
      if startHeight < 0 {
        HandleInvalid();
        return;
      }
      if startHeight != assignment.start {
        HandleInvalid();
        return;
      }
      var validatedHeaders := synchronizationState.ValidateFilterHeaders(
        assignment, cfHeaders.hashes, cfHeaders.prevFilterHeader);
      if validatedHeaders.None? {
        HandleInvalid();
        return;
      }
      assert checked == (s, p.(checkedHeaders := Some(HeaderResponse(assignment.start, validatedHeaders.value))));
      ReportHeaders(assignment, validatedHeaders.value, now);
    }

    method ReportHeaders(assignment: RangeRequest, headers: seq<SmartHeader>, now: int)
      requires SharedOk(initialHeight, synchronizationState.Model())
      requires PeerOk(synchronizationState.Model(),
                      Model().(checkedHeaders := Some(HeaderResponse(assignment.start, headers))))
      modifies this, synchronizationState, Objects()
      ensures Valid()
      ensures (synchronizationState.Model(), Model()) ==
        old(ReportAndSync(parses, initialHeight, synchronizationState.Model(),
                          Model().(checkedHeaders := Some(HeaderResponse(assignment.start, headers))),
                          HeadersReportedStep(id), now))
    {
      ghost var s, q := synchronizationState.Model(),
                        Model().(checkedHeaders := Some(HeaderResponse(assignment.start, headers)));
      ghost var reported := Stepped(parses, initialHeight, s, q, HeadersReportedStep(id));
      synchronizationState.OnHeaderCompleted(assignment.start, headers);
      assignedHeaderRange := None;
      assert (synchronizationState.Model(), Model()) == reported;
      TrySync(now);
    }

    method HandleFilterMessage(filterPayload: CFilter, assignment: RangeRequest, now: int)
      requires Valid() && IsNodeInValidState() && assignedFilterRange == Some(assignment)
      modifies this, synchronizationState, Objects()
      ensures Valid()
      ensures (synchronizationState.Model(), Model()) ==
        old(Received(parses, initialHeight, synchronizationState.Model(), Model(), id,
                     CFilterMessage(Basic, filterPayload), now))
    {
      ghost var s, p := synchronizationState.Model(), Model();
      ghost var checked := Stepped(parses, initialHeight, s, p, FilterArrivesStep(id, filterPayload));
      collectedFilters := collectedFilters + [filterPayload];
      if filterPayload.blockHash != assignment.stopHash && |collectedFilters| < assignment.Count() {
        return;
      }
      var filters := collectedFilters;
      collectedFilters := [];
      var validatedFilters := ValidateFilters(assignment.start, filters);
      if validatedFilters.None? {
        HandleInvalid();
        return;
      }
      assert checked ==
        (s, Model().(checkedFilters := Some(FilterResponse(assignment.start, validatedFilters.value))));
      ReportFilters(assignment, validatedFilters.value, now);
    }

    method ReportFilters(assignment: RangeRequest, filters: seq<FilterModel>, now: int)
      requires SharedOk(initialHeight, synchronizationState.Model())
      requires PeerOk(synchronizationState.Model(),
                      Model().(checkedFilters := Some(FilterResponse(assignment.start, filters))))
      modifies this, synchronizationState, Objects()
      ensures Valid()
      ensures (synchronizationState.Model(), Model()) ==
        old(ReportAndSync(parses, initialHeight, synchronizationState.Model(),
                          Model().(checkedFilters := Some(FilterResponse(assignment.start, filters))),
                          FiltersReportedStep(id), now))
    {
      ghost var s, q := synchronizationState.Model(),
                        Model().(checkedFilters := Some(FilterResponse(assignment.start, filters)));
      ghost var reported := Stepped(parses, initialHeight, s, q, FiltersReportedStep(id));
      InvAllows(initialHeight, s);
      synchronizationState.OnFilterRangeCompleted(assignment.start, filters);
      assignedFilterRange := None;
      assert (synchronizationState.Model(), Model()) == reported;
      TrySync(now);
    }

    /** Checks a batch of filters against the headers the client already has. */
    method ValidateFilters(startHeight: nat, filters: seq<CFilter>) returns (r: Option<seq<FilterModel>>)
      ensures r == CheckedFilters(parses, synchronizationState.blockHeaderChain.blocks,
                                  synchronizationState.filterHeaderChain.chain, startHeight, filters)
    {
      ghost var chain := synchronizationState.filterHeaderChain.chain;
      var blocks := synchronizationState.blockHeaderChain.blocks;
      if |filters| == 0 {
        return None;
      }
      var previous := if startHeight == 0 then Some(Zero)
                      else synchronizationState.GetExpectedFilterHeader(startHeight - 1);
      if previous.None? {
        assert !FilterFits(parses, blocks, chain, startHeight + 0, filters[0].bytes);
        return None;
      }
      var prevFilterHeader := previous.value;
      var result: seq<FilterModel> := [];
      for i := 0 to |filters|
        invariant PrevHeader(chain, startHeight + i) == Some(prevFilterHeader)
        invariant |result| == i
        invariant forall j :: 0 <= j < i ==>
          && FilterFits(parses, blocks, chain, startHeight + j, filters[j].bytes)
          && result[j] == FilterModelAt(blocks, chain, startHeight + j, filters[j])
      {
        var height := startHeight + i;
        var expectedHeader := synchronizationState.GetExpectedFilterHeader(height);
        ghost var fits := FilterFits(parses, blocks, chain, startHeight + i, filters[i].bytes);
        if expectedHeader.None? {
          assert !fits;
          return None;
        }
        if !parses(filters[i].bytes) {
          assert !fits;
          return None;
        }
        var actualHeader := OfFilterHeader(OfFilter(filters[i].bytes), prevFilterHeader);
        if actualHeader != expectedHeader.value {
          assert !fits;
          return None;
        }
        if height >= |blocks| {
          assert !fits;
          return None;
        }
        result := result +
          [FilterModel(SmartHeader(filters[i].blockHash, actualHeader, height, blocks[height].time), filters[i].bytes)];
        prevFilterHeader := actualHeader;
      }
      assert result == CheckedFilters(parses, blocks, chain, startHeight, filters).value;
      return Some(result);
    }

    method TrySync(now: int)
      requires Valid()
      modifies this, synchronizationState.headerTracker, synchronizationState.filterTracker
      ensures Valid()
      ensures TipHeight(old(synchronizationState.Model()).chain) < |old(synchronizationState.Model()).blocks|
      ensures (synchronizationState.Model(), Model()) ==
        Peers.TrySync(old(synchronizationState.Model()), old(Model()), now)
    {
      TrySyncKeeps(parses, initialHeight, synchronizationState.Model(), Model(), now);
      if !IsNodeInValidState() {
        return;
      }
      TrySyncHeaders(now);
      TrySyncFilters(now);
    }

    method TrySyncHeaders(now: int)
      requires Valid() && IsNodeInValidState()
      modifies this, synchronizationState.headerTracker
      ensures (synchronizationState.Model(), Model()) ==
        SyncHeaders(old(synchronizationState.Model()), old(Model()), now)
    {
      if assignedHeaderRange.Some? {
        return;
      }
      var headerAssignment := synchronizationState.TryAssignHeaderRange(now);
      assignedHeaderRange := headerAssignment;
    }

    method TrySyncFilters(now: int)
      requires IsNodeInValidState()
      requires TipHeight(synchronizationState.Model().chain) < |synchronizationState.Model().blocks|
      modifies this, synchronizationState.filterTracker
      ensures (synchronizationState.Model(), Model()) ==
        SyncFilters(old(synchronizationState.Model()), old(Model()), now)
    {
      if assignedFilterRange.Some? {
        return;
      }
      var filterAssignment := synchronizationState.TryAssignFilterRange(now);
      if filterAssignment.None? {
        return;
      }
      assignedFilterRange := filterAssignment;
      collectedFilters := [];
    }

    method HandleInvalid()
      modifies this, synchronizationState.headerTracker, synchronizationState.filterTracker
      ensures (synchronizationState.Model(), Model()) == Reject(old(synchronizationState.Model()), old(Model()))
    {
      invalidReceived := true;
      ReleaseAll();
    }

    method ReleaseAll()
      modifies this, synchronizationState.headerTracker, synchronizationState.filterTracker
      ensures (synchronizationState.Model(), Model()) ==
        ReleaseAssignments(old(synchronizationState.Model()), old(Model()))
    {
      if assignedHeaderRange.Some? {
        synchronizationState.OnHeaderNodeDisconnected(assignedHeaderRange.value);
        assignedHeaderRange := None;
      }
      if assignedFilterRange.Some? {
        synchronizationState.OnFilterNodeDisconnected(assignedFilterRange.value);
        assignedFilterRange := None;
      }
      collectedFilters := [];
    }

    /** The connection is gone. */
    method Detach()
      requires Valid()
      modifies this, synchronizationState.headerTracker, synchronizationState.filterTracker
      ensures Valid()
      ensures (synchronizationState.Model(), Model()) ==
        ReleaseAssignments(old(synchronizationState.Model()), old(Model()).(connected := false))
    {
      RejectKeeps(initialHeight, synchronizationState.Model(), Model(), Model().(connected := false));
      connected := false;
      ReleaseAll();
    }
  }
}
