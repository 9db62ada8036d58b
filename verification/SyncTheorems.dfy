/** What holds after every run, for any number of peers, any messages and any interleaving. */
module SyncTheorems {
  import opened Digests
  import opened Tracking
  import opened SyncState
  import opened Peers
  import opened Protocol

  /** The state reached from a client start, where the store holds `chain` and filters up to `tipHeight`. */
  ghost function Reach(parses: Bytes -> bool, blocks: seq<ChainedBlock>, chain: seq<SmartHeader>, tipHeight: nat,
                       steps: seq<Step>): (r: System)
    requires ChainOk(blocks, chain)
    ensures Inv(tipHeight, r)
  {
    InitialOk(blocks, chain, tipHeight);
    Run(parses, tipHeight, InitialSystem(blocks, chain, tipHeight), steps)
  }

  lemma {:induction false} RunGrows(parses: Bytes -> bool, initial: nat, sys: System, steps: seq<Step>)
    requires Inv(initial, sys)
    ensures Grows(sys.shared, Run(parses, initial, sys, steps).shared)
    decreases steps
  {
    if steps != [] {
      StepKeeps(parses, initial, sys, steps[0]);
      RunGrows(parses, initial, Next(parses, initial, sys, steps[0]), steps[1..]);
    }
  }

  /** In-order delivery: what the channel has carried is exactly one filter per height, in height order, from
      the first missing height to the last processed one, and the header chain commits to each of them. */
  lemma InOrderDelivery(parses: Bytes -> bool, blocks: seq<ChainedBlock>, chain: seq<SmartHeader>, tipHeight: nat,
                        steps: seq<Step>)
    requires ChainOk(blocks, chain)
    ensures var s := Reach(parses, blocks, chain, tipHeight, steps).shared;
      && s.filters.last == tipHeight + |Emitted(s)|
      && forall i :: 0 <= i < |Emitted(s)| ==>
           var f := Emitted(s)[i];
           && f.header.height == tipHeight + 1 + i
           && At(s.chain, f.header.height).Some? && PrevHeader(s.chain, f.header.height).Some?
           && At(s.chain, f.header.height).value.filterHeader
              == OfFilterHeader(OfFilter(f.filter), PrevHeader(s.chain, f.header.height).value)
  {
    var s := Reach(parses, blocks, chain, tipHeight, steps).shared;
    forall i | 0 <= i < |Emitted(s)|
      ensures FilterOk(s, tipHeight + 1 + i, Emitted(s)[i])
    {
    }
  }

  /** The filter-header chain has no gaps, each header hashes some filter hash onto the one before, the stored
      headers stay, and the branch that logs a refused header is never taken. */
  lemma HeaderChainLinked(parses: Bytes -> bool, blocks: seq<ChainedBlock>, chain: seq<SmartHeader>, tipHeight: nat,
                          steps: seq<Step>)
    requires ChainOk(blocks, chain)
    ensures var s := Reach(parses, blocks, chain, tipHeight, steps).shared;
      && chain <= s.chain && blocks <= s.blocks
      && (forall i :: 0 <= i < |s.chain| ==> s.chain[i].height == chain[0].height + i)
      && (forall i :: 0 < i < |s.chain| ==>
            s.chain[i].filterHeader.OfFilterHeader? &&
            s.chain[i].filterHeader.prev == s.chain[i - 1].filterHeader)
      && s.appendFailures == 0
  {
    InitialOk(blocks, chain, tipHeight);
    RunGrows(parses, tipHeight, InitialSystem(blocks, chain, tipHeight), steps);
    var s := Reach(parses, blocks, chain, tipHeight, steps).shared;
    assert s.chain[0] == chain[0];
    forall i | 0 <= i < |s.chain|
      ensures s.chain[i].height == chain[0].height + i
    {
      assert HeaderOk(s.blocks, s.chain[0].height + i, s.chain[i]);
    }
    forall i | 0 < i < |s.chain|
      ensures s.chain[i].filterHeader.OfFilterHeader?
      ensures s.chain[i].filterHeader.prev == s.chain[i - 1].filterHeader
    {
      assert Links(s.chain[i], s.chain[i - 1].filterHeader);
    }
  }

  lemma HeaderSkips(initial: nat, s: Shared)
    requires SharedOk(initial, s)
    ensures s.headers.Skips(s.headers.last + 1, HEADERS_PER_REQUEST) <= 1
  {
    assert !s.headers.Busy(s.headers.last + 1 + HEADERS_PER_REQUEST);
  }

  /** Header ranges are serialized: at most one is out, it starts right above the chain, and an answer that
      arrives after another peer's leaves the chain alone. */
  lemma HeaderRangesSerialized(parses: Bytes -> bool, blocks: seq<ChainedBlock>, chain: seq<SmartHeader>,
                               tipHeight: nat, steps: seq<Step>, id: nat)
    requires ChainOk(blocks, chain)
    ensures var sys := Reach(parses, blocks, chain, tipHeight, steps); var s := sys.shared;
      && s.headers.last == TipHeight(s.chain)
      && s.headers.active.Keys <= {TipHeight(s.chain) + 1}
      && s.headers.Skips(s.headers.last + 1, HEADERS_PER_REQUEST) <= 1
      && (id in sys.peers && sys.peers[id].checkedHeaders.Some? ==>
            var r := sys.peers[id].checkedHeaders.value;
            ReportHeaders(s, r).chain ==
              if r.start == TipHeight(s.chain) + 1 then s.chain + r.headers else s.chain)
  {
    var sys := Reach(parses, blocks, chain, tipHeight, steps);
    HeaderSkips(tipHeight, sys.shared);
    if id in sys.peers && sys.peers[id].checkedHeaders.Some? {
      ReportHeadersExact(tipHeight, sys.shared, sys.peers[id].checkedHeaders.value);
    }
  }

  /** Bookkeeping of filter ranges: never both out and finished, never too far ahead, never left behind. */
  lemma FilterTrackerBounds(parses: Bytes -> bool, blocks: seq<ChainedBlock>, chain: seq<SmartHeader>,
                            tipHeight: nat, steps: seq<Step>)
    requires ChainOk(blocks, chain)
    ensures var t := Reach(parses, blocks, chain, tipHeight, steps).shared.filters;
      && t.active.Keys !! t.pending.Keys
      && (forall h: nat :: t.Busy(h) ==> h <= t.last + 1 + 24 * FILTERS_PER_REQUEST)
      && t.last + 1 !in t.pending
      && t.Skips(t.last + 1, FILTERS_PER_REQUEST) <= MAX_LOOKAHEAD_RANGES
  {
    var t := Reach(parses, blocks, chain, tipHeight, steps).shared.filters;
    SkipsBounded(t, FILTERS_PER_REQUEST, MAX_LOOKAHEAD_RANGES);
    forall h | t.Busy(h)
      ensures t.WithinLookahead(h, FILTERS_PER_REQUEST, MAX_LOOKAHEAD_RANGES)
    {
    }
  }

  /** No wedge: whatever has happened before, a fresh peer that asks while nobody is fetching the next range is
      given exactly that range. */
  lemma NoWedge(parses: Bytes -> bool, blocks: seq<ChainedBlock>, chain: seq<SmartHeader>, tipHeight: nat,
                steps: seq<Step>, now: int)
    requires ChainOk(blocks, chain)
    requires var s := Reach(parses, blocks, chain, tipHeight, steps).shared;
      s.filters.last < TipHeight(s.chain) && s.filters.last + 1 !in s.filters.active
    ensures var s := Reach(parses, blocks, chain, tipHeight, steps).shared;
      && TipHeight(s.chain) < |s.blocks|
      && var p := SyncFilters(s, FRESH_PEER, now).1;
         p.filterRange.Some? && p.filterRange.value.start == s.filters.last + 1
  {
    var s := Reach(parses, blocks, chain, tipHeight, steps).shared;
    StaleReleaseShrinks(s.filters, now - FILTER_ASSIGNMENT_TIMEOUT);
    NextRangeIsOffered(tipHeight, s, now);
  }

  // ---------- one header commits to everything emitted ----------

  function FilterHashes(filters: seq<FilterModel>): seq<Digest> {
    seq(|filters|, i requires 0 <= i < |filters| => OfFilter(filters[i].filter))
  }

  /** The emitted filters lead, hash by hash, from the header below the first of them to the header at the last. */
  lemma {:induction false} EmittedFold(initial: nat, s: Shared, k: nat)
    requires SharedOk(initial, s) && Emitted(s) != [] && k <= |Emitted(s)|
    ensures PrevHeader(s.chain, initial + 1).Some?
    ensures PrevHeader(s.chain, initial + 1 + k)
      == Some(HeaderFold(PrevHeader(s.chain, initial + 1).value, FilterHashes(Emitted(s)[..k])))
  {
    assert FilterOk(s, initial + 1 + 0, Emitted(s)[0]);
    if k > 0 {
      EmittedFold(initial, s, k - 1);
      assert FilterOk(s, initial + 1 + (k - 1), Emitted(s)[k - 1]);
      var hashes := FilterHashes(Emitted(s)[..k]);
      assert hashes[..k - 1] == FilterHashes(Emitted(s)[..k - 1]);
    }
  }

  /** Of two lists of the same length, different ones lead to different headers. */
  lemma {:induction false} FoldInjective(prev: Digest, a: seq<Digest>, b: seq<Digest>)
    requires |a| == |b| && HeaderFold(prev, a) == HeaderFold(prev, b)
    ensures a == b
    decreases |a|
  {
    if a != [] {
      FoldInjective(prev, a[..|a| - 1], b[..|b| - 1]);
      assert a == a[..|a| - 1] + [a[|a| - 1]] && b == b[..|b| - 1] + [b[|b| - 1]];
    }
  }

  /** Whatever two runs from the same start have been through, with whatever peers: if they agree on one filter
      header, the one at the last processed height, they have emitted the very same filters, byte for byte. */
  lemma OneHeaderCommitsToAll(parses: Bytes -> bool, blocks: seq<ChainedBlock>, chain: seq<SmartHeader>,
                              tipHeight: nat, a: seq<Step>, b: seq<Step>)
    requires ChainOk(blocks, chain) && chain[0].height <= tipHeight <= TipHeight(chain)
    requires var s := Reach(parses, blocks, chain, tipHeight, a).shared;
      var t := Reach(parses, blocks, chain, tipHeight, b).shared;
      s.filters.last == t.filters.last && At(s.chain, s.filters.last) == At(t.chain, t.filters.last)
    ensures var s := Reach(parses, blocks, chain, tipHeight, a).shared;
      var t := Reach(parses, blocks, chain, tipHeight, b).shared;
      |Emitted(s)| == |Emitted(t)| && forall i :: 0 <= i < |Emitted(s)| ==> Emitted(s)[i].filter == Emitted(t)[i].filter
  {
    var s := Reach(parses, blocks, chain, tipHeight, a).shared;
    var t := Reach(parses, blocks, chain, tipHeight, b).shared;
    var start := InitialSystem(blocks, chain, tipHeight);
    InitialOk(blocks, chain, tipHeight);
    RunGrows(parses, tipHeight, start, a);
    RunGrows(parses, tipHeight, start, b);
    SameFold(tipHeight, chain, s, t);
  }

  lemma SameFold(initial: nat, chain: seq<SmartHeader>, s: Shared, t: Shared)
    requires SharedOk(initial, s) && SharedOk(initial, t) && chain <= s.chain && chain <= t.chain
    requires chain != [] && chain[0].height <= initial < chain[0].height + |chain|
    requires s.filters.last == t.filters.last && At(s.chain, s.filters.last) == At(t.chain, t.filters.last)
    ensures |Emitted(s)| == |Emitted(t)|
    ensures forall i :: 0 <= i < |Emitted(s)| ==> Emitted(s)[i].filter == Emitted(t)[i].filter
  {
    if Emitted(s) != [] {
      var from := WholeFold(initial, s);
      var other := WholeFold(initial, t);
      assert from == other;
      SameBytes(from, Emitted(s), Emitted(t));
    }
  }

  /** All of what was emitted, folded onto the header below. */
  lemma WholeFold(initial: nat, s: Shared) returns (from: Digest)
    requires SharedOk(initial, s) && Emitted(s) != []
    ensures PrevHeader(s.chain, initial + 1) == Some(from)
    ensures At(s.chain, s.filters.last).Some?
    ensures At(s.chain, s.filters.last).value.filterHeader == HeaderFold(from, FilterHashes(Emitted(s)))
  {
    var n := |Emitted(s)|;
    EmittedFold(initial, s, n);
    assert Emitted(s)[..n] == Emitted(s);
    from := PrevHeader(s.chain, initial + 1).value;
    assert FilterOk(s, initial + 1 + (n - 1), Emitted(s)[n - 1]);
  }

  lemma SameBytes(prev: Digest, a: seq<FilterModel>, b: seq<FilterModel>)
    requires |a| == |b| && HeaderFold(prev, FilterHashes(a)) == HeaderFold(prev, FilterHashes(b))
    ensures forall i :: 0 <= i < |a| ==> a[i].filter == b[i].filter
  {
    FoldInjective(prev, FilterHashes(a), FilterHashes(b));
    forall i | 0 <= i < |a|
      ensures a[i].filter == b[i].filter
    {
      assert FilterHashes(a)[i] == FilterHashes(b)[i];
    }
  }

  // ---------- provenance of filter hashes ----------

  ghost predicate HashesHeard(heard: set<Digest>, headers: seq<SmartHeader>, from: nat) {
    forall i :: from <= i < |headers| ==>
      headers[i].filterHeader.OfFilterHeader? && headers[i].filterHeader.filterHash in heard
  }

  ghost predicate Heard(heard: set<Digest>, from: nat, sys: System) {
    && HashesHeard(heard, sys.shared.chain, from)
    && forall id :: id in sys.peers && sys.peers[id].checkedHeaders.Some? ==>
         HashesHeard(heard, sys.peers[id].checkedHeaders.value.headers, 0)
  }

  ghost function HashesIn(step: Step): set<Digest> {
    if step.HeadersArriveStep? then set d | d in step.cfheaders.hashes else {}
  }

  ghost function HashesSent(steps: seq<Step>): set<Digest> {
    if steps == [] then {} else HashesIn(steps[0]) + HashesSent(steps[1..])
  }

  lemma ArrivedHeard(s: Shared, p: Peer, m: CFHeaders, heard: set<Digest>)
    requires p.headerRange.Some?
    requires p.checkedHeaders.Some? ==> HashesHeard(heard, p.checkedHeaders.value.headers, 0)
    requires forall d :: d in m.hashes ==> d in heard
    ensures var q := HeadersArrive(s, p, m).1;
      q.checkedHeaders.Some? ==> HashesHeard(heard, q.checkedHeaders.value.headers, 0)
  {
    var q := HeadersArrive(s, p, m).1;
    if q.checkedHeaders.Some? && q.checkedHeaders != p.checkedHeaders {
      var hs := q.checkedHeaders.value.headers;
      forall i | 0 <= i < |hs|
        ensures hs[i].filterHeader.OfFilterHeader? && hs[i].filterHeader.filterHash in heard
      {
        DerivedLink(m.prevFilterHeader, m.hashes, i);
      }
    }
  }

  lemma PeerNextHeard(parses: Bytes -> bool, initial: nat, s: Shared, p: Peer, step: Step, heard: set<Digest>,
                      from: nat)
    requires SharedOk(initial, s) && PeerOk(s, p)
    requires HashesHeard(heard, s.chain, from) && HashesIn(step) <= heard
    requires p.checkedHeaders.Some? ==> HashesHeard(heard, p.checkedHeaders.value.headers, 0)
    ensures TipHeight(s.chain) < |s.blocks| && NoEmptyBatch(s.filters)
    ensures var (t, q) := PeerNext(parses, s, p, step);
      && HashesHeard(heard, t.chain, from)
      && (q.checkedHeaders.Some? ==> HashesHeard(heard, q.checkedHeaders.value.headers, 0))
  {
    InvAllows(initial, s);
    if step.HeadersReportedStep? && p.checkedHeaders.Some? {
      ReportHeadersExact(initial, s, p.checkedHeaders.value);
    } else if step.HeadersArriveStep? && p.headerRange.Some? {
      ArrivedHeard(s, p, step.cfheaders, heard);
    } else if step.FiltersReportedStep? && p.checkedFilters.Some? {
      ReportFiltersKeeps(initial, s, p.checkedFilters.value);
    }
  }

  lemma StepHeard(parses: Bytes -> bool, initial: nat, sys: System, step: Step, heard: set<Digest>, from: nat)
    requires Inv(initial, sys) && Heard(heard, from, sys)
    ensures Heard(heard + HashesIn(step), from, Next(parses, initial, sys, step))
  {
    var more := heard + HashesIn(step);
    assert HashesHeard(more, sys.shared.chain, from);
    var p := if step.ReorgStep? || step.BlockStep? || step.ConsumeStep? then FRESH_PEER else sys.PeerAt(step.peer);
    PeerNextHeard(parses, initial, sys.shared, p, step, more, from);
  }

  /** Every header the client has added hashes a filter hash that some peer actually sent. */
  lemma {:induction false} HeadersWereSent(parses: Bytes -> bool, initial: nat, sys: System, steps: seq<Step>,
                                           heard: set<Digest>, from: nat)
    requires Inv(initial, sys) && Heard(heard, from, sys)
    ensures Heard(heard + HashesSent(steps), from, Run(parses, initial, sys, steps))
    decreases steps
  {
    if steps == [] {
      assert heard + HashesSent(steps) == heard;
    } else {
      StepKeeps(parses, initial, sys, steps[0]);
      StepHeard(parses, initial, sys, steps[0], heard, from);
      HeadersWereSent(parses, initial, Next(parses, initial, sys, steps[0]), steps[1..],
                      heard + HashesIn(steps[0]), from);
      assert heard + HashesSent(steps) == heard + HashesIn(steps[0]) + HashesSent(steps[1..]);
    }
  }
}
