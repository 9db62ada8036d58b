/** What one message does to a peer and to the shared state, exactly, for any message. */
module Reactions {
  import opened Digests
  import opened Tracking
  import opened SyncState
  import opened Peers
  import opened Protocol
  import opened Behavior

  /** The peer is done for: it is invalid, and whatever it held is free again. */
  ghost predicate GivenBack(s: Shared, p: Peer, r: (Shared, Peer)) {
    && r.1 == p.(invalid := true, headerRange := None, filterRange := None, collected := [])
    && r.0 == s.(headers := r.0.headers, filters := r.0.filters)
    && r.0.headers == s.headers.(active := s.headers.active - StartOf(p.headerRange))
    && r.0.filters == s.filters.(active := s.filters.active - StartOf(p.filterRange))
  }

  function StartOf(range: Option<RangeRequest>): set<nat> {
    if range.Some? then {range.value.start} else {}
  }

  lemma RejectGivesBack(s: Shared, p: Peer)
    ensures GivenBack(s, p, Reject(s, p))
  {
    assert s.headers.active - {} == s.headers.active && s.filters.active - {} == s.filters.active;
  }

  // ---------- cfheaders ----------

  /** These headers continue the chain at `start`, one for each hash, with the hashes and times of the blocks. */
  ghost predicate Continues(s: Shared, start: nat, m: CFHeaders, headers: seq<SmartHeader>) {
    && |headers| == |m.hashes| && start + |headers| <= |s.blocks|
    && forall i: nat :: i < |headers| ==> ContinuesAt(s, start, m, headers, i)
  }

  ghost predicate ContinuesAt(s: Shared, start: nat, m: CFHeaders, headers: seq<SmartHeader>, i: nat)
    requires i < |headers| == |m.hashes| && start + |headers| <= |s.blocks|
  {
    var prev := if i == 0 then m.prevFilterHeader else headers[i - 1].filterHeader;
    headers[i] == SmartHeader(s.blocks[start + i].hash, OfFilterHeader(m.hashes[i], prev), start + i,
                              s.blocks[start + i].time)
  }

  lemma DerivedContinue(s: Shared, start: nat, m: CFHeaders)
    requires start + |m.hashes| <= |s.blocks|
    ensures Continues(s, start, m, DerivedHeaders(s.blocks, start, m.hashes, m.prevFilterHeader))
  {
    var headers := DerivedHeaders(s.blocks, start, m.hashes, m.prevFilterHeader);
    forall i: nat | i < |headers|
      ensures ContinuesAt(s, start, m, headers, i)
    {
      DerivedLink(m.prevFilterHeader, m.hashes, i);
    }
  }

  /** An answer whose stop block is known, at height `stop`, is accepted exactly if it has hashes, reaches from the
      assigned start to that block and declares the filter header that the client has below; otherwise the peer is
      invalid. */
  lemma HeadersAcceptedIff(s: Shared, p: Peer, m: CFHeaders, stop: nat)
    requires p.headerRange.Some? && stop < |s.blocks| && s.blocks[stop].hash == m.stopHash
    requires forall k :: 0 <= k < |s.blocks| && s.blocks[k].hash == m.stopHash ==> k == stop
    ensures var start := p.headerRange.value.start; var (t, q) := HeadersArrive(s, p, m);
      if m.hashes != [] && start + |m.hashes| == stop + 1 && PrevHeader(s.chain, start) == Some(m.prevFilterHeader) then
        && t == s && q == p.(checkedHeaders := q.checkedHeaders) && q.checkedHeaders.Some?
        && q.checkedHeaders.value.start == start && Continues(s, start, m, q.checkedHeaders.value.headers)
      else GivenBack(s, p, (t, q))
  {
    var start := p.headerRange.value.start;
    RejectGivesBack(s, p);
    assert FindBlock(s.blocks, m.stopHash) == Some(stop);
    if m.hashes != [] && start + |m.hashes| == stop + 1 {
      DerivedContinue(s, start, m);
    }
  }

  /** An answer for a block that the client does not know is ignored, unless it is empty. */
  lemma UnknownStopIgnored(s: Shared, p: Peer, m: CFHeaders)
    requires p.headerRange.Some? && forall k :: 0 <= k < |s.blocks| ==> s.blocks[k].hash != m.stopHash
    ensures m.hashes != [] ==> HeadersArrive(s, p, m) == (s, p)
    ensures m.hashes == [] ==> GivenBack(s, p, HeadersArrive(s, p, m))
  {
    RejectGivesBack(s, p);
  }

  // ---------- cfilters ----------

  /** The filters of a batch, at consecutive heights, with the bytes and block hashes that were sent. */
  ghost predicate IsBatch(start: nat, batch: seq<CFilter>, filters: seq<FilterModel>) {
    && |filters| == |batch|
    && forall i :: 0 <= i < |batch| ==>
      && filters[i].header.height == start + i && filters[i].filter == batch[i].bytes
      && filters[i].header.blockHash == batch[i].blockHash
  }

  /** The bytes parse, the block is known, and the header at the height hashes them onto the header below. */
  ghost predicate IsCommitted(parses: Bytes -> bool, s: Shared, height: nat, bytes: Bytes) {
    && parses(bytes) && height < |s.blocks| && At(s.chain, height).Some? && PrevHeader(s.chain, height).Some?
    && At(s.chain, height).value.filterHeader == OfFilterHeader(OfFilter(bytes), PrevHeader(s.chain, height).value)
  }

  /** A filter is put with the others until the one for the stop block comes or the range is full; then the batch is
      checked, and accepted exactly if the client's header chain commits to every filter of it at its height. */
  lemma FilterArrivesExactly(parses: Bytes -> bool, s: Shared, p: Peer, m: CFilter)
    requires p.filterRange.Some?
    ensures var a := p.filterRange.value; var batch := p.collected + [m];
      var (t, q) := FilterArrives(parses, s, p, m);
      if m.blockHash != a.stopHash && |batch| <= a.stop - a.start then t == s && q == p.(collected := batch)
      else if forall i: nat :: i < |batch| ==> IsCommitted(parses, s, a.start + i, batch[i].bytes) then
        && t == s && q == p.(collected := [], checkedFilters := q.checkedFilters) && q.checkedFilters.Some?
        && q.checkedFilters.value.start == a.start && IsBatch(a.start, batch, q.checkedFilters.value.filters)
      else GivenBack(s, p, (t, q))
  {
    RejectGivesBack(s, p);
    var a, batch := p.filterRange.value, p.collected + [m];
    forall i: nat | i < |batch|
      ensures IsCommitted(parses, s, a.start + i, batch[i].bytes) <==>
        FilterFits(parses, s.blocks, s.chain, a.start + i, batch[i].bytes)
    {
    }
  }

  // ---------- everything else ----------

  /** Messages that nobody has asked for, of another kind or of another filter type, and messages of a peer that is
      done for, change nothing. */
  lemma OthersIgnored(parses: Bytes -> bool, initial: nat, s: Shared, p: Peer, id: nat, m: Message, now: int)
    requires SharedOk(initial, s) && PeerOk(s, p)
    requires match m
      case CFHeadersMessage(kind, _) => kind.Other? || p.headerRange.None? || !p.CanSync()
      case CFilterMessage(kind, _) => kind.Other? || p.filterRange.None? || !p.CanSync()
      case OtherMessage => true
    ensures Received(parses, initial, s, p, id, m, now) == (s, p)
  {
  }

  /** The filter header below a height is the stored one; it is zero below the genesis block, and only there. */
  lemma ZeroOnlyBelowGenesis(chain: seq<SmartHeader>, height: nat)
    requires forall i :: 0 <= i < |chain| ==> chain[i].filterHeader.OfFilterHeader?
    ensures PrevHeader(chain, height) == Some(Zero) <==> height == 0
    ensures chain != [] && chain[0].height < height <= chain[0].height + |chain| ==>
      PrevHeader(chain, height) == Some(chain[height - 1 - chain[0].height].filterHeader)
    ensures height > 0 && (chain == [] || height <= chain[0].height || height > chain[0].height + |chain|) ==>
      PrevHeader(chain, height) == None
  {
    if height > 0 && At(chain, height - 1).Some? {
      assert chain[height - 1 - chain[0].height].filterHeader.OfFilterHeader?;
    }
  }

  /** Headers are appended one by one up to the first that leaves a gap. */
  lemma {:induction false} AppendUntilGap<R>(chain: seq<SmartHeader>, t: Tracker<R>, headers: seq<SmartHeader>,
                                             k: nat)
    requires chain != [] && k < |headers|
    requires forall i :: 0 <= i < k ==> headers[i].height == TipHeight(chain) + 1 + i
    requires headers[k].height > TipHeight(chain) + 1 + k
    ensures AppendAll(chain, t, headers) ==
      (chain + headers[..k], if k == 0 then t else t.(last := TipHeight(chain) + k), false)
    decreases k
  {
    if k == 0 {
      assert chain + headers[..0] == chain;
    } else {
      var next := chain + [headers[0]];
      AppendUntilGap(next, t.(last := headers[0].height), headers[1..], k - 1);
      assert next + headers[1..][..k - 1] == chain + headers[..k];
    }
  }

  /** The branch that logs a refused header: of the range only the headers before the gap are appended, and draining
      stops, even if a finished range would fit there. */
  lemma DrainStopsAtGap(chain: seq<SmartHeader>, t: Tracker<HeaderResponse>, failures: nat, k: nat)
    requires chain != [] && t.last + 1 in t.pending && k < |t.pending[t.last + 1].headers|
    requires var headers := t.pending[t.last + 1].headers;
      && (forall i :: 0 <= i < k ==> headers[i].height == TipHeight(chain) + 1 + i)
      && headers[k].height > TipHeight(chain) + 1 + k
    ensures DrainHeaders(chain, t, failures) ==
      (chain + t.pending[t.last + 1].headers[..k],
       t.(pending := t.pending - {t.last + 1}, last := if k == 0 then t.last else TipHeight(chain) + k),
       failures + 1)
  {
    TakeShrinks(t, t.last + 1);
    AppendUntilGap(chain, t.Take(t.last + 1), t.pending[t.last + 1].headers, k);
  }
}
