/** What a fault of the simulated peer does to the client, exactly. */
module FaultEffects {
  import opened Digests
  import opened SyncState
  import opened Peers
  import opened Protocol
  import opened PeerServer
  import opened EndToEnd

  ghost predicate NoneCorrupt(corrupt: set<nat>, from: nat, to: nat) {
    forall h :: from <= h <= to ==> h !in corrupt
  }

  // ---------- filter headers ----------

  /** Headers derived from served hashes are honest below the first corrupted height and wrong from it on. */
  lemma {:induction false} CorruptionPropagates(fx: seq<BlockFixture>, faults: Faults, start: nat, count: nat)
    requires FixtureOk(fx) && 0 < count && start + count <= |fx|
    ensures HeaderFold(FilterHeaderBelow(fx, start), ServedHashes(fx, faults, start, count))
              == fx[start + count - 1].filter.filterHeader
       <==> NoneCorrupt(faults.corruptCFHeaders, start, start + count - 1)
    decreases count
  {
    var hashes := ServedHashes(fx, faults, start, count);
    var last := start + count - 1;
    assert hashes[..|hashes| - 1] == ServedHashes(fx, faults, start, count - 1);
    assert BlockOk(fx, last);
    assert hashes[|hashes| - 1] == ServedHash(fx, faults, last);
    if count > 1 {
      CorruptionPropagates(fx, faults, start, count - 1);
      assert FilterHeaderBelow(fx, last) == fx[last - 1].filter.filterHeader;
    } else {
      assert ServedHashes(fx, faults, start, 0) == [];
    }
  }

  /** An answer to a header request is accepted exactly if it is not empty and declares the filter header the
      client has below the range.  A rejected peer loses both its ranges. */
  lemma FaultyHeadersOutcome(fx: seq<BlockFixture>, faults: Faults, s: Shared, p: Peer)
    requires FixtureOk(fx) && s.blocks <= ClientBlocks(fx) && PeerOk(s, p)
    requires p.headerRange.Some? && p.headerRange.value.Count() <= HEADERS_PER_REQUEST
    ensures var a := p.headerRange.value;
      var reply := CFHeadersReply(fx, faults, a.start, a.stopHash);
      && a.stop < |fx| && reply.Some?
      && HeadersArrive(s, p, reply.value) ==
           if a.start in faults.emptyCFHeaders
              || PrevHeader(s.chain, a.start) != Some(ServedPrevious(fx, faults, a.start))
           then Reject(s, p)
           else (s, p.(checkedHeaders := Some(HeaderResponse(a.start,
                   DerivedHeaders(s.blocks, a.start, ServedHashes(fx, faults, a.start, a.Count()),
                                  ServedPrevious(fx, faults, a.start))))))
  {
    var a := p.headerRange.value;
    ClientFindsBlock(fx, s.blocks, a.stop);
    KnownHeightOf(fx, a.stop);
  }

  /** A client that has the fixture's header below the range accepts the answer exactly if the scenario neither empties
      it nor corrupts the header that it declares. */
  lemma HonestTipOutcome(fx: seq<BlockFixture>, faults: Faults, s: Shared, p: Peer)
    requires FixtureOk(fx) && s.blocks <= ClientBlocks(fx) && PeerOk(s, p)
    requires p.headerRange.Some? && p.headerRange.value.Count() <= HEADERS_PER_REQUEST
    requires RightAt(fx, s.chain, p.headerRange.value.start - 1)
    ensures var a := p.headerRange.value; var reply := CFHeadersReply(fx, faults, a.start, a.stopHash);
      && reply.Some?
      && (if a.start in faults.emptyCFHeaders || a.start in faults.corruptPrevFilterHeader
          then HeadersArrive(s, p, reply.value) == Reject(s, p)
          else HeadersArrive(s, p, reply.value).0 == s && HeadersArrive(s, p, reply.value).1.checkedHeaders.Some?
               && HeadersArrive(s, p, reply.value).1.invalid == p.invalid)
  {
    FaultyHeadersOutcome(fx, faults, s, p);
  }

  /** The answer as accepted by the client. */
  ghost function AcceptedAnswer(fx: seq<BlockFixture>, faults: Faults, s: Shared, a: RangeRequest): HeaderResponse
    requires 0 < a.Count() && a.start + a.Count() <= |s.blocks| <= |fx|
  {
    HeaderResponse(a.start, DerivedHeaders(s.blocks, a.start, ServedHashes(fx, faults, a.start, a.Count()),
                                           ServedPrevious(fx, faults, a.start)))
  }

  lemma TipIsLast(s: Shared)
    requires ChainOk(s.blocks, s.chain)
    ensures TipHeight(s.chain) == s.chain[0].height + |s.chain| - 1
  {
    assert HeaderOk(s.blocks, s.chain[0].height + |s.chain| - 1, s.chain[|s.chain| - 1]);
  }

  lemma AppendedAt(chain: seq<SmartHeader>, headers: seq<SmartHeader>, start: nat, i: nat)
    requires chain != [] && chain[0].height + |chain| == start && i < |headers|
    ensures At(chain + headers, start + i) == Some(headers[i])
    ensures PrevHeader(chain + headers, start + i)
         == if i == 0 then PrevHeader(chain, start) else Some(headers[i - 1].filterHeader)
  {
  }

  lemma AnswerFold(fx: seq<BlockFixture>, faults: Faults, s: Shared, a: RangeRequest, i: nat)
    requires i < a.Count() && a.start + a.Count() <= |s.blocks| <= |fx|
    ensures AcceptedAnswer(fx, faults, s, a).headers[i].filterHeader
         == HeaderFold(ServedPrevious(fx, faults, a.start), ServedHashes(fx, faults, a.start, i + 1))
  {
    assert ServedHashes(fx, faults, a.start, a.Count())[..i + 1] == ServedHashes(fx, faults, a.start, i + 1);
  }

  /** Once an accepted answer is reported, the client's headers fold the served hashes onto the header below. */
  lemma AcceptedAnswerAppended(fx: seq<BlockFixture>, faults: Faults, initial: nat, s: Shared, a: RangeRequest)
    returns (t: Shared, r: HeaderResponse)
    requires FixtureOk(fx) && s.blocks <= ClientBlocks(fx) && SharedOk(initial, s) && RangeOk(s, a)
    requires a.start == s.headers.last + 1
    requires PrevHeader(s.chain, a.start) == Some(ServedPrevious(fx, faults, a.start))
    ensures r == AcceptedAnswer(fx, faults, s, a) && t == ReportHeaders(s, r)
    ensures s.chain != [] && s.chain[0].height + |s.chain| == a.start
    ensures t.chain == s.chain + r.headers && |r.headers| == a.Count()
  {
    r := AcceptedAnswer(fx, faults, s, a);
    t := ReportHeaders(s, r);
    CheckedHeadersLink(s, a, CFHeaders(a.stopHash, ServedPrevious(fx, faults, a.start),
                                       ServedHashes(fx, faults, a.start, a.Count())));
    ReportHeadersExact(initial, s, r);
    TipIsLast(s);
  }

  lemma AcceptedHeader(fx: seq<BlockFixture>, faults: Faults, s: Shared, a: RangeRequest, chain: seq<SmartHeader>,
                       r: HeaderResponse, h: nat)
    requires FixtureOk(fx) && a.start <= h <= a.stop && a.stop < |s.blocks| <= |fx|
    requires PrevHeader(s.chain, a.start) == Some(ServedPrevious(fx, faults, a.start))
    requires s.chain != [] && s.chain[0].height + |s.chain| == a.start
    requires r == AcceptedAnswer(fx, faults, s, a) && |r.headers| == a.Count() && chain == s.chain + r.headers
    ensures At(chain, h).Some?
    ensures At(chain, h).value.filterHeader
      == HeaderFold(ServedPrevious(fx, faults, a.start), ServedHashes(fx, faults, a.start, h - a.start + 1))
    ensures PrevHeader(chain, h)
      == Some(HeaderFold(ServedPrevious(fx, faults, a.start), ServedHashes(fx, faults, a.start, h - a.start)))
  {
    AppendedAt(s.chain, r.headers, a.start, h - a.start);
    AnswerFold(fx, faults, s, a, h - a.start);
    if h > a.start {
      AnswerFold(fx, faults, s, a, h - a.start - 1);
    } else {
      assert ServedHashes(fx, faults, a.start, 0) == [];
    }
  }

  /** The header at this height is the fixture's. */
  ghost predicate RightAt(fx: seq<BlockFixture>, chain: seq<SmartHeader>, h: nat) {
    h < |fx| && At(chain, h).Some? && At(chain, h).value.filterHeader == fx[h].filter.filterHeader
  }

  lemma AcceptedHonestIff(fx: seq<BlockFixture>, faults: Faults, s: Shared, a: RangeRequest, chain: seq<SmartHeader>,
                          r: HeaderResponse, h: nat)
    requires FixtureOk(fx) && a.start <= h <= a.stop && a.stop < |s.blocks| <= |fx|
    requires PrevHeader(s.chain, a.start) == Some(ServedPrevious(fx, faults, a.start))
    requires ServedPrevious(fx, faults, a.start) == FilterHeaderBelow(fx, a.start)
    requires s.chain != [] && s.chain[0].height + |s.chain| == a.start
    requires r == AcceptedAnswer(fx, faults, s, a) && |r.headers| == a.Count() && chain == s.chain + r.headers
    ensures RightAt(fx, chain, h) <==> NoneCorrupt(faults.corruptCFHeaders, a.start, h)
  {
    AcceptedHeader(fx, faults, s, a, chain, r, h);
    CorruptionPropagates(fx, faults, a.start, h - a.start + 1);
  }

  /** After an accepted answer the client's headers are derived from the served hashes; above honest headers they
      are honest below the first corrupted height and wrong at every height from it on. */
  lemma AcceptedAnswerEffect(fx: seq<BlockFixture>, faults: Faults, initial: nat, s: Shared, a: RangeRequest)
    requires FixtureOk(fx) && s.blocks <= ClientBlocks(fx) && SharedOk(initial, s) && RangeOk(s, a)
    requires a.start == s.headers.last + 1
    requires PrevHeader(s.chain, a.start) == Some(ServedPrevious(fx, faults, a.start))
    ensures var t := ReportHeaders(s, AcceptedAnswer(fx, faults, s, a));
      && DerivedFrom(fx, faults, t.chain, a.start, a.stop)
      && (ServedPrevious(fx, faults, a.start) == FilterHeaderBelow(fx, a.start) ==>
            forall h :: a.start <= h <= a.stop ==>
              (RightAt(fx, t.chain, h) <==> NoneCorrupt(faults.corruptCFHeaders, a.start, h)))
  {
    var t, r := AcceptedAnswerAppended(fx, faults, initial, s, a);
    AcceptedHeaders(fx, faults, s, a, t.chain, r);
  }

  lemma AcceptedHeaders(fx: seq<BlockFixture>, faults: Faults, s: Shared, a: RangeRequest, chain: seq<SmartHeader>,
                        r: HeaderResponse)
    requires FixtureOk(fx) && a.start <= a.stop < |s.blocks| <= |fx|
    requires PrevHeader(s.chain, a.start) == Some(ServedPrevious(fx, faults, a.start))
    requires s.chain != [] && s.chain[0].height + |s.chain| == a.start
    requires r == AcceptedAnswer(fx, faults, s, a) && |r.headers| == a.Count() && chain == s.chain + r.headers
    ensures DerivedFrom(fx, faults, chain, a.start, a.stop)
    ensures ServedPrevious(fx, faults, a.start) == FilterHeaderBelow(fx, a.start) ==>
      forall h :: a.start <= h <= a.stop ==>
        (RightAt(fx, chain, h) <==> NoneCorrupt(faults.corruptCFHeaders, a.start, h))
  {
    forall h | a.start <= h <= a.stop
      ensures HeaderFrom(fx, faults, chain, h)
    {
      AcceptedHeader(fx, faults, s, a, chain, r, h);
      FoldServed(fx, faults, ServedPrevious(fx, faults, a.start), a.start, h - a.start);
    }
    if ServedPrevious(fx, faults, a.start) == FilterHeaderBelow(fx, a.start) {
      forall h | a.start <= h <= a.stop
        ensures RightAt(fx, chain, h) <==> NoneCorrupt(faults.corruptCFHeaders, a.start, h)
      {
        AcceptedHonestIff(fx, faults, s, a, chain, r, h);
      }
    }
  }

  lemma FoldServed(fx: seq<BlockFixture>, faults: Faults, prev: Digest, start: nat, count: nat)
    requires start + count < |fx|
    ensures HeaderFold(prev, ServedHashes(fx, faults, start, count + 1))
         == OfFilterHeader(ServedHash(fx, faults, start + count),
                           HeaderFold(prev, ServedHashes(fx, faults, start, count)))
  {
    var hashes := ServedHashes(fx, faults, start, count + 1);
    assert hashes[..count] == ServedHashes(fx, faults, start, count);
    assert hashes[count] == ServedHash(fx, faults, start + count);
  }

  // ---------- filters ----------

  /** The client's filter headers from `from` to `to` were derived from the hashes served by this peer. */
  ghost predicate DerivedFrom(fx: seq<BlockFixture>, faults: Faults, chain: seq<SmartHeader>, from: nat, to: nat)
    requires to < |fx|
  {
    forall h :: from <= h <= to ==> HeaderFrom(fx, faults, chain, h)
  }

  ghost predicate HeaderFrom(fx: seq<BlockFixture>, faults: Faults, chain: seq<SmartHeader>, h: nat)
    requires h < |fx|
  {
    && At(chain, h).Some? && PrevHeader(chain, h).Some?
    && At(chain, h).value.filterHeader == OfFilterHeader(ServedHash(fx, faults, h), PrevHeader(chain, h).value)
  }

  /** One filter fits exactly if neither its hash was corrupted then nor its bytes are now. */
  lemma FilterFitsIff(parses: Bytes -> bool, fx: seq<BlockFixture>, headerFaults: Faults, filterFaults: Faults,
                      blocks: seq<ChainedBlock>, chain: seq<SmartHeader>, h: nat)
    requires FixtureOk(fx) && ParsesAll(parses, fx) && h < |fx| && h < |blocks|
    requires HeaderFrom(fx, headerFaults, chain, h)
    ensures FilterFits(parses, blocks, chain, h, ServedFilter(fx, filterFaults, h).bytes)
       <==> h !in headerFaults.corruptCFHeaders && h !in filterFaults.corruptCFilters
  {
    assert BlockOk(fx, h);
  }

  /** A served batch is accepted exactly if none of its heights was corrupted, in the headers the client took
      from one peer or in the filters it now gets from another.  An accepted filter carries whatever block hash
      the peer put on it. */
  lemma BatchAcceptedIff(parses: Bytes -> bool, fx: seq<BlockFixture>, headerFaults: Faults, filterFaults: Faults,
                         blocks: seq<ChainedBlock>, chain: seq<SmartHeader>, from: nat, to: nat)
    requires FixtureOk(fx) && ParsesAll(parses, fx) && from <= to < |fx| && to < |blocks|
    requires DerivedFrom(fx, headerFaults, chain, from, to)
    ensures var r := CheckedFilters(parses, blocks, chain, from, ServedFilters(fx, filterFaults, from, to));
      && (r.Some? <==> NoneCorrupt(headerFaults.corruptCFHeaders, from, to)
                       && NoneCorrupt(filterFaults.corruptCFilters, from, to))
      && (r.Some? ==> |r.value| == to - from + 1 && forall h :: from <= h <= to ==>
           (r.value[h - from].header.blockHash == fx[h].block.Hash() <==> h !in filterFaults.wrongCFilterBlockHash))
  {
    var batch := ServedFilters(fx, filterFaults, from, to);
    RangeFitsIff(parses, fx, headerFaults, filterFaults, blocks, chain, from, to);
    if RangeFits(parses, blocks, chain, from, batch) {
      var filters := CheckedAt(parses, blocks, chain, from, batch);
      forall h | from <= h <= to
        ensures filters[h - from].header.blockHash == ServedFilter(fx, filterFaults, h).blockHash
      {
        assert filters[h - from] == FilterModelAt(blocks, chain, from + (h - from), batch[h - from]);
      }
    }
  }

  lemma RangeFitsIff(parses: Bytes -> bool, fx: seq<BlockFixture>, headerFaults: Faults, filterFaults: Faults,
                     blocks: seq<ChainedBlock>, chain: seq<SmartHeader>, from: nat, to: nat)
    requires FixtureOk(fx) && ParsesAll(parses, fx) && from <= to < |fx| && to < |blocks|
    requires DerivedFrom(fx, headerFaults, chain, from, to)
    ensures |ServedFilters(fx, filterFaults, from, to)| == to - from + 1
    ensures RangeFits(parses, blocks, chain, from, ServedFilters(fx, filterFaults, from, to))
       <==> NoneCorrupt(headerFaults.corruptCFHeaders, from, to) && NoneCorrupt(filterFaults.corruptCFilters, from, to)
  {
    var batch := ServedFilters(fx, filterFaults, from, to);
    forall i | 0 <= i < |batch|
      ensures FilterFits(parses, blocks, chain, from + i, batch[i].bytes)
         <==> from + i !in headerFaults.corruptCFHeaders && from + i !in filterFaults.corruptCFilters
    {
      assert HeaderFrom(fx, headerFaults, chain, from + i);
      assert batch[i] == ServedFilter(fx, filterFaults, from + i);
      FilterFitsIff(parses, fx, headerFaults, filterFaults, blocks, chain, from + i);
    }
    if RangeFits(parses, blocks, chain, from, batch) {
      forall h | from <= h <= to
        ensures h !in headerFaults.corruptCFHeaders && h !in filterFaults.corruptCFilters
      {
        assert FilterFits(parses, blocks, chain, from + (h - from), batch[h - from].bytes);
      }
    }
  }

  /** A peer sends a whole range of filters, message by message. */
  ghost function Deliver(parses: Bytes -> bool, s: Shared, p: Peer, messages: seq<CFilter>): (Shared, Peer)
    decreases messages
  {
    if messages == [] || p.filterRange.None? || Reporting(p) || !p.CanSync() then (s, p)
    else
      var (t, q) := FilterArrives(parses, s, p, messages[0]);
      Deliver(parses, t, q, messages[1..])
  }

  lemma {:induction false} DeliverRest(parses: Bytes -> bool, fx: seq<BlockFixture>, faults: Faults, s: Shared, p: Peer,
                                       k: nat)
    requires FixtureOk(fx) && s.blocks <= ClientBlocks(fx) && PeerOk(s, p)
    requires p.CanSync() && p.filterRange.Some? && !Reporting(p)
    requires var a := p.filterRange.value;
      a.stop < |fx| && k < a.Count() && p.collected == ServedFilters(fx, faults, a.start, a.stop)[..k]
    ensures var a := p.filterRange.value; var all := ServedFilters(fx, faults, a.start, a.stop);
      Deliver(parses, s, p, all[k..]) ==
        match CheckedFilters(parses, s.blocks, s.chain, a.start, all)
        case None => Reject(s, p.(collected := []))
        case Some(fs) => (s, p.(collected := [], checkedFilters := Some(FilterResponse(a.start, fs))))
    decreases p.filterRange.value.Count() - k
  {
    var a := p.filterRange.value;
    var all := ServedFilters(fx, faults, a.start, a.stop);
    var m := all[k];
    var h := a.start + k;
    assert m == ServedFilter(fx, faults, h);
    ClientFindsBlock(fx, s.blocks, a.stop);
    if fx[h].block.Hash() == fx[a.stop].block.Hash() {
      HashesDiffer(fx, h, a.stop);
    }
    assert m.blockHash == a.stopHash ==> h == a.stop;
    assert all[k..][0] == m && all[k..][1..] == all[k + 1..];
    assert p.collected + [m] == all[..k + 1];
    if k + 1 < a.Count() {
      DeliverRest(parses, fx, faults, s, p.(collected := all[..k + 1]), k + 1);
    } else {
      assert all[..k + 1] == all;
      assert all[k + 1..] == [];
    }
  }

  /** Fault propagation, end to end: filters for a range reach the shared state exactly if no height of the range
      was corrupted; otherwise the peer is invalid and its ranges are free again. */
  lemma FaultyRangeOutcome(parses: Bytes -> bool, fx: seq<BlockFixture>, headerFaults: Faults, filterFaults: Faults,
                           s: Shared, p: Peer)
    requires FixtureOk(fx) && ParsesAll(parses, fx) && s.blocks <= ClientBlocks(fx) && PeerOk(s, p)
    requires p.CanSync() && p.filterRange.Some? && !Reporting(p) && p.collected == []
    requires p.filterRange.value.stop < |fx|
    requires DerivedFrom(fx, headerFaults, s.chain, p.filterRange.value.start, p.filterRange.value.stop)
    ensures var a := p.filterRange.value;
      var (t, q) := Deliver(parses, s, p, ServedFilters(fx, filterFaults, a.start, a.stop));
      if NoneCorrupt(headerFaults.corruptCFHeaders, a.start, a.stop)
         && NoneCorrupt(filterFaults.corruptCFilters, a.start, a.stop)
      then t == s && !q.invalid && q.checkedFilters.Some? && |q.checkedFilters.value.filters| == a.Count()
      else t == ReleaseFilters(ReleaseHeaders(s, p.headerRange), Some(a)) && q.invalid && q.checkedFilters.None?
           && q.filterRange.None? && q.headerRange.None?
  {
    var a := p.filterRange.value;
    var all := ServedFilters(fx, filterFaults, a.start, a.stop);
    assert all[..0] == [] && all[0..] == all;
    DeliverRest(parses, fx, filterFaults, s, p, 0);
    BatchAcceptedIff(parses, fx, headerFaults, filterFaults, s.blocks, s.chain, a.start, a.stop);
  }
}
