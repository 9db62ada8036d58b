/** The simulated BIP 157 peer: it answers from a fixture chain, with faults injected per height. */
module PeerServer {
  import opened Digests
  import opened SyncState
  import opened Peers

  // limits of the wire protocol library
  const MAX_BLOCK_HEADERS_PER_MSG: nat := 2000
  const MAX_CFHEADERS_PER_MSG: nat := 2000
  const CFCHECKPT_INTERVAL: nat := 1000

  datatype FilterMaterial = FilterMaterial(bytes: Bytes, filterHash: Digest, filterHeader: Digest)

  datatype BlockFixture = BlockFixture(height: nat, block: Block, prevOutScripts: seq<Bytes>, filter: FilterMaterial)

  /** The heights at which a scenario wants a fault. */
  datatype Faults = Faults(
    corruptHeaders: set<nat>,
    corruptCFHeaders: set<nat>,
    corruptCFCheckpts: set<nat>,
    corruptCFilters: set<nat>,
    corruptPrevFilterHeader: set<nat>,
    emptyCFHeaders: set<nat>,
    wrongCFilterBlockHash: set<nat>,
    wrongFilterType: map<string, FilterType>)

  const HONEST := Faults({}, {}, {}, {}, {}, {}, {}, map[])

  // ---------- a well-formed fixture ----------

  function FilterHeaderBelow(fx: seq<BlockFixture>, height: nat): Digest
    requires height <= |fx|
  {
    if height == 0 then Zero else fx[height - 1].filter.filterHeader
  }

  /** Heights are positions, blocks and filter headers are linked. */
  ghost predicate FixtureOk(fx: seq<BlockFixture>) {
    fx != [] && forall i :: 0 <= i < |fx| ==> BlockOk(fx, i)
  }

  ghost predicate BlockOk(fx: seq<BlockFixture>, i: nat)
    requires i < |fx|
  {
    && fx[i].height == i
    && (i > 0 ==> fx[i].block.header.prevBlock == fx[i - 1].block.Hash())
    && fx[i].filter.filterHash == OfFilter(fx[i].filter.bytes)
    && fx[i].filter.filterHeader == OfFilterHeader(fx[i].filter.filterHash, FilterHeaderBelow(fx, i))
  }

  /** How many blocks a block hash has below it. */
  function Depth(d: Digest): nat {
    if d.OfBlock? then 1 + Depth(d.header.prevBlock) else 0
  }

  lemma {:induction false} FixtureDepth(fx: seq<BlockFixture>, i: nat)
    requires FixtureOk(fx) && i < |fx|
    ensures Depth(fx[i].block.Hash()) == Depth(fx[0].block.Hash()) + i
  {
    if i > 0 {
      FixtureDepth(fx, i - 1);
      assert BlockOk(fx, i);
    }
  }

  /** Linked blocks have pairwise different hashes. */
  lemma HashesDiffer(fx: seq<BlockFixture>, i: nat, j: nat)
    requires FixtureOk(fx) && i < |fx| && j < |fx| && fx[i].block.Hash() == fx[j].block.Hash()
    ensures i == j
  {
    FixtureDepth(fx, i);
    FixtureDepth(fx, j);
  }

  // ---------- what the answers are ----------

  /** The first height with the given block hash. */
  function KnownHeight(fx: seq<BlockFixture>, hash: Digest): (r: Option<nat>)
    ensures r.Some? ==> r.value < |fx| && fx[r.value].block.Hash() == hash
    ensures forall i :: 0 <= i < (if r.Some? then r.value else |fx|) ==> fx[i].block.Hash() != hash
  {
    if fx == [] then None
    else match KnownHeight(fx[..|fx| - 1], hash)
      case Some(h) => Some(h)
      case None => if fx[|fx| - 1].block.Hash() == hash then Some(|fx| - 1) else None
  }

  lemma KnownHeightOf(fx: seq<BlockFixture>, h: nat)
    requires FixtureOk(fx) && h < |fx|
    ensures KnownHeight(fx, fx[h].block.Hash()) == Some(h)
  {
    var r := KnownHeight(fx, fx[h].block.Hash());
    if r.Some? {
      HashesDiffer(fx, r.value, h);
    }
  }

  /** One above the first locator that is known. */
  function StartAfter(fx: seq<BlockFixture>, locators: seq<Digest>): nat {
    if locators == [] then 0
    else match KnownHeight(fx, locators[0])
      case Some(h) => h + 1
      case None => StartAfter(fx, locators[1..])
  }

  ghost predicate InFixture(fx: seq<BlockFixture>, hash: Digest) {
    exists h :: 0 <= h < |fx| && fx[h].block.Hash() == hash
  }

  ghost predicate NoneKnown(fx: seq<BlockFixture>, locators: seq<Digest>) {
    forall i :: 0 <= i < |locators| ==> !InFixture(fx, locators[i])
  }

  /** Locator `i` is the first one that the fixture has, and block `h` the first with its hash. */
  ghost predicate FirstKnown(fx: seq<BlockFixture>, locators: seq<Digest>, i: nat, h: nat) {
    && i < |locators| && NoneKnown(fx, locators[..i])
    && h < |fx| && fx[h].block.Hash() == locators[i] && !InFixture(fx[..h], locators[i])
  }

  lemma KnownHeightIs(fx: seq<BlockFixture>, hash: Digest, h: nat)
    requires h < |fx| && fx[h].block.Hash() == hash && !InFixture(fx[..h], hash)
    ensures KnownHeight(fx, hash) == Some(h)
  {
    forall k | 0 <= k < h
      ensures fx[k].block.Hash() != hash
    {
      assert fx[..h][k] == fx[k];
    }
  }

  /** The search starts above the first locator that is known, whatever unknown ones come before it, and at the
      genesis block if none is. */
  lemma {:induction false} StartsAboveFirstKnown(fx: seq<BlockFixture>, locators: seq<Digest>)
    ensures NoneKnown(fx, locators) ==> StartAfter(fx, locators) == 0
    ensures forall i: nat, h: nat :: FirstKnown(fx, locators, i, h) ==> StartAfter(fx, locators) == h + 1
    ensures StartAfter(fx, locators) <= |fx|
  {
    if locators != [] {
      var rest := locators[1..];
      StartsAboveFirstKnown(fx, rest);
      if NoneKnown(fx, locators) {
        assert !InFixture(fx, locators[0]);
        assert forall i :: 0 <= i < |rest| ==> rest[i] == locators[i + 1];
      }
      forall i: nat, h: nat | FirstKnown(fx, locators, i, h)
        ensures StartAfter(fx, locators) == h + 1
      {
        FirstKnownRest(fx, locators, i, h);
      }
    }
  }

  lemma FirstKnownRest(fx: seq<BlockFixture>, locators: seq<Digest>, i: nat, h: nat)
    requires FirstKnown(fx, locators, i, h)
    ensures i == 0 ==> KnownHeight(fx, locators[0]) == Some(h)
    ensures i > 0 ==> KnownHeight(fx, locators[0]).None? && FirstKnown(fx, locators[1..], i - 1, h)
  {
    if i == 0 {
      KnownHeightIs(fx, locators[0], h);
    } else {
      assert !InFixture(fx, locators[..i][0]);
      var rest := locators[1..][..i - 1];
      forall j | 0 <= j < |rest|
        ensures !InFixture(fx, rest[j])
      {
        assert rest[j] == locators[..i][j + 1];
      }
    }
  }

  function ServedHeader(fx: seq<BlockFixture>, faults: Faults, h: nat): BlockHeader
    requires h < |fx|
  {
    var header := fx[h].block.header;
    if h in faults.corruptHeaders then header.(prevBlock := CorruptHash(header.prevBlock)) else header
  }

  /** How many headers go into a page that starts at `start`. */
  function PageLength(fx: seq<BlockFixture>, start: nat, hashStop: Digest, room: nat): (n: nat)
    ensures n <= room && (n > 0 ==> start + n <= |fx|)
    decreases |fx| - start
  {
    if start >= |fx| || room == 0 then 0
    else if hashStop == fx[start].block.Hash() then 1
    else 1 + PageLength(fx, start + 1, hashStop, room - 1)
  }

  lemma PageLengthNext(fx: seq<BlockFixture>, start: nat, hashStop: Digest, room: nat)
    requires start < |fx| && room > 0
    ensures PageLength(fx, start, hashStop, room) ==
      1 + if hashStop == fx[start].block.Hash() then 0 else PageLength(fx, start + 1, hashStop, room - 1)
    ensures PageLength(fx, start + 1, hashStop, 0) == 0
  {
  }

  function HeadersPage(fx: seq<BlockFixture>, faults: Faults, start: nat, hashStop: Digest): seq<BlockHeader> {
    var n := PageLength(fx, start, hashStop, MAX_BLOCK_HEADERS_PER_MSG);
    seq(n, i requires 0 <= i < n => ServedHeader(fx, faults, start + i))
  }

  ghost predicate IsPagePrefix(fx: seq<BlockFixture>, faults: Faults, start: nat, headers: seq<BlockHeader>) {
    && (headers == [] || start + |headers| <= |fx|)
    && forall j :: 0 <= j < |headers| ==> headers[j] == ServedHeader(fx, faults, start + j)
  }

  lemma PageIs(fx: seq<BlockFixture>, faults: Faults, start: nat, hashStop: Digest, headers: seq<BlockHeader>)
    requires |headers| == PageLength(fx, start, hashStop, MAX_BLOCK_HEADERS_PER_MSG)
    requires IsPagePrefix(fx, faults, start, headers)
    ensures headers == HeadersPage(fx, faults, start, hashStop)
  {
  }

  function ServedHash(fx: seq<BlockFixture>, faults: Faults, h: nat): Digest
    requires h < |fx|
  {
    if h in faults.corruptCFHeaders then CorruptHash(fx[h].filter.filterHash) else fx[h].filter.filterHash
  }

  function ServedHashes(fx: seq<BlockFixture>, faults: Faults, start: nat, count: nat): seq<Digest>
    requires start + count <= |fx|
  {
    seq(count, i requires 0 <= i < count => ServedHash(fx, faults, start + i))
  }

  function ServedPrevious(fx: seq<BlockFixture>, faults: Faults, start: nat): Digest
    requires start <= |fx|
  {
    var prev := FilterHeaderBelow(fx, start);
    if start in faults.corruptPrevFilterHeader then CorruptHash(prev) else prev
  }

  /** An answer for the heights `start .. stop`, field by field: the filter header below, flipped if the scenario says
      so, and one hash for each height, up to 2000 or none at all. */
  ghost predicate IsCFHeaders(fx: seq<BlockFixture>, faults: Faults, start: nat, stop: nat, m: CFHeaders)
    requires start <= stop < |fx|
  {
    && m.prevFilterHeader == (var below := if start == 0 then Zero else fx[start - 1].filter.filterHeader;
                              if start in faults.corruptPrevFilterHeader then CorruptHash(below) else below)
    && |m.hashes| == (if start in faults.emptyCFHeaders then 0
                      else if stop - start < 2000 then stop - start + 1 else 2000)
    && forall j :: 0 <= j < |m.hashes| ==>
         m.hashes[j] == (var hash := fx[start + j].filter.filterHash;
                         if start + j in faults.corruptCFHeaders then CorruptHash(hash) else hash)
  }

  function CFHeadersReply(fx: seq<BlockFixture>, faults: Faults, start: nat, stopHash: Digest): Option<CFHeaders> {
    match KnownHeight(fx, stopHash)
    case None => None
    case Some(stop) =>
      if start > stop then None
      else
        var count := if start in faults.emptyCFHeaders then 0 else Min(stop - start + 1, MAX_CFHEADERS_PER_MSG);
        Some(CFHeaders(stopHash, ServedPrevious(fx, faults, start), ServedHashes(fx, faults, start, count)))
  }

  function ServedFilter(fx: seq<BlockFixture>, faults: Faults, h: nat): CFilter
    requires h < |fx|
  {
    var hash := fx[h].block.Hash();
    CFilter(if h in faults.wrongCFilterBlockHash then CorruptHash(hash) else hash,
            if h in faults.corruptCFilters then CorruptBytes(fx[h].filter.bytes) else fx[h].filter.bytes)
  }

  /** The filter of a height, field by field, with the faults of the scenario. */
  ghost predicate IsCFilter(fx: seq<BlockFixture>, faults: Faults, h: nat, m: CFilter)
    requires h < |fx|
  {
    && m.blockHash == (if h in faults.wrongCFilterBlockHash then CorruptHash(OfBlock(fx[h].block.header))
                       else OfBlock(fx[h].block.header))
    && m.bytes == (if h in faults.corruptCFilters then CorruptBytes(fx[h].filter.bytes) else fx[h].filter.bytes)
  }

  function ServedFilters(fx: seq<BlockFixture>, faults: Faults, start: nat, stop: nat): seq<CFilter>
    requires stop < |fx|
  {
    if start > stop then []
    else seq(stop - start + 1, i requires 0 <= i < stop - start + 1 => ServedFilter(fx, faults, start + i))
  }

  function ServedCheckpoint(fx: seq<BlockFixture>, faults: Faults, h: nat): Digest
    requires h < |fx|
  {
    if h in faults.corruptCFCheckpts then CorruptHash(fx[h].filter.filterHeader) else fx[h].filter.filterHeader
  }

  class Server {
    const fixture: seq<BlockFixture>
    const behavior: Faults

    constructor (fixture: seq<BlockFixture>, behavior: Faults)
      ensures this.fixture == fixture && this.behavior == behavior
    {
      this.fixture, this.behavior := fixture, behavior;
    }

    method HeightOf(hash: Digest) returns (r: Option<nat>)
      ensures r == KnownHeight(fixture, hash)
    {
      for h := 0 to |fixture|
        invariant forall i :: 0 <= i < h ==> fixture[i].block.Hash() != hash
      {
        if fixture[h].block.Hash() == hash {
          return Some(h);
        }
      }
      return None;
    }

    method LocatorStart(locators: seq<Digest>) returns (start: nat)
      ensures NoneKnown(fixture, locators) ==> start == 0
      ensures forall i: nat, h: nat :: FirstKnown(fixture, locators, i, h) ==> start == h + 1
      ensures start == StartAfter(fixture, locators)
    {
      StartsAboveFirstKnown(fixture, locators);
      if |locators| == 0 {
        return 0;
      }
      assert locators[0..] == locators;
      for l := 0 to |locators|
        invariant StartAfter(fixture, locators) == StartAfter(fixture, locators[l..])
      {
        assert locators[l..][1..] == locators[l + 1..];
        for h := 0 to |fixture|
          invariant forall i :: 0 <= i < h ==> fixture[i].block.Hash() != locators[l]
        {
          if fixture[h].block.Hash() == locators[l] {
            return h + 1;
          }
        }
      }
      return 0;
    }

    method HeadersResponse(locators: seq<Digest>, hashStop: Digest) returns (headers: seq<BlockHeader>)
      ensures NoneKnown(fixture, locators) ==> headers == HeadersPage(fixture, behavior, 0, hashStop)
      ensures forall i: nat, h: nat :: FirstKnown(fixture, locators, i, h) ==>
        headers == HeadersPage(fixture, behavior, h + 1, hashStop)
      ensures headers == HeadersPage(fixture, behavior, StartAfter(fixture, locators), hashStop)
    {
      var start := LocatorStart(locators);
      headers := HeadersFromHeight(start, hashStop);
    }

    method HeadersFromHeight(start: nat, hashStop: Digest) returns (headers: seq<BlockHeader>)
      ensures headers == HeadersPage(fixture, behavior, start, hashStop)
    {
      headers := [];
      ghost var goal := PageLength(fixture, start, hashStop, MAX_BLOCK_HEADERS_PER_MSG);
      ghost var room: nat := MAX_BLOCK_HEADERS_PER_MSG;
      var i := start;
      while i < |fixture|
        invariant start <= i == start + |headers| && room > 0 && |headers| + room == MAX_BLOCK_HEADERS_PER_MSG
        invariant goal == |headers| + PageLength(fixture, i, hashStop, room)
        invariant IsPagePrefix(fixture, behavior, start, headers)
      {
        var header := fixture[i].block.header;
        if i in behavior.corruptHeaders {
          header := header.(prevBlock := CorruptHash(header.prevBlock));
        }
        assert header == ServedHeader(fixture, behavior, start + |headers|);
        PageLengthNext(fixture, i, hashStop, room);
        headers := headers + [header];
        assert IsPagePrefix(fixture, behavior, start, headers);
        if hashStop == fixture[i].block.Hash() || |headers| == MAX_BLOCK_HEADERS_PER_MSG {
          break;
        }
        i, room := i + 1, room - 1;
      }
      PageIs(fixture, behavior, start, hashStop, headers);
    }

    method ResponseFilterType(command: string, requested: FilterType) returns (r: FilterType)
      ensures r == if command in behavior.wrongFilterType then behavior.wrongFilterType[command] else requested
    {
      if command in behavior.wrongFilterType {
        return behavior.wrongFilterType[command];
      }
      return requested;
    }

    /** None stands for the two errors: an unknown stop hash, and a start above the stop height. */
    method CFHeadersResponse(startHeight: nat, stopHash: Digest, filterType: FilterType) returns (r: Option<Message>)
      ensures var stop := KnownHeight(fixture, stopHash);
        && (r.None? <==> stop.None? || startHeight > stop.value)
        && (r.Some? ==> r.value.CFHeadersMessage? && r.value.cfheaders.stopHash == stopHash
                        && IsCFHeaders(fixture, behavior, startHeight, stop.value, r.value.cfheaders))
      ensures var reply := CFHeadersReply(fixture, behavior, startHeight, stopHash);
        (r.None? <==> reply.None?) &&
        (r.Some? ==> r.value.CFHeadersMessage? && r.value.cfheaders == reply.value &&
                     r.value.headersType == if "cfheaders" in behavior.wrongFilterType
                                            then behavior.wrongFilterType["cfheaders"] else filterType)
    {
      var known := HeightOf(stopHash);
      if known.None? {
        return None;
      }
      var stopHeight := known.value;
      if startHeight > stopHeight {
        return None;
      }
      var answerType := ResponseFilterType("cfheaders", filterType);
      var prevFilterHeader := Zero;
      if startHeight > 0 {
        prevFilterHeader := fixture[startHeight - 1].filter.filterHeader;
      }
      if startHeight in behavior.corruptPrevFilterHeader {
        prevFilterHeader := CorruptHash(prevFilterHeader);
      }
      if startHeight in behavior.emptyCFHeaders {
        return Some(CFHeadersMessage(answerType, CFHeaders(stopHash, prevFilterHeader, [])));
      }
      var hashes: seq<Digest> := [];
      var h := startHeight;
      while h <= stopHeight
        invariant startHeight <= h <= stopHeight + 1
        invariant |hashes| == h - startHeight < MAX_CFHEADERS_PER_MSG
        invariant forall j :: 0 <= j < |hashes| ==> hashes[j] == ServedHash(fixture, behavior, startHeight + j)
      {
        var hash := fixture[h].filter.filterHash;
        if h in behavior.corruptCFHeaders {
          hash := CorruptHash(hash);
        }
        hashes := hashes + [hash];
        assert forall j :: 0 <= j < |hashes| ==> hashes[j] == ServedHash(fixture, behavior, startHeight + j);
        if |hashes| == MAX_CFHEADERS_PER_MSG {
          break;
        }
        h := h + 1;
      }
      assert |hashes| == Min(stopHeight - startHeight + 1, MAX_CFHEADERS_PER_MSG);
      assert hashes == ServedHashes(fixture, behavior, startHeight, |hashes|);
      return Some(CFHeadersMessage(answerType, CFHeaders(stopHash, prevFilterHeader, hashes)));
    }

    method CFiltersResponse(startHeight: nat, stopHash: Digest, filterType: FilterType)
      returns (r: Option<seq<Message>>)
      ensures r.None? <==> KnownHeight(fixture, stopHash).None?
      ensures r.Some? ==>
        var stop := KnownHeight(fixture, stopHash).value;
        && |r.value| == (if startHeight > stop then 0 else stop - startHeight + 1)
        && forall j :: 0 <= j < |r.value| ==>
             r.value[j].CFilterMessage? && IsCFilter(fixture, behavior, startHeight + j, r.value[j].cfilter)
      ensures match KnownHeight(fixture, stopHash)
        case None => r == None
        case Some(stop) =>
          var answerType := if "cfilter" in behavior.wrongFilterType then behavior.wrongFilterType["cfilter"]
                            else filterType;
          var filters := ServedFilters(fixture, behavior, startHeight, stop);
          r == Some(seq(|filters|, i requires 0 <= i < |filters| => CFilterMessage(answerType, filters[i])))
    {
      var known := HeightOf(stopHash);
      if known.None? {
        return None;
      }
      var stopHeight := known.value;
      var out: seq<Message> := [];
      ghost var answerType := if "cfilter" in behavior.wrongFilterType then behavior.wrongFilterType["cfilter"]
                              else filterType;
      ghost var filters := ServedFilters(fixture, behavior, startHeight, stopHeight);
      var h := startHeight;
      while h <= stopHeight
        invariant startHeight <= h && (h <= stopHeight + 1 || h == startHeight) && |out| == h - startHeight
        invariant forall j :: 0 <= j < |out| ==>
          out[j] == CFilterMessage(answerType, ServedFilter(fixture, behavior, startHeight + j))
      {
        var hash := fixture[h].block.Hash();
        if h in behavior.wrongCFilterBlockHash {
          hash := CorruptHash(hash);
        }
        var data := fixture[h].filter.bytes;
        if h in behavior.corruptCFilters {
          data := CorruptBytes(data);
        }
        var responseType := ResponseFilterType("cfilter", filterType);
        out := out + [CFilterMessage(responseType, CFilter(hash, data))];
        h := h + 1;
      }
      assert out == seq(|filters|, i requires 0 <= i < |filters| => CFilterMessage(answerType, filters[i]));
      return Some(out);
    }

    /** The message is created with room for a fixed number of headers; adding beyond that is dropped. */
    method CFCheckptResponse(stopHash: Digest) returns (headers: seq<Digest>, dropped: bool)
      ensures match KnownHeight(fixture, stopHash)
        case None => headers == []
        case Some(stop) =>
          && |headers| == stop / CFCHECKPT_INTERVAL
          && forall i :: 0 <= i < |headers| ==>
               && CheckpointHeight(i) <= stop && headers[i] == ServedCheckpoint(fixture, behavior, CheckpointHeight(i))
               && (headers[i] == fixture[CheckpointHeight(i)].filter.filterHeader <==>
                     CheckpointHeight(i) !in behavior.corruptCFCheckpts)
      ensures !dropped
    {
      var known := HeightOf(stopHash);
      var stopHeight := if known.Some? then known.value else -1;
      var headersCount := 0;
      if stopHeight > 0 {
        headersCount := stopHeight / CFCHECKPT_INTERVAL;
      }
      headers, dropped := [], false;
      var h := CFCHECKPT_INTERVAL;
      while h <= stopHeight
        invariant h == CheckpointHeight(|headers|) && !dropped
        invariant |headers| <= headersCount
        invariant forall i :: 0 <= i < |headers| ==>
          CheckpointHeight(i) <= stopHeight && headers[i] == ServedCheckpoint(fixture, behavior, CheckpointHeight(i))
        decreases stopHeight - h
      {
        var header := fixture[h].filter.filterHeader;
        if h in behavior.corruptCFCheckpts {
          header := CorruptHash(header);
        }
        if |headers| == headersCount {
          dropped := true;
        } else {
          headers := headers + [header];
        }
        h := h + CFCHECKPT_INTERVAL;
      }
    }
  }

  function CheckpointHeight(i: nat): nat {
    (i + 1) * 1000
  }

  // ---------- what the answers mean ----------

  /** The filter hashes served for a range lead from the header below it to the header at its end. */
  lemma {:induction false} HashesLeadTo(fx: seq<BlockFixture>, start: nat, count: nat)
    requires FixtureOk(fx) && start + count <= |fx|
    ensures HeaderFold(FilterHeaderBelow(fx, start), ServedHashes(fx, HONEST, start, count))
         == FilterHeaderBelow(fx, start + count)
  {
    var hashes := ServedHashes(fx, HONEST, start, count);
    if count > 0 {
      HashesLeadTo(fx, start, count - 1);
      assert hashes[..|hashes| - 1] == ServedHashes(fx, HONEST, start, count - 1);
      assert hashes[|hashes| - 1] == ServedHash(fx, HONEST, start + count - 1);
      assert start + count - 1 !in HONEST.corruptCFHeaders;
      assert BlockOk(fx, start + count - 1);
    }
  }

  /** A cfheaders answer that is not cut short leads to the filter header at its stop hash. */
  lemma CFHeadersReachStop(fx: seq<BlockFixture>, start: nat, stop: nat)
    requires FixtureOk(fx) && start <= stop < |fx|
    ensures var reply := CFHeadersReply(fx, HONEST, start, fx[stop].block.Hash());
      && reply.Some?
      && |reply.value.hashes| == Min(stop - start + 1, MAX_CFHEADERS_PER_MSG)
      && (stop - start < MAX_CFHEADERS_PER_MSG ==>
            HeaderFold(reply.value.prevFilterHeader, reply.value.hashes) == fx[stop].filter.filterHeader)
  {
    KnownHeightOf(fx, stop);
    HashesLeadTo(fx, start, Min(stop - start + 1, MAX_CFHEADERS_PER_MSG));
  }

  /** Checkpoints agree with cfheaders: the hashes between two checkpoints lead from one to the next. */
  lemma CheckpointsAgree(fx: seq<BlockFixture>, i: nat)
    requires FixtureOk(fx) && CheckpointHeight(i) < |fx|
    ensures var from := if i == 0 then 0 else CheckpointHeight(i - 1);
      var reply := CFHeadersReply(fx, HONEST, from + 1, fx[CheckpointHeight(i)].block.Hash());
      && reply.Some? && |reply.value.hashes| == CFCHECKPT_INTERVAL
      && reply.value.prevFilterHeader == ServedCheckpoint(fx, HONEST, from)
      && HeaderFold(ServedCheckpoint(fx, HONEST, from), reply.value.hashes)
         == ServedCheckpoint(fx, HONEST, CheckpointHeight(i))
  {
    var from := if i == 0 then 0 else CheckpointHeight(i - 1);
    CFHeadersReachStop(fx, from + 1, CheckpointHeight(i));
  }

  /** Where a page ends: at the block with the stop hash, and otherwise when it is full or at the tip. */
  lemma {:induction false} PageEnds(fx: seq<BlockFixture>, start: nat, hashStop: Digest, room: nat)
    requires start <= |fx|
    ensures var n := PageLength(fx, start, hashStop, room);
      && n <= room && start + n <= |fx|
      && (n == room || start + n == |fx| || (n > 0 && fx[start + n - 1].block.Hash() == hashStop))
      && forall h :: start <= h < start + n - 1 ==> fx[h].block.Hash() != hashStop
    decreases room
  {
    if start < |fx| && room > 0 && hashStop != fx[start].block.Hash() {
      PageEnds(fx, start + 1, hashStop, room - 1);
    }
  }

  /** A served header points to the block below it exactly if the scenario does not corrupt it; the rest of it is the
      block's. */
  lemma HeaderLinksIff(fx: seq<BlockFixture>, faults: Faults, start: nat, hashStop: Digest, i: nat)
    requires FixtureOk(fx) && 1 <= start <= |fx| && i < |HeadersPage(fx, faults, start, hashStop)|
    ensures start + i < |fx|
    ensures var header := HeadersPage(fx, faults, start, hashStop)[i];
      && (header.prevBlock == fx[start + i - 1].block.Hash() <==> start + i !in faults.corruptHeaders)
      && header.(prevBlock := fx[start + i - 1].block.Hash()) == fx[start + i].block.header
  {
    PageEnds(fx, start, hashStop, MAX_BLOCK_HEADERS_PER_MSG);
    assert BlockOk(fx, start + i);
  }

  // ---------- paging through the block headers ----------

  lemma {:induction false} FullPage(fx: seq<BlockFixture>, start: nat, room: nat)
    requires start <= |fx|
    ensures PageLength(fx, start, Zero, room) == Min(room, |fx| - start)
    decreases room
  {
    if start < |fx| && room > 0 {
      FullPage(fx, start + 1, room - 1);
    }
  }

  lemma HonestPage(fx: seq<BlockFixture>, start: nat)
    requires start <= |fx|
    ensures var page := HeadersPage(fx, HONEST, start, Zero);
      && |page| == Min(MAX_BLOCK_HEADERS_PER_MSG, |fx| - start)
      && forall i :: 0 <= i < |page| ==> page[i] == fx[start + i].block.header
  {
    FullPage(fx, start, MAX_BLOCK_HEADERS_PER_MSG);
    var page := HeadersPage(fx, HONEST, start, Zero);
    forall i | 0 <= i < |page|
      ensures page[i] == fx[start + i].block.header
    {
      assert page[i] == ServedHeader(fx, HONEST, start + i);
      assert start + i !in HONEST.corruptHeaders;
    }
  }

  /** The answer to a request whose only locator is the hash of block `h`. */
  lemma PageAfter(fx: seq<BlockFixture>, h: nat)
    requires FixtureOk(fx) && h < |fx|
    ensures KnownHeight(fx, fx[h].block.Hash()) == Some(h)
    ensures StartAfter(fx, [fx[h].block.Hash()]) == h + 1
    ensures var page := HeadersPage(fx, HONEST, h + 1, Zero);
      && |page| == Min(MAX_BLOCK_HEADERS_PER_MSG, |fx| - h - 1)
      && (forall i :: 0 <= i < |page| ==> page[i] == fx[h + 1 + i].block.header)
      && (page != [] ==> OfBlock(page[|page| - 1]) == fx[h + |page|].block.Hash())
  {
    KnownHeightOf(fx, h);
    HonestPage(fx, h + 1);
  }

  /** The page of headers after a block that the server knows. */
  ghost function PageFrom(fx: seq<BlockFixture>, locator: Digest): seq<BlockHeader> {
    HeadersPage(fx, HONEST, StartAfter(fx, [locator]), Zero)
  }

  lemma PageAt(fx: seq<BlockFixture>, locator: Digest) returns (h: nat, page: seq<BlockHeader>)
    requires FixtureOk(fx) && KnownHeight(fx, locator).Some?
    ensures h == KnownHeight(fx, locator).value && page == PageFrom(fx, locator) && h + |page| < |fx|
    ensures page != [] ==> OfBlock(page[|page| - 1]) == fx[h + |page|].block.Hash()
  {
    h := KnownHeight(fx, locator).value;
    PageAfter(fx, h);
    page := HeadersPage(fx, HONEST, h + 1, Zero);
  }

  lemma NextLocator(fx: seq<BlockFixture>, locator: Digest)
    requires FixtureOk(fx) && KnownHeight(fx, locator).Some?
    ensures var page := PageFrom(fx, locator);
      page != [] ==>
        var next := KnownHeight(fx, OfBlock(page[|page| - 1]));
        next.Some? && KnownHeight(fx, locator).value < next.value < |fx|
  {
    var h, page := PageAt(fx, locator);
    if page != [] {
      KnownHeightOf(fx, h + |page|);
    }
  }

  /** Asking again and again with the hash of the last header received, until a page is empty. */
  ghost function Pages(fx: seq<BlockFixture>, locator: Digest): seq<seq<BlockHeader>>
    requires FixtureOk(fx) && KnownHeight(fx, locator).Some?
    decreases |fx| - KnownHeight(fx, locator).value
  {
    NextLocator(fx, locator);
    var page := PageFrom(fx, locator);
    if page == [] then [page] else [page] + Pages(fx, OfBlock(page[|page| - 1]))
  }

  function Joined(pages: seq<seq<BlockHeader>>): seq<BlockHeader> {
    if pages == [] then [] else pages[0] + Joined(pages[1..])
  }

  lemma PagesStep(page: seq<BlockHeader>, rest: seq<seq<BlockHeader>>)
    requires rest != []
    ensures var pages := [page] + rest;
      && Joined(pages) == page + Joined(rest)
      && pages[|pages| - 1] == rest[|rest| - 1]
      && pages[0] == page && forall i :: 0 < i < |pages| ==> pages[i] == rest[i - 1]
  {
    assert ([page] + rest)[1..] == rest;
  }

  function HeadersFrom(fx: seq<BlockFixture>, start: nat): seq<BlockHeader>
    requires start <= |fx|
  {
    seq(|fx| - start, i requires 0 <= i < |fx| - start => fx[start + i].block.header)
  }

  lemma HeadersFromSplit(fx: seq<BlockFixture>, start: nat, page: seq<BlockHeader>)
    requires start + |page| <= |fx|
    requires forall i :: 0 <= i < |page| ==> page[i] == fx[start + i].block.header
    ensures page + HeadersFrom(fx, start + |page|) == HeadersFrom(fx, start)
  {
    var joined := page + HeadersFrom(fx, start + |page|);
    forall i | 0 <= i < |joined|
      ensures joined[i] == fx[start + i].block.header
    {
      if i >= |page| {
        assert joined[i] == HeadersFrom(fx, start + |page|)[i - |page|];
      }
    }
  }

  /** n headers fill this many pages. */
  function PageCount(n: nat): nat {
    (n + 1999) / 2000
  }

  /** The pages downloaded from height `start` on: joined they are the headers from there, no page is too long, only
      the last one is empty, and there is no page too many. */
  ghost predicate PagesCover(fx: seq<BlockFixture>, start: nat, pages: seq<seq<BlockHeader>>)
    requires start <= |fx|
  {
    && Joined(pages) == HeadersFrom(fx, start)
    && |pages| == PageCount(|fx| - start) + 1
    && pages[|pages| - 1] == []
    && forall i :: 0 <= i < |pages| - 1 ==> 0 < |pages[i]| <= MAX_BLOCK_HEADERS_PER_MSG
  }

  /** A full page of headers from a height on, or what there is. */
  ghost predicate IsPage(fx: seq<BlockFixture>, start: nat, page: seq<BlockHeader>) {
    && start <= |fx| && |page| == Min(MAX_BLOCK_HEADERS_PER_MSG, |fx| - start)
    && forall i :: 0 <= i < |page| ==> page[i] == fx[start + i].block.header
  }

  lemma PagesCoverStep(fx: seq<BlockFixture>, start: nat, page: seq<BlockHeader>, rest: seq<seq<BlockHeader>>)
    requires IsPage(fx, start, page) && start < |fx|
    requires PagesCover(fx, start + |page|, rest)
    ensures PagesCover(fx, start, [page] + rest)
  {
    PagesStep(page, rest);
    HeadersFromSplit(fx, start, page);
  }

  lemma NoPages(fx: seq<BlockFixture>)
    ensures PagesCover(fx, |fx|, [[]])
  {
    var pages: seq<seq<BlockHeader>> := [[]];
    assert pages[1..] == [];
    assert Joined(pages) == pages[0] + Joined(pages[1..]);
  }

  /** The first page after block `h`, and the pages that follow it. */
  lemma PagesFrom(fx: seq<BlockFixture>, h: nat)
    returns (page: seq<BlockHeader>)
    requires FixtureOk(fx) && h < |fx|
    ensures KnownHeight(fx, fx[h].block.Hash()).Some? && IsPage(fx, h + 1, page)
    ensures page == [] ==> Pages(fx, fx[h].block.Hash()) == [[]]
    ensures page != [] ==>
      && KnownHeight(fx, fx[h + |page|].block.Hash()).Some?
      && Pages(fx, fx[h].block.Hash()) == [page] + Pages(fx, fx[h + |page|].block.Hash())
  {
    PageAfter(fx, h);
    page := HeadersPage(fx, HONEST, h + 1, Zero);
    if page != [] {
      KnownHeightOf(fx, h + |page|);
    }
  }

  /** The pages from above block `h` on. */
  lemma PagesAre(fx: seq<BlockFixture>, h: nat) returns (pages: seq<seq<BlockHeader>>)
    requires FixtureOk(fx) && h < |fx|
    ensures KnownHeight(fx, fx[h].block.Hash()).Some? && pages == Pages(fx, fx[h].block.Hash())
    ensures PagesCover(fx, h + 1, pages)
    decreases |fx| - h
  {
    var page := PagesFrom(fx, h);
    if page != [] {
      var rest := PagesAre(fx, h + |page|);
      pages := [page] + rest;
      PagesCoverStep(fx, h + 1, page, rest);
    } else {
      pages := [[]];
      NoPages(fx);
    }
  }

  /** Header paging is complete, from any block the server knows. */
  lemma PagingComplete(fx: seq<BlockFixture>, h: nat)
    requires FixtureOk(fx) && h < |fx|
    ensures KnownHeight(fx, fx[h].block.Hash()).Some?
    ensures PagesCover(fx, h + 1, Pages(fx, fx[h].block.Hash()))
  {
    var pages := PagesAre(fx, h);
  }

  /** Asking first with a list of locators, and then again and again with the hash of the last header received, until
      a page is empty. */
  ghost function Download(fx: seq<BlockFixture>, locators: seq<Digest>): seq<seq<BlockHeader>>
    requires FixtureOk(fx)
  {
    FirstPage(fx, locators);
    var page := HeadersPage(fx, HONEST, StartAfter(fx, locators), Zero);
    if page == [] then [page] else [page] + Pages(fx, OfBlock(page[|page| - 1]))
  }

  lemma FirstPage(fx: seq<BlockFixture>, locators: seq<Digest>)
    requires FixtureOk(fx)
    ensures var start := StartAfter(fx, locators); var page := HeadersPage(fx, HONEST, start, Zero);
      && IsPage(fx, start, page)
      && (page != [] ==> OfBlock(page[|page| - 1]) == fx[start + |page| - 1].block.Hash()
                         && KnownHeight(fx, fx[start + |page| - 1].block.Hash()).Some?)
  {
    StartsAboveFirstKnown(fx, locators);
    PageIsFull(fx, StartAfter(fx, locators));
  }

  lemma PageIsFull(fx: seq<BlockFixture>, start: nat)
    requires FixtureOk(fx) && start <= |fx|
    ensures var page := HeadersPage(fx, HONEST, start, Zero);
      && IsPage(fx, start, page)
      && (page != [] ==> OfBlock(page[|page| - 1]) == fx[start + |page| - 1].block.Hash()
                         && KnownHeight(fx, fx[start + |page| - 1].block.Hash()).Some?)
  {
    HonestPage(fx, start);
    var page := HeadersPage(fx, HONEST, start, Zero);
    if page != [] {
      KnownHeightOf(fx, start + |page| - 1);
    }
  }

  /** A download with any locators returns exactly the headers above the first block known to both sides, or the whole
      chain if there is none. */
  lemma DownloadComplete(fx: seq<BlockFixture>, locators: seq<Digest>)
    requires FixtureOk(fx)
    ensures NoneKnown(fx, locators) ==> PagesCover(fx, 0, Download(fx, locators))
    ensures forall i: nat, h: nat :: FirstKnown(fx, locators, i, h) ==> PagesCover(fx, h + 1, Download(fx, locators))
  {
    StartsAboveFirstKnown(fx, locators);
    DownloadCovers(fx, locators);
  }

  lemma DownloadCovers(fx: seq<BlockFixture>, locators: seq<Digest>)
    requires FixtureOk(fx)
    ensures StartAfter(fx, locators) <= |fx| && PagesCover(fx, StartAfter(fx, locators), Download(fx, locators))
  {
    var start, page := DownloadStart(fx, locators);
    if page == [] {
      NoPages(fx);
    } else {
      PageAndRest(fx, start, page);
    }
  }

  lemma PageAndRest(fx: seq<BlockFixture>, start: nat, page: seq<BlockHeader>)
    requires FixtureOk(fx) && IsPage(fx, start, page) && page != []
    ensures KnownHeight(fx, fx[start + |page| - 1].block.Hash()).Some?
    ensures PagesCover(fx, start, [page] + Pages(fx, fx[start + |page| - 1].block.Hash()))
  {
    var rest := PagesAre(fx, start + |page| - 1);
    PagesCoverStep(fx, start, page, rest);
  }

  lemma DownloadStart(fx: seq<BlockFixture>, locators: seq<Digest>) returns (start: nat, page: seq<BlockHeader>)
    requires FixtureOk(fx)
    ensures start == StartAfter(fx, locators) && IsPage(fx, start, page)
    ensures page == [] ==> Download(fx, locators) == [[]]
    ensures page != [] ==>
      && KnownHeight(fx, fx[start + |page| - 1].block.Hash()).Some?
      && Download(fx, locators) == [page] + Pages(fx, fx[start + |page| - 1].block.Hash())
  {
    FirstPage(fx, locators);
    start := StartAfter(fx, locators);
    page := HeadersPage(fx, HONEST, start, Zero);
  }
}
