/** The filter-guided scan: only blocks whose filter matches are downloaded, and nothing is missed. */
module Scanner {
  import opened Digests
  import opened SyncState
  import opened Recorder
  import opened Adapter

  const FILTER_BATCH_SIZE: nat := 100

  /** The filter library: how a filter is built from a block and the scripts its inputs spend, and how a script
      is looked up in a filter keyed by its block. */
  datatype Codec = Codec(build: (Block, seq<Bytes>) -> Bytes, matches: (Bytes, Digest, Bytes) -> bool)

  /** The stored filters from a height on, at most `size` of them. */
  function FetchBatch(store: seq<FilterModel>, from: nat, size: nat): seq<FilterModel> {
    if store == [] then []
    else
      var base := store[0].header.height;
      var i := if from <= base then 0 else Min(from - base, |store|);
      store[i..Min(i + size, |store|)]
  }

  /** The log after looking at some filters. */
  function ScanFilters(log: Log<TxMatch>, watch: Watch, codec: Codec, provide: Digest -> Option<Block>,
                       filters: seq<FilterModel>): Log<TxMatch>
    decreases |filters|
  {
    if filters == [] then log
    else
      var before := ScanFilters(log, watch, codec, provide, filters[..|filters| - 1]);
      var header := filters[|filters| - 1].header;
      if header.height < watch.request.startHeight then before
      else if !codec.matches(filters[|filters| - 1].filter, header.blockHash, watch.script) then before
      else match provide(header.blockHash)
        case None => before
        case Some(block) => Record(before, watch.script, Entries(header.height, header.blockHash, block))
  }

  function NextHeight(from: nat, filters: seq<FilterModel>): nat {
    if filters == [] then from
    else Max(NextHeight(from, filters[..|filters| - 1]), filters[|filters| - 1].header.height + 1)
  }

  /** The wallet after one scan of one watch. */
  function Scanned(w: Wallet, watch: Watch, codec: Codec, provide: Digest -> Option<Block>, filters: seq<FilterModel>)
    : Wallet
  {
    var hex := watch.request.scriptHex;
    if filters == [] then w
    else w.WithLog(hex, ScanFilters(w.LogOf(hex), watch, codec, provide, filters))
          .MarkScanned(hex, NextHeight(watch.nextScanHeight, filters))
  }

  class WasabiP2pClient {
    const adapterState: AdapterState
    const codec: Codec
    var filterStore: seq<FilterModel>

    constructor (state: AdapterState, codec: Codec)
      ensures adapterState == state && this.codec == codec && filterStore == []
    {
      adapterState, this.codec, filterStore := state, codec, [];
    }

    method ScanWatch(watch: Watch, provide: Digest -> Option<Block>)
      requires adapterState.Valid() && watch.request.scriptHex in adapterState.outpoints
      modifies adapterState
      ensures adapterState.Valid()
      ensures adapterState.Model() == Scanned(old(adapterState.Model()), watch, codec, provide,
                                              FetchBatch(filterStore, watch.nextScanHeight, FILTER_BATCH_SIZE))
    {
      var hex := watch.request.scriptHex;
      var filters := FetchBatch(filterStore, watch.nextScanHeight, FILTER_BATCH_SIZE);
      if |filters| == 0 {
        return;
      }
      ghost var before, log := adapterState.Model(), adapterState.Model().LogOf(hex);
      var nextHeight := watch.nextScanHeight;
      assert filters[..0] == [];
      for i := 0 to |filters|
        invariant adapterState.Valid()
        invariant nextHeight == NextHeight(watch.nextScanHeight, filters[..i])
        invariant adapterState.Model() ==
          before.WithLog(hex, ScanFilters(log, watch, codec, provide, filters[..i]))
      {
        assert filters[..i + 1][..i] == filters[..i];
        var filter := filters[i];
        nextHeight := Max(nextHeight, filter.header.height + 1);
        if filter.header.height < watch.request.startHeight {
          continue;
        }
        if !codec.matches(filter.filter, filter.header.blockHash, watch.script) {
          continue;
        }
        var block := provide(filter.header.blockHash);
        if block.Some? {
          adapterState.RecordBlock(hex, watch.script, filter.header.height, filter.header.blockHash, block.value);
        }
      }
      assert filters[..|filters|] == filters;
      adapterState.MarkScanned(hex, nextHeight);
    }
  }

  // ---------- assumptions about the chain and the filters ----------

  predicate Excluded(script: Bytes) {
    script == [] || script[0] == 0x6a
  }

  /** A filter matches every script that it was built from: the outputs of the block and the scripts it spends. */
  ghost predicate NoFalseNegatives(codec: Codec) {
    forall block: Block, spent: seq<Bytes>, script: Bytes ::
      !Excluded(script) && (script in spent || InOutputs(block, script)) ==>
        codec.matches(codec.build(block, spent), block.Hash(), script)
  }

  ghost predicate InOutputs(block: Block, script: Bytes) {
    exists t, v :: 0 <= t < |block.txs| && 0 <= v < |block.txs[t].outs| && block.txs[t].outs[v].script == script
  }

  /** `spent` lists the scripts of the outputs that the block spends. */
  ghost predicate SpentOk(block: Block, spent: seq<Bytes>) {
    forall t, v :: 0 <= t < |block.txs| && 0 <= v < |block.txs[t].ins| ==>
      (var o := block.txs[t].ins[v].prevOut;
       o.txid.OfTx? && o.index < |o.txid.tx.outs| ==> o.txid.tx.outs[o.index].script in spent)
  }

  /** The block pays the script, or spends an output that does. */
  ghost predicate Touches(block: Block, script: Bytes) {
    InOutputs(block, script) ||
    exists t, v :: 0 <= t < |block.txs| && 0 <= v < |block.txs[t].ins| && Pays(block.txs[t].ins[v].prevOut, script)
  }

  ghost predicate Pays(o: OutPoint, script: Bytes) {
    o.txid.OfTx? && o.index < |o.txid.tx.outs| && o.txid.tx.outs[o.index].script == script
  }

  /** The chain being scanned, with the scripts spent by each block. */
  datatype ScanChain = ScanChain(blocks: seq<Block>, spent: seq<seq<Bytes>>) {
    ghost predicate Ok() {
      |spent| == |blocks| && forall h :: 0 <= h < |blocks| ==> SpentOk(blocks[h], spent[h])
    }

    function FilterAt(codec: Codec, h: nat): Bytes
      requires h < |blocks| && |spent| == |blocks|
    {
      codec.build(blocks[h], spent[h])
    }
  }

  /** The store holds the chain's filters for a stretch of heights. */
  ghost predicate StoreOk(codec: Codec, chain: ScanChain, store: seq<FilterModel>) {
    store == [] || StretchOk(codec, chain, store[0].header.height, store)
  }

  /** These are the chain's filters from a height on. */
  ghost predicate StretchOk(codec: Codec, chain: ScanChain, from: nat, filters: seq<FilterModel>) {
    && |chain.spent| == |chain.blocks|
    && forall i :: 0 <= i < |filters| ==> StoredOk(codec, chain, from + i, filters[i])
  }

  ghost predicate StoredOk(codec: Codec, chain: ScanChain, h: nat, f: FilterModel)
    requires |chain.spent| == |chain.blocks|
  {
    && h < |chain.blocks| && f.header.height == h && f.header.blockHash == chain.blocks[h].Hash()
    && f.filter == chain.FilterAt(codec, h)
  }

  /** The filter of every block that touches the script matches it. */
  ghost predicate FiltersFind(codec: Codec, chain: ScanChain, script: Bytes) {
    |chain.spent| == |chain.blocks| &&
    forall h :: 0 <= h < |chain.blocks| && Touches(chain.blocks[h], script) ==>
      codec.matches(chain.FilterAt(codec, h), chain.blocks[h].Hash(), script)
  }

  lemma FiltersFindScript(codec: Codec, chain: ScanChain, script: Bytes)
    requires NoFalseNegatives(codec) && chain.Ok() && !Excluded(script)
    ensures FiltersFind(codec, chain, script)
  {
    forall h | 0 <= h < |chain.blocks| && Touches(chain.blocks[h], script)
      ensures codec.matches(chain.FilterAt(codec, h), chain.blocks[h].Hash(), script)
    {
      var block := chain.blocks[h];
      assert SpentOk(block, chain.spent[h]);
      if !InOutputs(block, script) {
        var t, v :| 0 <= t < |block.txs| && 0 <= v < |block.txs[t].ins| && Pays(block.txs[t].ins[v].prevOut, script);
        assert script in chain.spent[h];
      }
    }
  }

  /** A block that is delivered is the right one. */
  ghost predicate ProviderOk(chain: ScanChain, provide: Digest -> Option<Block>) {
    forall h :: 0 <= h < |chain.blocks| ==>
      provide(chain.blocks[h].Hash()).None? || provide(chain.blocks[h].Hash()) == Some(chain.blocks[h])
  }

  predicate Delivered(chain: ScanChain, provide: Digest -> Option<Block>, h: nat)
    requires h < |chain.blocks|
  {
    provide(chain.blocks[h].Hash()).Some?
  }

  // ---------- full and partial scans ----------

  function BlockEntries(chain: ScanChain, h: nat): seq<Entry>
    requires h < |chain.blocks|
  {
    Entries(h, chain.blocks[h].Hash(), chain.blocks[h])
  }

  /** The log that recording every block from one height up to another gives. */
  function FullScan(log: Log<TxMatch>, chain: ScanChain, script: Bytes, from: nat, end: nat): Log<TxMatch>
    requires end <= |chain.blocks|
    decreases end
  {
    if end <= from then log
    else Record(FullScan(log, chain, script, from, end - 1), script, BlockEntries(chain, end - 1))
  }

  /** The same, but only of the blocks at the heights in `got`. */
  function DeliveredScan(log: Log<TxMatch>, chain: ScanChain, script: Bytes, got: set<nat>,
                         from: nat, end: nat): Log<TxMatch>
    requires end <= |chain.blocks|
    decreases end
  {
    if end <= from then log
    else
      var before := DeliveredScan(log, chain, script, got, from, end - 1);
      if end - 1 in got then Record(before, script, BlockEntries(chain, end - 1)) else before
  }

  function EntriesBetween(chain: ScanChain, from: nat, end: nat): seq<Entry>
    requires end <= |chain.blocks|
    decreases end
  {
    if end <= from then [] else EntriesBetween(chain, from, end - 1) + BlockEntries(chain, end - 1)
  }

  /** A full scan finds the paying outputs of the blocks, and the inputs that spend an outpoint paid by then. */
  lemma FullScanFinds(chain: ScanChain, script: Bytes, from: nat, end: nat)
    requires end <= |chain.blocks|
    ensures forall m :: m in FullScan(EMPTY_LOG, chain, script, from, end).matches <==>
      Found(script, EntriesBetween(chain, from, end), m)
  {
    FullScanRecords(chain, script, from, end);
    RecordedIff(script, EntriesBetween(chain, from, end));
  }

  lemma {:induction false} FullScanRecords(chain: ScanChain, script: Bytes, from: nat, end: nat)
    requires end <= |chain.blocks|
    ensures FullScan(EMPTY_LOG, chain, script, from, end) ==
      Record(EMPTY_LOG, script, EntriesBetween(chain, from, end))
    decreases end
  {
    if end > from {
      FullScanRecords(chain, script, from, end - 1);
      RecordConcat(EMPTY_LOG, script, EntriesBetween(chain, from, end - 1), BlockEntries(chain, end - 1));
    }
  }

  /** Only outpoints that pay the script are known. */
  ghost predicate KnownPay(script: Bytes, known: set<OutPoint>) {
    forall o :: o in known ==> Pays(o, script)
  }

  lemma {:induction false} RecordKnownPay(log: Log<TxMatch>, script: Bytes, es: seq<Entry>)
    requires KnownPay(script, log.outpoints)
    ensures KnownPay(script, Record(log, script, es).outpoints)
    decreases |es|
  {
    if es != [] {
      RecordKnownPay(log, script, es[..|es| - 1]);
      PlainTxFound(Record(log, script, es[..|es| - 1]), script, es[|es| - 1]);
    }
  }

  lemma {:induction false} ScanKnownPay(log: Log<TxMatch>, chain: ScanChain, script: Bytes,
                                        got: set<nat>, from: nat, end: nat)
    requires KnownPay(script, log.outpoints) && end <= |chain.blocks|
    ensures KnownPay(script, DeliveredScan(log, chain, script, got, from, end).outpoints)
    decreases end
  {
    if end > from {
      ScanKnownPay(log, chain, script, got, from, end - 1);
      RecordKnownPay(DeliveredScan(log, chain, script, got, from, end - 1), script, BlockEntries(chain, end - 1));
    }
  }

  /** A block that does not touch the script has nothing to record. */
  lemma UntouchedAddsNothing(script: Bytes, log: Log<TxMatch>, height: nat, block: Block)
    requires KnownPay(script, log.outpoints) && !Touches(block, script)
    ensures Record(log, script, Entries(height, block.Hash(), block)) == log
  {
    var es := Entries(height, block.Hash(), block);
    forall e | e in es
      ensures TxKnown(log, script, e)
    {
      var t :| 0 <= t < |block.txs| && e == es[t];
      assert e.tx == block.txs[t];
      forall v | 0 <= v < |e.tx.ins|
        ensures !Pays(e.tx.ins[v].prevOut, script)
      {
        assert block.txs[t].ins[v].prevOut == e.tx.ins[v].prevOut;
      }
    }
    RescanAddsNothing(log, script, es);
  }

  /** What looking at one more filter does. */
  lemma FilterScanned(codec: Codec, chain: ScanChain, watch: Watch, provide: Digest -> Option<Block>,
                      log: Log<TxMatch>, filters: seq<FilterModel>, h: nat)
    returns (before: Log<TxMatch>)
    requires FiltersFind(codec, chain, watch.script) && ProviderOk(chain, provide)
    requires filters != [] && StoredOk(codec, chain, h, filters[|filters| - 1]) && watch.request.startHeight <= h
    ensures before == ScanFilters(log, watch, codec, provide, filters[..|filters| - 1])
    ensures KnownPay(watch.script, before.outpoints) ==>
      ScanFilters(log, watch, codec, provide, filters) ==
        if Delivered(chain, provide, h) then Record(before, watch.script, BlockEntries(chain, h)) else before
  {
    before := ScanFilters(log, watch, codec, provide, filters[..|filters| - 1]);
    if KnownPay(watch.script, before.outpoints) {
      if !codec.matches(chain.FilterAt(codec, h), chain.blocks[h].Hash(), watch.script) {
        UntouchedAddsNothing(watch.script, before, h, chain.blocks[h]);
      }
    }
  }

  /** The filter is for a height to look at, and matches the script of the watch. */
  predicate IsHit(watch: Watch, codec: Codec, f: FilterModel) {
    && watch.request.startHeight <= f.header.height
    && codec.matches(f.filter, f.header.blockHash, watch.script)
  }

  /** Only blocks whose filter matches are looked at: what any other block is, and whether it can be had, makes no
      difference, whatever the filters. */
  lemma {:induction false} OnlyHitsAreFetched(codec: Codec, watch: Watch, provide: Digest -> Option<Block>,
                                              other: Digest -> Option<Block>, log: Log<TxMatch>,
                                              filters: seq<FilterModel>)
    requires forall f :: f in filters && IsHit(watch, codec, f) ==>
      provide(f.header.blockHash) == other(f.header.blockHash)
    ensures ScanFilters(log, watch, codec, provide, filters) == ScanFilters(log, watch, codec, other, filters)
    decreases |filters|
  {
    if filters != [] {
      OnlyHitsAreFetched(codec, watch, provide, other, log, filters[..|filters| - 1]);
    }
  }

  lemma StretchPrefix(codec: Codec, chain: ScanChain, from: nat, filters: seq<FilterModel>)
    requires StretchOk(codec, chain, from, filters) && filters != []
    ensures StretchOk(codec, chain, from, filters[..|filters| - 1])
    ensures StoredOk(codec, chain, from + |filters| - 1, filters[|filters| - 1])
  {
    var n := |filters| - 1;
    assert StoredOk(codec, chain, from + n, filters[n]);
  }

  /** Of the heights from one up to another, `got` has those whose blocks are delivered. */
  ghost predicate Agrees(chain: ScanChain, provide: Digest -> Option<Block>, got: set<nat>, from: nat, end: nat)
    requires end <= |chain.blocks|
  {
    forall h :: from <= h < end ==> (h in got <==> Delivered(chain, provide, h))
  }

  /** A scan over consecutive filters records exactly the blocks that are delivered. */
  lemma {:induction false} ScanIsDelivered(codec: Codec, chain: ScanChain, watch: Watch,
                                           provide: Digest -> Option<Block>, got: set<nat>, log: Log<TxMatch>,
                                           from: nat, end: nat, filters: seq<FilterModel>)
    requires FiltersFind(codec, chain, watch.script) && ProviderOk(chain, provide)
    requires KnownPay(watch.script, log.outpoints) && watch.request.startHeight <= from
    requires StretchOk(codec, chain, from, filters) && end == from + |filters| <= |chain.blocks|
    requires Agrees(chain, provide, got, from, end)
    ensures ScanFilters(log, watch, codec, provide, filters) ==
      DeliveredScan(log, chain, watch.script, got, from, end)
    decreases |filters|
  {
    if filters != [] {
      StretchPrefix(codec, chain, from, filters);
      var before := FilterScanned(codec, chain, watch, provide, log, filters, end - 1);
      ScanIsDelivered(codec, chain, watch, provide, got, log, from, end - 1, filters[..|filters| - 1]);
      ScanKnownPay(log, chain, watch.script, got, from, end - 1);
      assert before == DeliveredScan(log, chain, watch.script, got, from, end - 1);
      assert end - 1 in got <==> Delivered(chain, provide, end - 1);
    }
  }

  // ---------- undelivered blocks ----------

  lemma {:induction false} RecordMonotone(log: Log<TxMatch>, script: Bytes, es: seq<Entry>)
    ensures forall m :: m in log.matches ==> m in Record(log, script, es).matches
    decreases |es|
  {
    if es != [] {
      RecordMonotone(log, script, es[..|es| - 1]);
      PlainTxFound(Record(log, script, es[..|es| - 1]), script, es[|es| - 1]);
    }
  }

  ghost predicate MatchesAt(matches: seq<TxMatch>, h: nat) {
    exists m :: m in matches && m.height == h
  }

  /** Transactions of one block that yield no match at that height leave the log alone. */
  lemma {:induction false} SilentBlock(log: Log<TxMatch>, script: Bytes, es: seq<Entry>, h: nat)
    requires forall e :: e in es ==> e.height == h
    requires !MatchesAt(Record(log, script, es).matches, h)
    ensures Record(log, script, es) == log
    decreases |es|
  {
    if es != [] {
      var e := es[|es| - 1];
      var before := Record(log, script, es[..|es| - 1]);
      PlainTxFound(before, script, e);
      SilentBlock(log, script, es[..|es| - 1], h);
      assert TxKnown(log, script, e) by {
        forall o
          ensures !PaysAt(script, e, o)
        {
          assert PaysAt(script, e, o) ==> IsOutput(script, e, e.OutputMatch(o.index));
        }
      }
      OutsKnown(log, script, e, |e.tx.outs|);
      InsKnown(log, script, e, |e.tx.ins|);
    }
  }

  /** Only delivered blocks yield matches. */
  lemma {:induction false} MatchesAreDelivered(log: Log<TxMatch>, chain: ScanChain, script: Bytes,
                                               got: set<nat>, from: nat, end: nat)
    requires end <= |chain.blocks|
    ensures forall m :: m in DeliveredScan(log, chain, script, got, from, end).matches ==>
      m in log.matches || (from <= m.height < end && m.height in got)
    decreases end
  {
    if end > from {
      MatchesAreDelivered(log, chain, script, got, from, end - 1);
      RecordHeights(DeliveredScan(log, chain, script, got, from, end - 1), script, BlockEntries(chain, end - 1),
                    end - 1);
    }
  }

  lemma {:induction false} RecordHeights(log: Log<TxMatch>, script: Bytes, es: seq<Entry>, h: nat)
    requires forall e :: e in es ==> e.height == h
    ensures forall m :: m in Record(log, script, es).matches ==> m in log.matches || m.height == h
    decreases |es|
  {
    if es != [] {
      RecordHeights(log, script, es[..|es| - 1], h);
      PlainTxFound(Record(log, script, es[..|es| - 1]), script, es[|es| - 1]);
    }
  }

  /** Every block in which a full scan finds a match is delivered. */
  ghost predicate MatchedDelivered(chain: ScanChain, script: Bytes, got: set<nat>,
                                   from: nat, end: nat)
    requires end <= |chain.blocks|
  {
    forall h :: from <= h < end && MatchesAt(FullScan(EMPTY_LOG, chain, script, from, end).matches, h) ==>
      h in got
  }

  lemma MatchedBefore(chain: ScanChain, script: Bytes, got: set<nat>, from: nat, end: nat)
    requires from < end <= |chain.blocks| && MatchedDelivered(chain, script, got, from, end)
    ensures MatchedDelivered(chain, script, got, from, end - 1)
  {
    var before := FullScan(EMPTY_LOG, chain, script, from, end - 1);
    RecordMonotone(before, script, BlockEntries(chain, end - 1));
    forall k | from <= k < end - 1 && MatchesAt(before.matches, k)
      ensures k in got
    {
      assert MatchesAt(FullScan(EMPTY_LOG, chain, script, from, end).matches, k);
    }
  }

  lemma {:induction false} SilentUndelivered(chain: ScanChain, script: Bytes, got: set<nat>,
                                             from: nat, end: nat)
    requires end <= |chain.blocks| && MatchedDelivered(chain, script, got, from, end)
    ensures DeliveredScan(EMPTY_LOG, chain, script, got, from, end) ==
      FullScan(EMPTY_LOG, chain, script, from, end)
    decreases end
  {
    if end > from {
      MatchedBefore(chain, script, got, from, end);
      SilentUndelivered(chain, script, got, from, end - 1);
      if end - 1 !in got {
        assert !MatchesAt(FullScan(EMPTY_LOG, chain, script, from, end).matches, end - 1);
        SilentBlock(FullScan(EMPTY_LOG, chain, script, from, end - 1), script, BlockEntries(chain, end - 1), end - 1);
      }
    }
  }

  ghost predicate SameMatches(a: seq<TxMatch>, b: seq<TxMatch>) {
    forall m :: m in a <==> m in b
  }

  /** A scan that skips undelivered blocks finds what recording every block would find exactly if every block with
      a match in it is delivered.  The cursor moves on in either case. */
  lemma ScanCompleteIff(chain: ScanChain, script: Bytes, got: set<nat>, from: nat, end: nat)
    requires end <= |chain.blocks|
    ensures SameMatches(DeliveredScan(EMPTY_LOG, chain, script, got, from, end).matches,
                        FullScan(EMPTY_LOG, chain, script, from, end).matches)
       <==> MatchedDelivered(chain, script, got, from, end)
  {
    var part := DeliveredScan(EMPTY_LOG, chain, script, got, from, end).matches;
    var full := FullScan(EMPTY_LOG, chain, script, from, end).matches;
    if MatchedDelivered(chain, script, got, from, end) {
      SilentUndelivered(chain, script, got, from, end);
    }
    MatchesAreDelivered(EMPTY_LOG, chain, script, got, from, end);
    if SameMatches(part, full) {
      forall h | from <= h < end && MatchesAt(full, h)
        ensures h in got
      {
        var m :| m in full && m.height == h;
        assert m in part;
      }
      assert MatchedDelivered(chain, script, got, from, end);
    }
  }

  /** One log knows and has matched no more than another. */
  ghost predicate Within(a: Log<TxMatch>, b: Log<TxMatch>) {
    a.outpoints <= b.outpoints && forall m :: m in a.matches ==> m in b.matches
  }

  lemma {:induction false} RecordWithin(a: Log<TxMatch>, b: Log<TxMatch>, script: Bytes, es: seq<Entry>)
    requires Within(a, b)
    ensures Within(Record(a, script, es), Record(b, script, es)) && Within(a, Record(b, script, es))
    decreases |es|
  {
    if es != [] {
      var n := |es| - 1;
      RecordWithin(a, b, script, es[..n]);
      PlainTxFound(Record(a, script, es[..n]), script, es[n]);
      PlainTxFound(Record(b, script, es[..n]), script, es[n]);
    }
  }

  /** Passing over blocks never adds a match. */
  lemma {:induction false} DeliveredWithin(chain: ScanChain, script: Bytes, got: set<nat>, from: nat, end: nat)
    requires end <= |chain.blocks|
    ensures Within(DeliveredScan(EMPTY_LOG, chain, script, got, from, end),
                   FullScan(EMPTY_LOG, chain, script, from, end))
    decreases end
  {
    if end > from {
      DeliveredWithin(chain, script, got, from, end - 1);
      RecordWithin(DeliveredScan(EMPTY_LOG, chain, script, got, from, end - 1),
                   FullScan(EMPTY_LOG, chain, script, from, end - 1), script, BlockEntries(chain, end - 1));
    }
  }

  // ---------- many watches, many scans ----------

  /** A scan depends on what is delivered in its own stretch only. */
  lemma {:induction false} ScanDepends(log: Log<TxMatch>, chain: ScanChain, script: Bytes,
                                       got: set<nat>, other: set<nat>, from: nat, end: nat)
    requires end <= |chain.blocks| && forall h :: from <= h < end ==> (h in got <==> h in other)
    ensures DeliveredScan(log, chain, script, got, from, end) == DeliveredScan(log, chain, script, other, from, end)
    decreases end
  {
    if end > from {
      ScanDepends(log, chain, script, got, other, from, end - 1);
    }
  }

  /** What is newly found depends on the known outpoints only, not on the matches so far. */
  lemma {:induction false} RecordApart(a: Log<TxMatch>, b: Log<TxMatch>, script: Bytes, es: seq<Entry>)
    requires a.outpoints == b.outpoints
    ensures Apart(a, b, Record(a, script, es), Record(b, script, es))
    decreases |es|
  {
    if es != [] {
      var n := |es| - 1;
      RecordApart(a, b, script, es[..n]);
      PlainTxFound(Record(a, script, es[..n]), script, es[n]);
      PlainTxFound(Record(b, script, es[..n]), script, es[n]);
    }
  }

  /** Going from `a` to `a'` finds the same as going from `b` to `b'`. */
  ghost predicate Apart(a: Log<TxMatch>, b: Log<TxMatch>, a': Log<TxMatch>, b': Log<TxMatch>) {
    && a'.outpoints == b'.outpoints
    && (forall m :: m in a.matches ==> m in a'.matches)
    && (forall m :: m in b.matches ==> m in b'.matches)
    && (forall m :: m in a'.matches ==> m in a.matches || m in b'.matches)
    && (forall m :: m in b'.matches ==> m in b.matches || m in a'.matches)
  }

  lemma {:induction false} ScanApart(a: Log<TxMatch>, b: Log<TxMatch>, chain: ScanChain, script: Bytes,
                                     got: set<nat>, from: nat, end: nat)
    requires a.outpoints == b.outpoints && end <= |chain.blocks|
    ensures Apart(a, b, DeliveredScan(a, chain, script, got, from, end),
                        DeliveredScan(b, chain, script, got, from, end))
    decreases end
  {
    if end > from {
      ScanApart(a, b, chain, script, got, from, end - 1);
      RecordApart(DeliveredScan(a, chain, script, got, from, end - 1),
                  DeliveredScan(b, chain, script, got, from, end - 1), script, BlockEntries(chain, end - 1));
    }
  }

  lemma {:induction false} ScanSplit(log: Log<TxMatch>, chain: ScanChain, script: Bytes,
                                     got: set<nat>, from: nat, mid: nat, end: nat)
    requires from <= mid <= end <= |chain.blocks|
    ensures DeliveredScan(log, chain, script, got, from, end) ==
      DeliveredScan(DeliveredScan(log, chain, script, got, from, mid), chain, script, got, mid, end)
    decreases end
  {
    if end > mid {
      ScanSplit(log, chain, script, got, from, mid, end - 1);
    }
  }

  /** Scanning on from `mid` with other matches in the log. */
  lemma ScanOn(chain: ScanChain, script: Bytes, got: set<nat>, from: nat, mid: nat, end: nat,
               log: Log<TxMatch>)
    returns (early: Log<TxMatch>, after: Log<TxMatch>, late: Log<TxMatch>)
    requires from <= mid <= end <= |chain.blocks|
    requires log.outpoints == DeliveredScan(EMPTY_LOG, chain, script, got, from, mid).outpoints
    ensures early == DeliveredScan(EMPTY_LOG, chain, script, got, from, mid)
    ensures after == DeliveredScan(log, chain, script, got, mid, end)
    ensures late == DeliveredScan(EMPTY_LOG, chain, script, got, from, end)
    ensures Apart(log, early, after, late) && KnownPay(script, early.outpoints)
  {
    early := DeliveredScan(EMPTY_LOG, chain, script, got, from, mid);
    after := DeliveredScan(log, chain, script, got, mid, end);
    late := DeliveredScan(EMPTY_LOG, chain, script, got, from, end);
    ScanKnownPay(EMPTY_LOG, chain, script, got, from, mid);
    ScanSplit(EMPTY_LOG, chain, script, got, from, mid, end);
    ScanApart(log, early, chain, script, got, mid, end);
  }

  /** Looking at the filters from `mid` on, with other matches in the log. */
  lemma FiltersOn(codec: Codec, chain: ScanChain, watch: Watch, provide: Digest -> Option<Block>, got: set<nat>,
                  mid: nat, end: nat, log: Log<TxMatch>, filters: seq<FilterModel>)
    returns (early: Log<TxMatch>, after: Log<TxMatch>, late: Log<TxMatch>)
    requires FiltersFind(codec, chain, watch.script) && ProviderOk(chain, provide)
    requires watch.request.startHeight <= mid < end <= |chain.blocks|
    requires StretchOk(codec, chain, mid, filters) && end == mid + |filters| && Agrees(chain, provide, got, mid, end)
    requires log.outpoints ==
      DeliveredScan(EMPTY_LOG, chain, watch.script, got, watch.request.startHeight, mid).outpoints
    ensures early == DeliveredScan(EMPTY_LOG, chain, watch.script, got, watch.request.startHeight, mid)
    ensures after == ScanFilters(log, watch, codec, provide, filters)
    ensures late == DeliveredScan(EMPTY_LOG, chain, watch.script, got, watch.request.startHeight, end)
    ensures Apart(log, early, after, late)
  {
    early, after, late := ScanOn(chain, watch.script, got, watch.request.startHeight, mid, end, log);
    ScanIsDelivered(codec, chain, watch, provide, got, log, mid, end, filters);
  }

  /** For each watch, the heights whose blocks were delivered when a scan covered them. */
  type Ledger = map<string, set<nat>>

  function Got(ledger: Ledger, hex: string): set<nat> {
    if hex in ledger then ledger[hex] else {}
  }

  /** What a scan of the heights from one up to another adds to what was delivered before. */
  function Covered(chain: ScanChain, provide: Digest -> Option<Block>, got: set<nat>, from: nat, end: nat): set<nat> {
    (set h | h in got && h < from) +
    (set h | from <= h < end && h < |chain.blocks| && Delivered(chain, provide, h))
  }

  /** The heights that a watch has been scanned for are `from .. cursor`. */
  ghost predicate WatchOk(chain: ScanChain, ledger: Ledger, w: Wallet, hex: string)
    requires hex in w.watches
  {
    var watch := w.watches[hex];
    && watch.request.scriptHex == hex && !Excluded(watch.script)
    && watch.request.startHeight <= watch.nextScanHeight
    && hex in w.outpoints
    && w.outpoints[hex] == WatchScan(chain, Got(ledger, hex), watch).outpoints
  }

  /** What recording every delivered block from the start height to the cursor gives for a watch. */
  function WatchScan(chain: ScanChain, got: set<nat>, watch: Watch): Log<TxMatch> {
    DeliveredScan(EMPTY_LOG, chain, watch.script, got, watch.request.startHeight,
                  Min(watch.nextScanHeight, |chain.blocks|))
  }

  ghost predicate SomeWatchFinds(chain: ScanChain, ledger: Ledger, w: Wallet, m: TxMatch) {
    exists hex :: hex in w.watches && m in WatchScan(chain, Got(ledger, hex), w.watches[hex]).matches
  }

  const EMPTY_WALLET: Wallet := Wallet(map[], map[], [])

  /** Every watch knows what recording the delivered blocks up to its cursor gives, and the matches are exactly those
      that doing so for each watch finds. */
  ghost predicate WalletOk(chain: ScanChain, ledger: Ledger, w: Wallet) {
    && (forall hex :: hex in w.watches ==> WatchOk(chain, ledger, w, hex))
    && (forall m :: m in w.matches <==> SomeWatchFinds(chain, ledger, w, m))
  }

  lemma FetchedOk(codec: Codec, chain: ScanChain, store: seq<FilterModel>, from: nat, size: nat)
    returns (filters: seq<FilterModel>)
    requires |chain.spent| == |chain.blocks| && StoreOk(codec, chain, store)
    requires store == [] || store[0].header.height <= from
    ensures filters == FetchBatch(store, from, size)
    ensures StretchOk(codec, chain, from, filters)
  {
    filters := FetchBatch(store, from, size);
    if filters != [] {
      var base := store[0].header.height;
      forall i | 0 <= i < |filters|
        ensures StoredOk(codec, chain, from + i, filters[i])
      {
        assert filters[i] == store[from - base + i];
        assert StoredOk(codec, chain, base + (from - base + i), store[from - base + i]);
      }
    }
  }

  lemma {:induction false} NextHeightIs(codec: Codec, chain: ScanChain, from: nat, filters: seq<FilterModel>)
    requires StretchOk(codec, chain, from, filters)
    ensures NextHeight(from, filters) == from + |filters|
    decreases |filters|
  {
    if filters != [] {
      NextHeightIs(codec, chain, from, filters[..|filters| - 1]);
      assert StoredOk(codec, chain, from + (|filters| - 1), filters[|filters| - 1]);
    }
  }

  /** Scanning on from where the last scan stopped, with the matches of other watches in the log, finds what the
      longer scan finds. */
  lemma ScanContinues(codec: Codec, chain: ScanChain, watch: Watch, provide: Digest -> Option<Block>, got: set<nat>,
                      log: Log<TxMatch>, filters: seq<FilterModel>)
    returns (early: Log<TxMatch>, after: Log<TxMatch>, late: Log<TxMatch>)
    requires FiltersFind(codec, chain, watch.script) && ProviderOk(chain, provide)
    requires watch.request.startHeight <= watch.nextScanHeight
    requires filters != [] && StretchOk(codec, chain, watch.nextScanHeight, filters)
    requires log.outpoints == WatchScan(chain, got, watch).outpoints
    ensures early == WatchScan(chain, got, watch)
    ensures after == ScanFilters(log, watch, codec, provide, filters)
    ensures late == WatchScan(chain, NewlyGot(chain, provide, got, watch, filters), Later(watch, filters))
    ensures Apart(log, early, after, late)
  {
    var cursor, covered := watch.nextScanHeight, NewlyGot(chain, provide, got, watch, filters);
    StretchPrefix(codec, chain, cursor, filters);
    ScanDepends(EMPTY_LOG, chain, watch.script, got, covered, watch.request.startHeight, cursor);
    early, after, late := FiltersOn(codec, chain, watch, provide, covered, cursor, cursor + |filters|, log, filters);
  }

  /** The watch after a scan of these filters. */
  function Later(watch: Watch, filters: seq<FilterModel>): Watch {
    watch.(nextScanHeight := watch.nextScanHeight + |filters|)
  }

  function NewlyGot(chain: ScanChain, provide: Digest -> Option<Block>, got: set<nat>, watch: Watch,
                    filters: seq<FilterModel>): set<nat>
  {
    Covered(chain, provide, got, watch.nextScanHeight, watch.nextScanHeight + |filters|)
  }

  /** The ledger after a scan of these filters for a watch. */
  function LedgerScanned(chain: ScanChain, provide: Digest -> Option<Block>, ledger: Ledger, hex: string,
                         watch: Watch, filters: seq<FilterModel>): Ledger
  {
    if filters == [] then ledger else ledger[hex := NewlyGot(chain, provide, Got(ledger, hex), watch, filters)]
  }

  lemma FetchedKeeps(codec: Codec, chain: ScanChain, ledger: Ledger, w: Wallet, hex: string,
                     provide: Digest -> Option<Block>, filters: seq<FilterModel>)
    requires NoFalseNegatives(codec) && chain.Ok() && ProviderOk(chain, provide)
    requires WalletOk(chain, ledger, w) && hex in w.watches
    requires StretchOk(codec, chain, w.watches[hex].nextScanHeight, filters)
    ensures WalletOk(chain, LedgerScanned(chain, provide, ledger, hex, w.watches[hex], filters),
                     Scanned(w, w.watches[hex], codec, provide, filters))
  {
    if filters != [] {
      var watch := w.watches[hex];
      assert WatchOk(chain, ledger, w, hex);
      NextHeightIs(codec, chain, watch.nextScanHeight, filters);
      FiltersFindScript(codec, chain, watch.script);
      var log := Log(w.outpoints[hex], w.matches);
      var early, after, late := ScanContinues(codec, chain, watch, provide, Got(ledger, hex), log, filters);
      var t := ScannedIs(w, watch, codec, provide, filters);
      ScanMerges(chain, ledger, w, t, hex, NewlyGot(chain, provide, Got(ledger, hex), watch, filters),
                 Later(watch, filters));
    }
  }

  lemma ScannedIs(w: Wallet, watch: Watch, codec: Codec, provide: Digest -> Option<Block>, filters: seq<FilterModel>)
    returns (t: Wallet)
    requires var hex := watch.request.scriptHex; hex in w.watches && w.watches[hex] == watch && hex in w.outpoints
    requires filters != [] && NextHeight(watch.nextScanHeight, filters) == watch.nextScanHeight + |filters|
    ensures t == Scanned(w, watch, codec, provide, filters)
    ensures var hex := watch.request.scriptHex;
      var log := ScanFilters(Log(w.outpoints[hex], w.matches), watch, codec, provide, filters);
      t == Wallet(w.watches[hex := watch.(nextScanHeight := watch.nextScanHeight + |filters|)],
                  w.outpoints[hex := log.outpoints], log.matches)
  {
    t := Scanned(w, watch, codec, provide, filters);
  }

  lemma ScanMerges(chain: ScanChain, ledger: Ledger, w: Wallet, t: Wallet, hex: string, got: set<nat>, later: Watch)
    requires WalletOk(chain, ledger, w) && hex in w.watches
    requires t.watches == w.watches[hex := later] && hex in w.outpoints && hex in t.outpoints
    requires t.outpoints == w.outpoints[hex := t.outpoints[hex]]
    requires later == w.watches[hex].(nextScanHeight := later.nextScanHeight)
    requires later.nextScanHeight >= w.watches[hex].nextScanHeight
    requires Apart(Log(w.outpoints[hex], w.matches), WatchScan(chain, Got(ledger, hex), w.watches[hex]),
                   Log(t.outpoints[hex], t.matches), WatchScan(chain, got, later))
    ensures WalletOk(chain, ledger[hex := got], t)
  {
    var after := ledger[hex := got];
    assert WatchOk(chain, ledger, w, hex);
    forall k | k in t.watches
      ensures WatchOk(chain, after, t, k)
    {
      assert k in w.watches && WatchOk(chain, ledger, w, k);
    }
    forall m
      ensures m in t.matches <==> SomeWatchFinds(chain, after, t, m)
    {
      if m in WatchScan(chain, got, later).matches {
        assert m in WatchScan(chain, Got(after, hex), t.watches[hex]).matches;
        if m !in t.matches {
          assert SomeWatchFinds(chain, ledger, w, m);
        }
      } else if m in t.matches {
        var k :| k in w.watches && m in WatchScan(chain, Got(ledger, k), w.watches[k]).matches;
        assert m in WatchScan(chain, Got(after, k), t.watches[k]).matches;
      } else {
        forall k | k in t.watches
          ensures m !in WatchScan(chain, Got(after, k), t.watches[k]).matches
        {
          assert k != hex ==> t.watches[k] == w.watches[k] && Got(after, k) == Got(ledger, k);
        }
      }
    }
  }

  /** Watching one more script. */
  lemma AddWatchKeeps(chain: ScanChain, ledger: Ledger, w: Wallet, request: WatchRequest, script: Bytes)
    requires WalletOk(chain, ledger, w) && request.scriptHex !in w.watches && request.scriptHex !in w.outpoints
    requires !Excluded(script)
    ensures WalletOk(chain, ledger, w.AddWatch(request, script))
  {
    var t := w.AddWatch(request, script);
    var hex := request.scriptHex;
    assert WatchScan(chain, Got(ledger, hex), t.watches[hex]) == EMPTY_LOG;
    forall k | k in t.watches
      ensures WatchOk(chain, ledger, t, k)
    {
      if k != hex {
        assert WatchOk(chain, ledger, w, k);
      }
    }
    forall m
      ensures m in t.matches <==> SomeWatchFinds(chain, ledger, t, m)
    {
      if SomeWatchFinds(chain, ledger, w, m) {
        var k :| k in w.watches && m in WatchScan(chain, Got(ledger, k), w.watches[k]).matches;
        assert m in WatchScan(chain, Got(ledger, k), t.watches[k]).matches;
      }
      if SomeWatchFinds(chain, ledger, t, m) {
        var k :| k in t.watches && m in WatchScan(chain, Got(ledger, k), t.watches[k]).matches;
        assert m in WatchScan(chain, Got(ledger, k), w.watches[k]).matches;
      }
    }
  }

  /** A new watch, or a scan of one watch, in which every block is delivered or not as `provide` says. */
  datatype WalletStep =
    | AddStep(request: WatchRequest, script: Bytes)
    | ScanStep(scriptHex: string, store: seq<FilterModel>, size: nat, provide: Digest -> Option<Block>)

  ghost predicate StepOk(codec: Codec, chain: ScanChain, w: Wallet, step: WalletStep) {
    match step
    case AddStep(request, script) =>
      request.scriptHex !in w.watches && request.scriptHex !in w.outpoints && !Excluded(script)
    case ScanStep(hex, store, size, provide) =>
      && hex in w.watches && StoreOk(codec, chain, store) && ProviderOk(chain, provide)
      && (store == [] || store[0].header.height <= w.watches[hex].nextScanHeight)
  }

  function WalletNext(codec: Codec, w: Wallet, step: WalletStep): Wallet {
    match step
    case AddStep(request, script) => w.AddWatch(request, script)
    case ScanStep(hex, store, size, provide) =>
      if hex !in w.watches then w
      else Scanned(w, w.watches[hex], codec, provide, FetchBatch(store, w.watches[hex].nextScanHeight, size))
  }

  /** The ledger is kept for the statements only; the client has no such record. */
  function LedgerNext(chain: ScanChain, w: Wallet, ledger: Ledger, step: WalletStep): Ledger {
    match step
    case AddStep(_, _) => ledger
    case ScanStep(hex, store, size, provide) =>
      if hex !in w.watches then ledger
      else LedgerScanned(chain, provide, ledger, hex, w.watches[hex],
                         FetchBatch(store, w.watches[hex].nextScanHeight, size))
  }

  ghost predicate StepsOk(codec: Codec, chain: ScanChain, w: Wallet, steps: seq<WalletStep>)
    decreases |steps|
  {
    |steps| == 0 ||
    (StepOk(codec, chain, w, steps[0]) && StepsOk(codec, chain, WalletNext(codec, w, steps[0]), steps[1..]))
  }

  function WalletRun(codec: Codec, w: Wallet, steps: seq<WalletStep>): Wallet
    decreases |steps|
  {
    if |steps| == 0 then w else WalletRun(codec, WalletNext(codec, w, steps[0]), steps[1..])
  }

  function LedgerRun(codec: Codec, chain: ScanChain, w: Wallet, ledger: Ledger, steps: seq<WalletStep>): Ledger
    decreases |steps|
  {
    if |steps| == 0 then ledger
    else LedgerRun(codec, chain, WalletNext(codec, w, steps[0]), LedgerNext(chain, w, ledger, steps[0]), steps[1..])
  }

  lemma StepKeepsWallet(codec: Codec, chain: ScanChain, w: Wallet, ledger: Ledger, step: WalletStep)
    requires NoFalseNegatives(codec) && chain.Ok() && WalletOk(chain, ledger, w) && StepOk(codec, chain, w, step)
    ensures WalletOk(chain, LedgerNext(chain, w, ledger, step), WalletNext(codec, w, step))
  {
    match step {
      case AddStep(request, script) =>
        AddWatchKeeps(chain, ledger, w, request, script);
      case ScanStep(hex, store, size, provide) =>
        var filters := FetchedOk(codec, chain, store, w.watches[hex].nextScanHeight, size);
        FetchedKeeps(codec, chain, ledger, w, hex, provide, filters);
    }
  }

  /** After any sequence of scans and of watches for scripts not watched before, in batches of any size, from a filter
      store that may have grown in between and with peers that deliver different blocks each time, every watch has
      what recording the blocks gives that were delivered in the scan that covered them. */
  lemma {:induction false} ScansKeep(codec: Codec, chain: ScanChain, w: Wallet, ledger: Ledger,
                                     steps: seq<WalletStep>)
    requires NoFalseNegatives(codec) && chain.Ok()
    requires WalletOk(chain, ledger, w) && StepsOk(codec, chain, w, steps)
    ensures WalletOk(chain, LedgerRun(codec, chain, w, ledger, steps), WalletRun(codec, w, steps))
    decreases |steps|
  {
    if |steps| != 0 {
      StepKeepsWallet(codec, chain, w, ledger, steps[0]);
      ScansKeep(codec, chain, WalletNext(codec, w, steps[0]), LedgerNext(chain, w, ledger, steps[0]), steps[1..]);
    }
  }

  /** What recording every block from the start height to the cursor would find for a watch. */
  function WatchFullScan(chain: ScanChain, watch: Watch): seq<TxMatch> {
    FullScan(EMPTY_LOG, chain, watch.script, watch.request.startHeight,
             Min(watch.nextScanHeight, |chain.blocks|)).matches
  }

  ghost predicate FullScansFind(chain: ScanChain, w: Wallet, m: TxMatch) {
    exists hex :: hex in w.watches && m in WatchFullScan(chain, w.watches[hex])
  }

  ghost predicate NothingLost(chain: ScanChain, got: set<nat>, watch: Watch) {
    MatchedDelivered(chain, watch.script, got, watch.request.startHeight,
                     Min(watch.nextScanHeight, |chain.blocks|))
  }

  lemma OneWatch(chain: ScanChain, got: set<nat>, watch: Watch)
    ensures forall m :: m in WatchScan(chain, got, watch).matches ==>
      m in WatchFullScan(chain, watch) && m.height in got
    ensures NothingLost(chain, got, watch) ==> WatchScan(chain, got, watch).matches == WatchFullScan(chain, watch)
    ensures SameMatches(WatchScan(chain, got, watch).matches, WatchFullScan(chain, watch)) <==>
      NothingLost(chain, got, watch)
  {
    var from, end := watch.request.startHeight, Min(watch.nextScanHeight, |chain.blocks|);
    if NothingLost(chain, got, watch) {
      SilentUndelivered(chain, watch.script, got, from, end);
    }
    MatchesAreDelivered(EMPTY_LOG, chain, watch.script, got, from, end);
    DeliveredWithin(chain, watch.script, got, from, end);
    ScanCompleteIff(chain, watch.script, got, from, end);
  }

  /** No other watch is for the script of this one. */
  ghost predicate OnlyWatchOf(w: Wallet, hex: string)
    requires hex in w.watches
  {
    forall k :: k in w.watches && w.watches[k].script == w.watches[hex].script ==> k == hex
  }

  /** The matches hold everything that a full scan for the watch finds. */
  ghost predicate FullyMatched(chain: ScanChain, w: Wallet, hex: string)
    requires hex in w.watches
  {
    forall m :: m in WatchFullScan(chain, w.watches[hex]) ==> m in w.matches
  }

  lemma WatchAgrees(chain: ScanChain, ledger: Ledger, w: Wallet, hex: string)
    requires WalletOk(chain, ledger, w) && hex in w.watches
    ensures NothingLost(chain, Got(ledger, hex), w.watches[hex]) ==> FullyMatched(chain, w, hex)
    ensures OnlyWatchOf(w, hex) && FullyMatched(chain, w, hex) ==>
      NothingLost(chain, Got(ledger, hex), w.watches[hex])
  {
    var watch, got := w.watches[hex], Got(ledger, hex);
    OneWatch(chain, got, watch);
    forall m | m in WatchScan(chain, got, watch).matches
      ensures m in w.matches
    {
      assert SomeWatchFinds(chain, ledger, w, m);
    }
    if OnlyWatchOf(w, hex) && FullyMatched(chain, w, hex) {
      forall m | m in WatchFullScan(chain, watch)
        ensures m in WatchScan(chain, got, watch).matches
      {
        assert SomeWatchFinds(chain, ledger, w, m);
        FoundByItself(chain, ledger, w, hex, m);
      }
    }
  }

  /** A match of the full scan for a script is found by no watch for another script. */
  lemma FoundByItself(chain: ScanChain, ledger: Ledger, w: Wallet, hex: string, m: TxMatch)
    requires hex in w.watches && OnlyWatchOf(w, hex)
    requires SomeWatchFinds(chain, ledger, w, m) && m in WatchFullScan(chain, w.watches[hex])
    ensures m in WatchScan(chain, Got(ledger, hex), w.watches[hex]).matches
  {
    var k :| k in w.watches && m in WatchScan(chain, Got(ledger, k), w.watches[k]).matches;
    OneWatch(chain, Got(ledger, k), w.watches[k]);
    FullScanConcerns(chain, w.watches[k]);
    FullScanConcerns(chain, w.watches[hex]);
  }

  lemma MatchesAreFull(chain: ScanChain, ledger: Ledger, w: Wallet, m: TxMatch)
    requires WalletOk(chain, ledger, w) && m in w.matches
    ensures FullScansFind(chain, w, m)
  {
    assert SomeWatchFinds(chain, ledger, w, m);
    var hex :| hex in w.watches && m in WatchScan(chain, Got(ledger, hex), w.watches[hex]).matches;
    OneWatch(chain, Got(ledger, hex), w.watches[hex]);
  }

  /** The filter-guided scan against the full scan, after any such sequence.  Every match is one that recording every
      block finds.  A watch has all of its matches if every block with one of them was delivered in the scan that
      covered it; and only if, unless another watch is for the same script and may have found what this one lost. */
  lemma ScansAgreeWithFullScan(codec: Codec, chain: ScanChain, steps: seq<WalletStep>)
    requires NoFalseNegatives(codec) && chain.Ok() && StepsOk(codec, chain, EMPTY_WALLET, steps)
    ensures var w := WalletRun(codec, EMPTY_WALLET, steps);
      var ledger := LedgerRun(codec, chain, EMPTY_WALLET, map[], steps);
      && (forall m :: m in w.matches ==> FullScansFind(chain, w, m))
      && (forall hex :: hex in w.watches && NothingLost(chain, Got(ledger, hex), w.watches[hex]) ==>
            FullyMatched(chain, w, hex))
      && (forall hex :: hex in w.watches && OnlyWatchOf(w, hex) ==>
            (FullyMatched(chain, w, hex) <==> NothingLost(chain, Got(ledger, hex), w.watches[hex])))
  {
    var w := WalletRun(codec, EMPTY_WALLET, steps);
    var ledger := LedgerRun(codec, chain, EMPTY_WALLET, map[], steps);
    ScansKeep(codec, chain, EMPTY_WALLET, map[], steps);
    forall m | m in w.matches
      ensures FullScansFind(chain, w, m)
    {
      MatchesAreFull(chain, ledger, w, m);
    }
    forall hex | hex in w.watches
      ensures NothingLost(chain, Got(ledger, hex), w.watches[hex]) ==> FullyMatched(chain, w, hex)
      ensures OnlyWatchOf(w, hex) && FullyMatched(chain, w, hex) ==>
        NothingLost(chain, Got(ledger, hex), w.watches[hex])
    {
      WatchAgrees(chain, ledger, w, hex);
    }
  }

  lemma LostFurther(chain: ScanChain, watch: Watch, got: set<nat>, later: Watch, other: set<nat>)
    requires later == watch.(nextScanHeight := later.nextScanHeight) && later.nextScanHeight >= watch.nextScanHeight
    requires forall h :: h < watch.nextScanHeight ==> (h in got <==> h in other)
    requires !NothingLost(chain, got, watch)
    ensures !NothingLost(chain, other, later)
  {
    var from, end := watch.request.startHeight, Min(watch.nextScanHeight, |chain.blocks|);
    var h :| from <= h < end && h !in got && MatchesAt(FullScan(EMPTY_LOG, chain, watch.script, from, end).matches, h);
    FullScanMonotone(chain, watch.script, from, end, Min(later.nextScanHeight, |chain.blocks|));
    assert MatchesAt(WatchFullScan(chain, later), h);
  }

  lemma {:induction false} FullScanMonotone(chain: ScanChain, script: Bytes, from: nat, mid: nat, end: nat)
    requires mid <= end <= |chain.blocks|
    ensures forall m :: m in FullScan(EMPTY_LOG, chain, script, from, mid).matches ==>
      m in FullScan(EMPTY_LOG, chain, script, from, end).matches
    decreases end
  {
    if mid < end && from < end {
      FullScanMonotone(chain, script, from, mid, end - 1);
      RecordMonotone(FullScan(EMPTY_LOG, chain, script, from, end - 1), script, BlockEntries(chain, end - 1));
    }
  }

  /** A block that has been passed over is never looked at again, whatever scans follow and whoever could deliver it
      then, as long as the watch is not added again: `StepsOk` excludes that, and `Rescans` says what it brings. */
  lemma {:induction false} LostForGood(codec: Codec, chain: ScanChain, w: Wallet, ledger: Ledger,
                                       steps: seq<WalletStep>, hex: string)
    requires NoFalseNegatives(codec) && chain.Ok()
    requires WalletOk(chain, ledger, w) && StepsOk(codec, chain, w, steps)
    requires hex in w.watches && !NothingLost(chain, Got(ledger, hex), w.watches[hex])
    ensures hex in WalletRun(codec, w, steps).watches
    ensures !NothingLost(chain, Got(LedgerRun(codec, chain, w, ledger, steps), hex),
                         WalletRun(codec, w, steps).watches[hex])
    decreases |steps|
  {
    if |steps| != 0 {
      StepKeepsWallet(codec, chain, w, ledger, steps[0]);
      StaysLost(codec, chain, w, ledger, steps[0], hex);
      LostForGood(codec, chain, WalletNext(codec, w, steps[0]), LedgerNext(chain, w, ledger, steps[0]), steps[1..],
                  hex);
    }
  }

  lemma StaysLost(codec: Codec, chain: ScanChain, w: Wallet, ledger: Ledger, step: WalletStep, hex: string)
    requires chain.Ok() && WalletOk(chain, ledger, w) && StepOk(codec, chain, w, step)
    requires hex in w.watches && !NothingLost(chain, Got(ledger, hex), w.watches[hex])
    ensures hex in WalletNext(codec, w, step).watches
    ensures !NothingLost(chain, Got(LedgerNext(chain, w, ledger, step), hex), WalletNext(codec, w, step).watches[hex])
  {
    if step.ScanStep? && step.scriptHex == hex {
      assert WatchOk(chain, ledger, w, hex);
      var watch := w.watches[hex];
      var filters := FetchedOk(codec, chain, step.store, watch.nextScanHeight, step.size);
      if filters != [] {
        NextHeightIs(codec, chain, watch.nextScanHeight, filters);
        var t := ScannedIs(w, watch, codec, step.provide, filters);
        LostFurther(chain, watch, Got(ledger, hex), Later(watch, filters),
                    NewlyGot(chain, step.provide, Got(ledger, hex), watch, filters));
      }
    } else if step.ScanStep? {
      OtherScanned(codec, chain, w, ledger, step, hex);
    }
  }

  lemma OtherScanned(codec: Codec, chain: ScanChain, w: Wallet, ledger: Ledger, step: WalletStep, hex: string)
    requires WalletOk(chain, ledger, w) && step.ScanStep? && step.scriptHex in w.watches
    requires hex in w.watches && hex != step.scriptHex
    ensures hex in WalletNext(codec, w, step).watches && WalletNext(codec, w, step).watches[hex] == w.watches[hex]
    ensures Got(LedgerNext(chain, w, ledger, step), hex) == Got(ledger, hex)
  {
    assert WatchOk(chain, ledger, w, step.scriptHex);
  }

  // ---------- the matches query ----------

  /** The match is an output that pays the script, or an input that spends such an output. */
  ghost predicate Concerns(script: Bytes, m: TxMatch) {
    && m.txid.OfTx?
    && match m.kind
       case Output => Pays(OutPoint(m.txid, m.vout), script)
       case Spend => m.vin < |m.txid.tx.ins| && Pays(m.txid.tx.ins[m.vin].prevOut, script)
  }

  ghost predicate AllConcern(script: Bytes, matches: seq<TxMatch>) {
    forall m :: m in matches ==> Concerns(script, m)
  }

  lemma {:induction false} RecordConcerns(log: Log<TxMatch>, script: Bytes, es: seq<Entry>)
    requires KnownPay(script, log.outpoints) && AllConcern(script, log.matches)
    ensures AllConcern(script, Record(log, script, es).matches)
    decreases |es|
  {
    if es != [] {
      RecordConcerns(log, script, es[..|es| - 1]);
      RecordKnownPay(log, script, es[..|es| - 1]);
      PlainTxFound(Record(log, script, es[..|es| - 1]), script, es[|es| - 1]);
    }
  }

  lemma {:induction false} FullScanAllConcern(chain: ScanChain, script: Bytes, from: nat, end: nat)
    requires end <= |chain.blocks|
    ensures KnownPay(script, FullScan(EMPTY_LOG, chain, script, from, end).outpoints)
    ensures AllConcern(script, FullScan(EMPTY_LOG, chain, script, from, end).matches)
    decreases end
  {
    if end > from {
      FullScanAllConcern(chain, script, from, end - 1);
      RecordKnownPay(FullScan(EMPTY_LOG, chain, script, from, end - 1), script, BlockEntries(chain, end - 1));
      RecordConcerns(FullScan(EMPTY_LOG, chain, script, from, end - 1), script, BlockEntries(chain, end - 1));
    }
  }

  lemma FullScanConcerns(chain: ScanChain, watch: Watch)
    ensures AllConcern(watch.script, WatchFullScan(chain, watch))
  {
    FullScanAllConcern(chain, watch.script, watch.request.startHeight, Min(watch.nextScanHeight, |chain.blocks|));
  }

  ghost predicate QuietBetween(matches: seq<TxMatch>, start: nat, stop: nat) {
    forall m :: m in matches ==> !(start <= m.height <= stop)
  }

  /** The query does not look at its script.  Its answer is about the script exactly if no watch for another script
      has a match in the height range. */
  lemma QueryIsForScriptIff(chain: ScanChain, ledger: Ledger, w: Wallet, script: Bytes,
                            start: nat, stop: nat)
    requires WalletOk(chain, ledger, w)
    ensures AllConcern(script, InHeights(w.matches, start, stop)) <==>
      (forall hex :: hex in w.watches && w.watches[hex].script != script ==>
         QuietBetween(WatchScan(chain, Got(ledger, hex), w.watches[hex]).matches, start, stop))
  {
    forall hex | hex in w.watches
      ensures AllConcern(w.watches[hex].script, WatchScan(chain, Got(ledger, hex), w.watches[hex]).matches)
    {
      OneWatch(chain, Got(ledger, hex), w.watches[hex]);
      FullScanConcerns(chain, w.watches[hex]);
    }
    if AllConcern(script, InHeights(w.matches, start, stop)) {
      forall hex, m | hex in w.watches && w.watches[hex].script != script
                      && m in WatchScan(chain, Got(ledger, hex), w.watches[hex]).matches
        ensures !(start <= m.height <= stop)
      {
        assert SomeWatchFinds(chain, ledger, w, m);
      }
    }
  }

  // ---------- two inputs for which the simple claims fail ----------

  const PAYING_TX := Tx([], [TxOut(1, [0xab])])
  const PAYING_BLOCK := Block(BlockHeader(Zero, OfTxs([PAYING_TX]), 0, 0), [PAYING_TX])

  lemma PayingBlockRecorded()
    ensures Record(EMPTY_LOG, [0xab], Entries(0, PAYING_BLOCK.Hash(), PAYING_BLOCK)).matches ==
      [Entry(0, PAYING_BLOCK.Hash(), PAYING_TX).OutputMatch(0)]
  {
    var e := Entry(0, PAYING_BLOCK.Hash(), PAYING_TX);
    assert Entries(0, PAYING_BLOCK.Hash(), PAYING_BLOCK) == [e];
    assert Record(EMPTY_LOG, [0xab], [e]) == RecordTx(EMPTY_LOG, Plain, [0xab], e) by {
      assert [e][..0] == [];
    }
    assert RecordOuts(EMPTY_LOG, Plain, [0xab], e, 1) == Log({OutPoint(e.TxId(), 0)}, [e.OutputMatch(0)]) by {
      assert RecordOuts(EMPTY_LOG, Plain, [0xab], e, 0) == EMPTY_LOG;
    }
  }

  /** With two scripts watched, the query for one of them answers with a match of the other. */
  lemma QueryAnswersForAnotherScript()
    ensures var w := EMPTY_WALLET.AddWatch(WatchRequest("cd", 0), [0xcd]).AddWatch(WatchRequest("ab", 0), [0xab])
                       .Record("ab", [0xab], Entries(0, PAYING_BLOCK.Hash(), PAYING_BLOCK));
      !AllConcern([0xcd], InHeights(w.matches, 0, 0))
  {
    PayingBlockRecorded();
    var m := Entry(0, PAYING_BLOCK.Hash(), PAYING_TX).OutputMatch(0);
    var before := EMPTY_WALLET.AddWatch(WatchRequest("cd", 0), [0xcd]).AddWatch(WatchRequest("ab", 0), [0xab]);
    assert before.LogOf("ab") == EMPTY_LOG;
    assert m in before.Record("ab", [0xab], Entries(0, PAYING_BLOCK.Hash(), PAYING_BLOCK)).matches;
    assert !Concerns([0xcd], m);
  }

  const ANY_FILTER := Codec((block: Block, spent: seq<Bytes>) => [], (f: Bytes, key: Digest, script: Bytes) => true)
  const LOSING_CHAIN := ScanChain([PAYING_BLOCK], [[]])
  const LOSING_STORE := [FilterModel(SmartHeader(PAYING_BLOCK.Hash(), Zero, 0, 0), [])]

  function Nothing(hash: Digest): Option<Block> { None }

  function Everything(hash: Digest): Option<Block> { Some(PAYING_BLOCK) }

  /** A scan in which the block is not delivered, and one in which it would be. */
  const LOSING_STEPS: seq<WalletStep> := [
    AddStep(WatchRequest("ab", 0), [0xab]),
    ScanStep("ab", LOSING_STORE, FILTER_BATCH_SIZE, Nothing),
    ScanStep("ab", LOSING_STORE, FILTER_BATCH_SIZE, Everything)]

  lemma LosingScans()
    ensures var watching := EMPTY_WALLET.AddWatch(WatchRequest("ab", 0), [0xab]);
      var missed := WalletNext(ANY_FILTER, watching, LOSING_STEPS[1]);
      && missed == watching.MarkScanned("ab", 1)
      && WalletNext(ANY_FILTER, missed, LOSING_STEPS[2]) == missed
  {
    var watching := EMPTY_WALLET.AddWatch(WatchRequest("ab", 0), [0xab]);
    var watch := watching.watches["ab"];
    assert FetchBatch(LOSING_STORE, 0, FILTER_BATCH_SIZE) == LOSING_STORE;
    assert LOSING_STORE[..0] == [];
    assert ScanFilters(EMPTY_LOG, watch, ANY_FILTER, Nothing, LOSING_STORE) == EMPTY_LOG;
    assert NextHeight(0, LOSING_STORE) == 1;
    assert watching.WithLog("ab", EMPTY_LOG) == watching;
    assert FetchBatch(LOSING_STORE, 1, FILTER_BATCH_SIZE) == [];
  }

  lemma LosingStepsOk()
    ensures NoFalseNegatives(ANY_FILTER) && LOSING_CHAIN.Ok()
    ensures StepsOk(ANY_FILTER, LOSING_CHAIN, EMPTY_WALLET, LOSING_STEPS)
  {
    LosingScans();
    var watching := EMPTY_WALLET.AddWatch(WatchRequest("ab", 0), [0xab]);
    var missed := watching.MarkScanned("ab", 1);
    assert StoredOk(ANY_FILTER, LOSING_CHAIN, 0, LOSING_STORE[0]);
    assert LOSING_STEPS[1..][1..] == [LOSING_STEPS[2]];
    assert StepsOk(ANY_FILTER, LOSING_CHAIN, missed, [LOSING_STEPS[2]]) by {
      assert StepOk(ANY_FILTER, LOSING_CHAIN, missed, LOSING_STEPS[2]);
      assert [LOSING_STEPS[2]][1..] == [];
    }
    assert StepOk(ANY_FILTER, LOSING_CHAIN, watching, LOSING_STEPS[1]);
    assert StepsOk(ANY_FILTER, LOSING_CHAIN, watching, LOSING_STEPS[1..]);
  }

  /** One block that is not delivered when its filter comes up is lost, though it would be delivered later: the
      cursor is past it. */
  lemma UndeliveredBlockIsLost()
    ensures NoFalseNegatives(ANY_FILTER) && LOSING_CHAIN.Ok()
    ensures StepsOk(ANY_FILTER, LOSING_CHAIN, EMPTY_WALLET, LOSING_STEPS)
    ensures var w := WalletRun(ANY_FILTER, EMPTY_WALLET, LOSING_STEPS);
      && w.matches == [] && w.outpoints == map["ab" := {}]
      && w.watches.Keys == {"ab"} && w.watches["ab"].nextScanHeight == 1
      && WatchFullScan(LOSING_CHAIN, w.watches["ab"]) != []
  {
    PayingBlockRecorded();
    LosingScans();
    LosingStepsOk();
    var watching := EMPTY_WALLET.AddWatch(WatchRequest("ab", 0), [0xab]);
    var missed := watching.MarkScanned("ab", 1);
    assert WalletNext(ANY_FILTER, EMPTY_WALLET, LOSING_STEPS[0]) == watching;
    assert LOSING_STEPS[1..][1..] == [LOSING_STEPS[2]];
    assert WalletRun(ANY_FILTER, missed, [LOSING_STEPS[2]]) == missed;
    assert FullScan(EMPTY_LOG, LOSING_CHAIN, [0xab], 0, 0) == EMPTY_LOG;
    assert FullScan(EMPTY_LOG, LOSING_CHAIN, [0xab], 0, 1) == Record(EMPTY_LOG, [0xab], BlockEntries(LOSING_CHAIN, 0));
  }

  /** The script of `LOSING_STEPS`, watched under two spellings, and the block delivered for the second only. */
  const TWICE_STEPS: seq<WalletStep> := [
    AddStep(WatchRequest("ab", 0), [0xab]),
    AddStep(WatchRequest("AB", 0), [0xab]),
    ScanStep("ab", LOSING_STORE, FILTER_BATCH_SIZE, Nothing),
    ScanStep("AB", LOSING_STORE, FILTER_BATCH_SIZE, Everything)]

  const TWICE_WATCHED :=
    EMPTY_WALLET.AddWatch(WatchRequest("ab", 0), [0xab]).AddWatch(WatchRequest("AB", 0), [0xab])

  lemma TwiceScanned() returns (w: Wallet)
    ensures var missed := WalletNext(ANY_FILTER, TWICE_WATCHED, TWICE_STEPS[2]);
      && missed == TWICE_WATCHED.MarkScanned("ab", 1)
      && w == WalletNext(ANY_FILTER, missed, TWICE_STEPS[3])
    ensures w.watches == TWICE_WATCHED.MarkScanned("ab", 1).MarkScanned("AB", 1).watches
    ensures w.matches == Record(EMPTY_LOG, [0xab], BlockEntries(LOSING_CHAIN, 0)).matches
  {
    var watch := TWICE_WATCHED.watches["ab"];
    var missed := TWICE_WATCHED.MarkScanned("ab", 1);
    assert FetchBatch(LOSING_STORE, 0, FILTER_BATCH_SIZE) == LOSING_STORE;
    assert LOSING_STORE[..0] == [];
    assert ScanFilters(EMPTY_LOG, watch, ANY_FILTER, Nothing, LOSING_STORE) == EMPTY_LOG;
    assert NextHeight(0, LOSING_STORE) == 1;
    assert TWICE_WATCHED.WithLog("ab", EMPTY_LOG) == TWICE_WATCHED;
    assert missed.LogOf("AB") == EMPTY_LOG;
    assert ScanFilters(EMPTY_LOG, missed.watches["AB"], ANY_FILTER, Everything, LOSING_STORE) ==
      Record(EMPTY_LOG, [0xab], BlockEntries(LOSING_CHAIN, 0));
    w := WalletNext(ANY_FILTER, missed, TWICE_STEPS[3]);
  }

  /** A watch can have all its matches although its own scan has lost a block: another watch for the same script has
      found them. */
  lemma FoundByTwin()
    ensures var w := WalletRun(ANY_FILTER, EMPTY_WALLET, TWICE_STEPS);
      var ledger := LedgerRun(ANY_FILTER, LOSING_CHAIN, EMPTY_WALLET, map[], TWICE_STEPS);
      && "ab" in w.watches && FullyMatched(LOSING_CHAIN, w, "ab")
      && !NothingLost(LOSING_CHAIN, Got(ledger, "ab"), w.watches["ab"])
  {
    PayingBlockRecorded();
    var w := TwiceScanned();
    var missed := TWICE_WATCHED.MarkScanned("ab", 1);
    assert WalletRun(ANY_FILTER, EMPTY_WALLET, TWICE_STEPS) == w by {
      assert TWICE_STEPS[1..][1..] == TWICE_STEPS[2..];
      assert TWICE_STEPS[2..][1..] == [TWICE_STEPS[3]];
      assert WalletRun(ANY_FILTER, missed, [TWICE_STEPS[3]]) == w;
      assert WalletRun(ANY_FILTER, TWICE_WATCHED, TWICE_STEPS[2..]) == w;
    }
    TwiceLedger();
    var m := Entry(0, PAYING_BLOCK.Hash(), PAYING_TX).OutputMatch(0);
    assert FullScan(EMPTY_LOG, LOSING_CHAIN, [0xab], 0, 0) == EMPTY_LOG;
    assert FullScan(EMPTY_LOG, LOSING_CHAIN, [0xab], 0, 1) == Record(EMPTY_LOG, [0xab], BlockEntries(LOSING_CHAIN, 0));
    assert m in WatchFullScan(LOSING_CHAIN, w.watches["ab"]) && m.height == 0;
    assert MatchesAt(WatchFullScan(LOSING_CHAIN, w.watches["ab"]), 0);
  }

  lemma TwiceLedger()
    ensures 0 !in Got(LedgerRun(ANY_FILTER, LOSING_CHAIN, EMPTY_WALLET, map[], TWICE_STEPS), "ab")
  {
    var w := TwiceScanned();
    var missed := TWICE_WATCHED.MarkScanned("ab", 1);
    var first := LedgerNext(LOSING_CHAIN, TWICE_WATCHED, map[], TWICE_STEPS[2]);
    assert 0 !in Got(first, "ab");
    var last := LedgerNext(LOSING_CHAIN, missed, first, TWICE_STEPS[3]);
    assert Got(last, "ab") == Got(first, "ab");
    assert TWICE_STEPS[1..][1..] == TWICE_STEPS[2..];
    assert TWICE_STEPS[2..][1..] == [TWICE_STEPS[3]];
    assert LedgerRun(ANY_FILTER, LOSING_CHAIN, missed, first, [TWICE_STEPS[3]]) == last;
    assert LedgerRun(ANY_FILTER, LOSING_CHAIN, TWICE_WATCHED, map[], TWICE_STEPS[2..]) == last;
  }
}
