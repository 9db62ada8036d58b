/** From the first request to the wallet's matches: fixture, peers, client and scanner together. */
module WholeRun {
  import opened Digests
  import opened SyncState
  import opened Protocol
  import opened PeerServer
  import opened EndToEnd
  import opened HonestRuns
  import opened SyncTheorems
  import opened Completion
  import opened Handlers
  import opened Reader
  import opened Recorder
  import opened Adapter
  import opened Scanner
  import opened Watchers
  import opened Fixture

  // ---------- any scanner on the fixture ----------

  /** A wallet that has scanned a fixture past its second block for the watched script has its two matches, if the two
      blocks with a wallet transaction were delivered when they were covered. */
  lemma WasabiFindsExpected(meets: Digest -> bool, codec: Codec, genesis: Block, fx: seq<BlockFixture>,
                            ledger: Ledger, w: Wallet, hex: string)
    requires IsGenesis(genesis) && Built(meets, codec, genesis, fx) && |fx| > 2
    requires WalletOk(ChainOf(fx), ledger, w) && 1 in Got(ledger, hex) && 2 in Got(ledger, hex)
    requires w.watches.Keys == {hex} && w.watches[hex].script == WATCHED_SCRIPT
    requires w.watches[hex].request.startHeight <= 1 && w.watches[hex].nextScanHeight > 2
    ensures |fx[1].block.txs| > 1 && |fx[2].block.txs| > 1
    ensures SameMatches(w.matches, Expected(fx))
  {
    var chain, watch := ChainOf(fx), w.watches[hex];
    FixtureScan(meets, codec, genesis, fx, watch.request.startHeight, Min(watch.nextScanHeight, |fx|));
    assert WatchFullScan(chain, watch) == Expected(fx);
    assert NothingLost(chain, Got(ledger, hex), watch);
    WatchAgrees(chain, ledger, w, hex);
    forall m | m in w.matches
      ensures m in Expected(fx)
    {
      MatchesAreFull(chain, ledger, w, m);
    }
  }

  lemma {:induction false} AllInHeights(matches: seq<TxMatch>, start: nat, stop: nat)
    requires forall m :: m in matches ==> start <= m.height <= stop
    ensures InHeights(matches, start, stop) == matches
  {
    if matches != [] {
      AllInHeights(matches[1..], start, stop);
    }
  }

  /** A recorder for many scripts, fed with every block of a fixture in whatever script order, answers for the
      watched script with its two matches, in order. */
  lemma NakamotoFindsExpected(meets: Digest -> bool, codec: Codec, genesis: Block, fx: seq<BlockFixture>,
                              parse: string -> Option<Bytes>, blocks: seq<Recorded>, watches: set<string>, hex: string)
    requires IsGenesis(genesis) && Built(meets, codec, genesis, fx) && |fx| > 2
    requires OrdersOk(blocks, watches) && hex in watches && parse(hex) == Some(WATCHED_SCRIPT)
    requires ChainEntries(blocks) == EntriesBetween(ChainOf(fx), 0, |fx|)
    ensures |fx[1].block.txs| > 1 && |fx[2].block.txs| > 1
    ensures NakamotoMatches(RecordVisits(Book(map[], []), Nakamoto(parse), ChainVisits(blocks)).matches,
                            hex, 0, |fx| - 1) == Expected(fx)
  {
    NakamotoAnswers(parse, blocks, watches, hex, 0, |fx| - 1);
    FullScanRecords(ChainOf(fx), WATCHED_SCRIPT, 0, |fx|);
    FixtureScan(meets, codec, genesis, fx, 0, |fx|);
    AllInHeights(Expected(fx), 0, |fx| - 1);
  }

  // ---------- scanning what the sync has emitted ----------

  /** The filters that a sync from genesis emits are a filter store for the scanner. */
  lemma EmittedIsStore(meets: Digest -> bool, codec: Codec, genesis: Block, fx: seq<BlockFixture>,
                       filters: seq<FilterModel>)
    requires IsGenesis(genesis) && Built(meets, codec, genesis, fx)
    requires HonestFilters(fx, 1, filters)
    ensures StretchOk(codec, ChainOf(fx), 1, filters)
  {
    forall i | 0 <= i < |filters|
      ensures StoredOk(codec, ChainOf(fx), 1 + i, filters[i])
    {
      assert BuiltAt(meets, codec, genesis, fx, 1 + i);
    }
  }

  /** `n` scans of one watch. */
  function Scans(hex: string, store: seq<FilterModel>, provide: Digest -> Option<Block>, n: nat): seq<WalletStep> {
    if n == 0 then []
    else [ScanStep(hex, store, FILTER_BATCH_SIZE, provide)] + Scans(hex, store, provide, n - 1)
  }

  /** What is delivered below the cursor has been delivered in turn. */
  ghost predicate InTurn(chain: ScanChain, provide: Digest -> Option<Block>, got: set<nat>, cursor: nat) {
    forall h :: 1 <= h < cursor && h < |chain.blocks| && Delivered(chain, provide, h) ==> h in got
  }

  ghost predicate WatchesOnly(w: Wallet, hex: string, script: Bytes, cursor: nat) {
    w.watches == map[hex := Watch(WatchRequest(hex, 1), script, cursor)]
  }

  lemma FetchedCount(store: seq<FilterModel>, cursor: nat)
    requires store != [] && store[0].header.height == 1 && 1 <= cursor <= |store| + 1
    ensures cursor + |FetchBatch(store, cursor, FILTER_BATCH_SIZE)| == Min(cursor + FILTER_BATCH_SIZE, |store| + 1)
  {
  }

  lemma ScannedWatch(codec: Codec, provide: Digest -> Option<Block>, w: Wallet, watch: Watch,
                     filters: seq<FilterModel>, later: nat)
    requires var hex := watch.request.scriptHex; hex in w.watches && w.watches[hex] == watch
    requires NextHeight(watch.nextScanHeight, filters) == later >= watch.nextScanHeight
    ensures Scanned(w, watch, codec, provide, filters).watches ==
      w.watches[watch.request.scriptHex := watch.(nextScanHeight := later)]
  {
  }

  lemma OneScan(codec: Codec, chain: ScanChain, provide: Digest -> Option<Block>, w: Wallet, ledger: Ledger,
                hex: string, script: Bytes, store: seq<FilterModel>, cursor: nat)
    returns (next: Wallet, after: Ledger, later: nat)
    requires StretchOk(codec, chain, 1, store) && store != [] && |store| + 1 == |chain.blocks|
    requires ProviderOk(chain, provide) && InTurn(chain, provide, Got(ledger, hex), cursor)
    requires WatchesOnly(w, hex, script, cursor) && 1 <= cursor <= |chain.blocks|
    ensures var step := ScanStep(hex, store, FILTER_BATCH_SIZE, provide);
      && StepOk(codec, chain, w, step)
      && next == WalletNext(codec, w, step) && after == LedgerNext(chain, w, ledger, step)
    ensures WatchesOnly(next, hex, script, later) && InTurn(chain, provide, Got(after, hex), later)
    ensures later == Min(cursor + FILTER_BATCH_SIZE, |chain.blocks|)
  {
    var step := ScanStep(hex, store, FILTER_BATCH_SIZE, provide);
    next, after := WalletNext(codec, w, step), LedgerNext(chain, w, ledger, step);
    assert StoredOk(codec, chain, 1 + 0, store[0]);
    assert store[0].header.height == 1;
    var filters := FetchedOk(codec, chain, store, cursor, FILTER_BATCH_SIZE);
    FetchedCount(store, cursor);
    later := cursor + |filters|;
    NextHeightIs(codec, chain, cursor, filters);
    ScannedWatch(codec, provide, w, w.watches[hex], filters, later);
  }

  lemma {:induction false} ScansReach(codec: Codec, chain: ScanChain, provide: Digest -> Option<Block>, w: Wallet,
                                      ledger: Ledger, hex: string, script: Bytes, store: seq<FilterModel>,
                                      cursor: nat, n: nat)
    returns (later: nat)
    requires StretchOk(codec, chain, 1, store) && store != [] && |store| + 1 == |chain.blocks|
    requires ProviderOk(chain, provide) && InTurn(chain, provide, Got(ledger, hex), cursor)
    requires WatchesOnly(w, hex, script, cursor) && 1 <= cursor <= |chain.blocks|
    ensures StepsOk(codec, chain, w, Scans(hex, store, provide, n))
    ensures WatchesOnly(WalletRun(codec, w, Scans(hex, store, provide, n)), hex, script, later)
    ensures InTurn(chain, provide, Got(LedgerRun(codec, chain, w, ledger, Scans(hex, store, provide, n)), hex), later)
    ensures later >= Min(cursor + n, |chain.blocks|)
    decreases n
  {
    later := cursor;
    if n > 0 {
      var next, after;
      next, after, later := OneScan(codec, chain, provide, w, ledger, hex, script, store, cursor);
      assert Scans(hex, store, provide, n)[1..] == Scans(hex, store, provide, n - 1);
      later := ScansReach(codec, chain, provide, next, after, hex, script, store, later, n - 1);
    }
  }

  /** The steps of a wallet that watches the script from height 1 and scans `n` times. */
  function WatchAndScan(hex: string, store: seq<FilterModel>, provide: Digest -> Option<Block>, n: nat)
    : seq<WalletStep>
  {
    [AddStep(WatchRequest(hex, 1), WATCHED_SCRIPT)] + Scans(hex, store, provide, n)
  }

  /** What is delivered is right, and the two blocks with a wallet transaction are. */
  ghost predicate WalletDelivered(fx: seq<BlockFixture>, provide: Digest -> Option<Block>)
    requires |fx| > 2
  {
    ProviderOk(ChainOf(fx), provide) && Delivered(ChainOf(fx), provide, 1) && Delivered(ChainOf(fx), provide, 2)
  }

  lemma ScanFindsExpected(meets: Digest -> bool, codec: Codec, genesis: Block, fx: seq<BlockFixture>,
                          provide: Digest -> Option<Block>, filters: seq<FilterModel>, hex: string, n: nat)
    requires IsGenesis(genesis) && Built(meets, codec, genesis, fx) && |fx| > 2
    requires NoFalseNegatives(codec) && WalletDelivered(fx, provide)
    requires HonestFilters(fx, 1, filters) && |filters| + 1 == |fx| && n >= 2
    ensures |fx[1].block.txs| > 1 && |fx[2].block.txs| > 1
    ensures SameMatches(WalletRun(codec, EMPTY_WALLET, WatchAndScan(hex, filters, provide, n)).matches, Expected(fx))
  {
    var chain, steps := ChainOf(fx), WatchAndScan(hex, filters, provide, n);
    FixtureChainOk(meets, codec, genesis, fx);
    EmittedIsStore(meets, codec, genesis, fx, filters);
    var watching := EMPTY_WALLET.AddWatch(WatchRequest(hex, 1), WATCHED_SCRIPT);
    assert steps[0] == AddStep(WatchRequest(hex, 1), WATCHED_SCRIPT) && steps[1..] == Scans(hex, filters, provide, n);
    var cursor := ScansReach(codec, chain, provide, watching, map[], hex, WATCHED_SCRIPT, filters, 1, n);
    assert StepsOk(codec, chain, EMPTY_WALLET, steps);
    ScansKeep(codec, chain, EMPTY_WALLET, map[], steps);
    WasabiFindsExpected(meets, codec, genesis, fx, LedgerRun(codec, chain, EMPTY_WALLET, map[], steps),
                        WalletRun(codec, EMPTY_WALLET, steps), hex);
  }

  /** The blocks that the client knows are still those it has started with. */
  lemma BlocksStay(parses: Bytes -> bool, fx: seq<BlockFixture>, initial: nat, sys: System, calls: seq<Event>)
    requires Reached(parses, fx, initial, sys) && AtRest(sys) && HonestCalls(parses, fx, initial, sys, calls)
    requires sys.shared.blocks == ClientBlocks(fx)
    ensures HandleAll(parses, initial, sys, calls).shared.blocks == ClientBlocks(fx)
    decreases |calls|
  {
    if calls != [] {
      var steps := CallIsRun(parses, fx, initial, sys, calls[0]);
      RunGrows(parses, initial, sys, steps);
      RunReaches(parses, fx, initial, sys, steps);
      CallRests(parses, initial, sys, calls[0]);
      BlocksStay(parses, fx, initial, Handle(parses, initial, sys, calls[0]), calls[1..]);
    }
  }

  ghost predicate StartsAtGenesis(fx: seq<BlockFixture>) {
    fx != [] && HonestStart(fx, ClientBlocks(fx), [FixtureHeader(fx, 0)], 0)
  }

  ghost function GenesisStart(fx: seq<BlockFixture>): (sys: System)
    requires StartsAtGenesis(fx)
    ensures Inv(0, sys)
  {
    StartState(fx, ClientBlocks(fx), [FixtureHeader(fx, 0)], 0)
  }

  /** A client that knows the blocks of the fixture, and nothing but the genesis filter header, after some steps. */
  ghost function GenesisState(parses: Bytes -> bool, fx: seq<BlockFixture>, steps: seq<Step>): (sys: System)
    requires StartsAtGenesis(fx)
    ensures Inv(0, sys)
  {
    Run(parses, 0, GenesisStart(fx), steps)
  }

  /** The filters that its reads have returned, in the steps and in the calls that follow. */
  ghost function FiltersRead(parses: Bytes -> bool, fx: seq<BlockFixture>, steps: seq<Step>, calls: seq<Event>)
    : seq<FilterModel>
    requires StartsAtGenesis(fx)
  {
    JoinAll(Reads(parses, 0, GenesisStart(fx), steps)
            + CallReads(parses, 0, GenesisState(parses, fx, steps), calls))
  }

  /** The whole way.  A client knows the blocks of a built fixture and nothing but the genesis filter header.  Honest
      peers have answered it in whatever way, with closed connections and stale ranges, up to a point where no handler
      is at work.  From there on a live peer asks, and the client makes any calls, in any order.  Whenever no peer is
      left with an unanswered request and the channel has been read, scanning the filters that the reads have returned
      finds exactly the wallet transactions of the fixture. */
  lemma FromGenesisToMatches(meets: Digest -> bool, codec: Codec, genesis: Block, fx: seq<BlockFixture>,
                             parses: Bytes -> bool, steps: seq<Step>, calls: seq<Event>,
                             provide: Digest -> Option<Block>, hex: string, n: nat)
    requires IsGenesis(genesis) && Built(meets, codec, genesis, fx) && |fx| > 2
    requires NoFalseNegatives(codec) && ParsesAll(parses, fx) && WalletDelivered(fx, provide) && n >= 2
    requires StartsAtGenesis(fx)
    requires HonestRun(parses, fx, 0, GenesisStart(fx), steps)
    requires AtRest(GenesisState(parses, fx, steps)) && calls != [] && calls[0].Ask?
    requires HonestCalls(parses, fx, 0, GenesisState(parses, fx, steps), calls)
    ensures |fx[1].block.txs| > 1 && |fx[2].block.txs| > 1
    ensures var final := HandleAll(parses, 0, GenesisState(parses, fx, steps), calls);
      NobodyAsked(final) && final.shared.ready == [] ==>
        SameMatches(
          WalletRun(codec, EMPTY_WALLET, WatchAndScan(hex, FiltersRead(parses, fx, steps, calls), provide, n)).matches,
          Expected(fx))
  {
    TxsOf(meets, codec, genesis, fx, 1);
    TxsOf(meets, codec, genesis, fx, 2);
    var final := HandleAll(parses, 0, GenesisState(parses, fx, steps), calls);
    AllIsRead(parses, fx, steps, calls);
    if NobodyAsked(final) && final.shared.ready == [] {
      GenesisReached(parses, fx, steps);
      CompleteFinal(parses, fx, GenesisState(parses, fx, steps), calls);
      ScanFindsExpected(meets, codec, genesis, fx, provide, FiltersRead(parses, fx, steps, calls), hex, n);
    }
  }

  lemma GenesisReached(parses: Bytes -> bool, fx: seq<BlockFixture>, steps: seq<Step>)
    requires StartsAtGenesis(fx) && ParsesAll(parses, fx)
    requires HonestRun(parses, fx, 0, GenesisStart(fx), steps)
    ensures Reached(parses, fx, 0, GenesisState(parses, fx, steps))
    ensures GenesisState(parses, fx, steps).shared.blocks == ClientBlocks(fx)
  {
    var start := GenesisStart(fx);
    StartReached(parses, fx, ClientBlocks(fx), [FixtureHeader(fx, 0)], 0);
    RunReaches(parses, fx, 0, start, steps);
    RunGrows(parses, 0, start, steps);
  }

  lemma AllIsRead(parses: Bytes -> bool, fx: seq<BlockFixture>, steps: seq<Step>, calls: seq<Event>)
    requires StartsAtGenesis(fx)
    ensures var final := HandleAll(parses, 0, GenesisState(parses, fx, steps), calls);
      final.shared.ready == [] ==> FiltersRead(parses, fx, steps, calls) == Emitted(final.shared)
  {
    HonestStartOk(fx, ClientBlocks(fx), [FixtureHeader(fx, 0)], 0);
    CallReadsAreEmitted(parses, ClientBlocks(fx), [FixtureHeader(fx, 0)], 0, steps, calls);
  }

  lemma CompleteFinal(parses: Bytes -> bool, fx: seq<BlockFixture>, sys: System, calls: seq<Event>)
    requires Reached(parses, fx, 0, sys) && AtRest(sys) && HonestCalls(parses, fx, 0, sys, calls)
    requires sys.shared.blocks == ClientBlocks(fx) && calls != [] && calls[0].Ask?
    ensures var final := HandleAll(parses, 0, sys, calls);
      NobodyAsked(final) ==> HonestFilters(fx, 1, Emitted(final.shared)) && |Emitted(final.shared)| + 1 == |fx|
  {
    BlocksStay(parses, fx, 0, sys, calls);
    CallsComplete(parses, fx, 0, sys, calls, AboveAll(calls));
  }

  /** A bound on the peers that calls name. */
  function AboveAll(calls: seq<Event>): (n: nat)
    ensures CallsBelow(calls, n)
    decreases |calls|
  {
    if calls == [] then 0
    else
      assert calls == [calls[0]] + calls[1..];
      if calls[0].Read? then AboveAll(calls[1..]) else Max(calls[0].peer + 1, AboveAll(calls[1..]))
  }
}
