/** Adding a watch again: its scan starts over, with what is known and found kept. */
module Rescans {
  import opened Digests
  import opened SyncState
  import opened Recorder
  import opened Adapter
  import opened Scanner

  /** As `StepOk`, but a script that is watched already may be added again, from whatever height. */
  ghost predicate StepAllowed(codec: Codec, chain: ScanChain, w: Wallet, step: WalletStep) {
    match step
    case AddStep(request, script) =>
      && !Excluded(script)
      && (request.scriptHex in w.watches ==> w.watches[request.scriptHex].script == script)
    case ScanStep(_, _, _, _) => StepOk(codec, chain, w, step)
  }

  ghost predicate StepsAllowed(codec: Codec, chain: ScanChain, w: Wallet, steps: seq<WalletStep>)
    decreases |steps|
  {
    |steps| == 0 ||
    (StepAllowed(codec, chain, w, steps[0]) && StepsAllowed(codec, chain, WalletNext(codec, w, steps[0]), steps[1..]))
  }

  // ---------- nothing false is found ----------

  /** The match is a paying output of a block of the chain, or an input of one that spends a paying output. */
  ghost predicate Genuine(chain: ScanChain, script: Bytes, m: TxMatch) {
    exists h :: 0 <= h < |chain.blocks| && GenuineAt(BlockEntries(chain, h), script, m)
  }

  ghost predicate GenuineAt(es: seq<Entry>, script: Bytes, m: TxMatch) {
    exists e :: e in es && (IsOutput(script, e, m) || (IsInput(e, m) && Pays(e.tx.ins[m.vin].prevOut, script)))
  }

  lemma {:induction false} RecordGenuine(log: Log<TxMatch>, script: Bytes, es: seq<Entry>)
    requires KnownPay(script, log.outpoints)
    ensures forall m :: m in Record(log, script, es).matches ==> m in log.matches || GenuineAt(es, script, m)
    decreases |es|
  {
    if es != [] {
      var n := |es| - 1;
      RecordGenuine(log, script, es[..n]);
      RecordKnownPay(log, script, es[..n]);
      PlainTxFound(Record(log, script, es[..n]), script, es[n]);
      forall m | m in Record(log, script, es).matches && m !in log.matches
        ensures GenuineAt(es, script, m)
      {
        if m in Record(log, script, es[..n]).matches {
          var e :| e in es[..n] && (IsOutput(script, e, m) || (IsInput(e, m) && Pays(e.tx.ins[m.vin].prevOut, script)));
          assert e in es;
        } else {
          assert es[n] in es;
        }
      }
    }
  }

  lemma {:induction false} ScanGenuine(log: Log<TxMatch>, chain: ScanChain, script: Bytes, got: set<nat>,
                                       from: nat, end: nat)
    requires end <= |chain.blocks| && KnownPay(script, log.outpoints)
    ensures forall m :: m in DeliveredScan(log, chain, script, got, from, end).matches ==>
      m in log.matches || Genuine(chain, script, m)
    decreases end
  {
    if end > from {
      ScanGenuine(log, chain, script, got, from, end - 1);
      ScanKnownPay(log, chain, script, got, from, end - 1);
      RecordGenuine(DeliveredScan(log, chain, script, got, from, end - 1), script, BlockEntries(chain, end - 1));
    }
  }

  // ---------- nothing covered is missing ----------

  /** A scan that starts with more knows and finds more. */
  lemma {:induction false} ScanWithin(a: Log<TxMatch>, b: Log<TxMatch>, chain: ScanChain, script: Bytes,
                                      got: set<nat>, from: nat, end: nat)
    requires end <= |chain.blocks| && Within(a, b)
    ensures Within(DeliveredScan(a, chain, script, got, from, end), DeliveredScan(b, chain, script, got, from, end))
    ensures Within(b, DeliveredScan(b, chain, script, got, from, end))
    decreases end
  {
    if end > from {
      ScanWithin(a, b, chain, script, got, from, end - 1);
      RecordWithin(DeliveredScan(a, chain, script, got, from, end - 1),
                   DeliveredScan(b, chain, script, got, from, end - 1), script, BlockEntries(chain, end - 1));
      RecordWithin(DeliveredScan(b, chain, script, got, from, end - 1),
                   DeliveredScan(b, chain, script, got, from, end - 1), script, BlockEntries(chain, end - 1));
    }
  }

  /** Since it was last added, the watch has been scanned up to its cursor: at least what recording the blocks gives
      that were delivered then is known and found. */
  ghost predicate Covers(chain: ScanChain, got: set<nat>, watch: Watch, log: Log<TxMatch>) {
    && !Excluded(watch.script) && watch.request.startHeight <= watch.nextScanHeight
    && KnownPay(watch.script, log.outpoints)
    && Within(WatchScan(chain, got, watch), log)
  }

  ghost predicate SomeWatchGenuine(chain: ScanChain, w: Wallet, m: TxMatch) {
    exists hex :: hex in w.watches && Genuine(chain, w.watches[hex].script, m)
  }

  ghost predicate WatchCovered(chain: ScanChain, ledger: Ledger, w: Wallet, hex: string)
    requires hex in w.watches && hex in w.outpoints
  {
    && w.watches[hex].request.scriptHex == hex
    && Covers(chain, Got(ledger, hex), w.watches[hex], Log(w.outpoints[hex], w.matches))
  }

  ghost predicate WalletCovered(chain: ScanChain, ledger: Ledger, w: Wallet) {
    && w.outpoints.Keys == w.watches.Keys
    && (forall hex :: hex in w.watches ==> WatchCovered(chain, ledger, w, hex))
    && (forall m :: m in w.matches ==> SomeWatchGenuine(chain, w, m))
  }

  /** One scan of one watch. */
  lemma ScanCovers(codec: Codec, chain: ScanChain, watch: Watch, provide: Digest -> Option<Block>, got: set<nat>,
                   log: Log<TxMatch>, filters: seq<FilterModel>)
    returns (after: Log<TxMatch>)
    requires FiltersFind(codec, chain, watch.script) && ProviderOk(chain, provide) && Covers(chain, got, watch, log)
    requires filters != [] && StretchOk(codec, chain, watch.nextScanHeight, filters)
    ensures after == ScanFilters(log, watch, codec, provide, filters)
    ensures Covers(chain, NewlyGot(chain, provide, got, watch, filters), Later(watch, filters), after)
    ensures Within(log, after)
    ensures forall m :: m in after.matches ==> m in log.matches || Genuine(chain, watch.script, m)
  {
    var start, cursor, end := watch.request.startHeight, watch.nextScanHeight, watch.nextScanHeight + |filters|;
    var covered := NewlyGot(chain, provide, got, watch, filters);
    StretchPrefix(codec, chain, cursor, filters);
    ScanIsDelivered(codec, chain, watch, provide, covered, log, cursor, end, filters);
    after := DeliveredScan(log, chain, watch.script, covered, cursor, end);
    ScanDepends(EMPTY_LOG, chain, watch.script, got, covered, start, cursor);
    ScanSplit(EMPTY_LOG, chain, watch.script, covered, start, cursor, end);
    ScanWithin(WatchScan(chain, got, watch), log, chain, watch.script, covered, cursor, end);
    ScanKnownPay(log, chain, watch.script, covered, cursor, end);
    ScanGenuine(log, chain, watch.script, covered, cursor, end);
  }

  lemma MoreMatchesCover(chain: ScanChain, got: set<nat>, watch: Watch, log: Log<TxMatch>, more: Log<TxMatch>)
    requires Covers(chain, got, watch, log) && log.outpoints == more.outpoints && Within(log, more)
    ensures Covers(chain, got, watch, more)
  {
  }

  /** What a scan of one watch does to the wallet. */
  lemma ScannedCovered(chain: ScanChain, ledger: Ledger, w: Wallet, hex: string, got: set<nat>, later: Watch,
                       log: Log<TxMatch>, t: Wallet)
    requires WalletCovered(chain, ledger, w) && hex in w.watches
    requires t == Wallet(w.watches[hex := later], w.outpoints[hex := log.outpoints], log.matches)
    requires later == w.watches[hex].(nextScanHeight := later.nextScanHeight)
    requires Covers(chain, got, later, log) && Within(Log(w.outpoints[hex], w.matches), log)
    requires forall m :: m in log.matches ==> m in w.matches || Genuine(chain, later.script, m)
    ensures WalletCovered(chain, ledger[hex := got], t)
  {
    assert WatchCovered(chain, ledger, w, hex);
    forall k | k in t.watches
      ensures WatchCovered(chain, ledger[hex := got], t, k)
    {
      if k != hex {
        assert WatchCovered(chain, ledger, w, k);
        MoreMatchesCover(chain, Got(ledger, k), w.watches[k], Log(w.outpoints[k], w.matches),
                         Log(w.outpoints[k], log.matches));
      }
    }
    forall m | m in t.matches
      ensures SomeWatchGenuine(chain, t, m)
    {
      if m in w.matches {
        var k :| k in w.watches && Genuine(chain, w.watches[k].script, m);
        assert t.watches[k].script == w.watches[k].script;
      } else {
        assert Genuine(chain, t.watches[hex].script, m);
      }
    }
  }

  lemma ScanStepCovers(codec: Codec, chain: ScanChain, w: Wallet, ledger: Ledger, step: WalletStep)
    requires NoFalseNegatives(codec) && chain.Ok() && WalletCovered(chain, ledger, w)
    requires step.ScanStep? && StepOk(codec, chain, w, step)
    ensures WalletCovered(chain, LedgerNext(chain, w, ledger, step), WalletNext(codec, w, step))
  {
    var hex := step.scriptHex;
    var watch := w.watches[hex];
    assert WatchCovered(chain, ledger, w, hex);
    var filters := FetchedOk(codec, chain, step.store, watch.nextScanHeight, step.size);
    if filters != [] {
      NextHeightIs(codec, chain, watch.nextScanHeight, filters);
      FiltersFindScript(codec, chain, watch.script);
      var t := ScannedIs(w, watch, codec, step.provide, filters);
      var log := ScanCovers(codec, chain, watch, step.provide, Got(ledger, hex), Log(w.outpoints[hex], w.matches),
                            filters);
      ScannedCovered(chain, ledger, w, hex, NewlyGot(chain, step.provide, Got(ledger, hex), watch, filters),
                     Later(watch, filters), log, t);
    }
  }

  /** Adding a script, for the first time or again. */
  lemma AddStepCovers(codec: Codec, chain: ScanChain, w: Wallet, ledger: Ledger, step: WalletStep)
    requires WalletCovered(chain, ledger, w) && step.AddStep? && StepAllowed(codec, chain, w, step)
    ensures WalletCovered(chain, LedgerNext(chain, w, ledger, step), WalletNext(codec, w, step))
  {
    var hex, t := step.request.scriptHex, WalletNext(codec, w, step);
    if hex in w.watches {
      assert WatchCovered(chain, ledger, w, hex);
    }
    assert WatchScan(chain, Got(ledger, hex), t.watches[hex]) == EMPTY_LOG;
    forall k | k in t.watches
      ensures WatchCovered(chain, ledger, t, k)
    {
      if k != hex {
        assert WatchCovered(chain, ledger, w, k);
      }
    }
    forall m | m in t.matches
      ensures SomeWatchGenuine(chain, t, m)
    {
      var k :| k in w.watches && Genuine(chain, w.watches[k].script, m);
      assert t.watches[k].script == w.watches[k].script;
    }
  }

  lemma {:induction false} StepsCover(codec: Codec, chain: ScanChain, w: Wallet, ledger: Ledger,
                                      steps: seq<WalletStep>)
    requires NoFalseNegatives(codec) && chain.Ok()
    requires WalletCovered(chain, ledger, w) && StepsAllowed(codec, chain, w, steps)
    ensures WalletCovered(chain, LedgerRun(codec, chain, w, ledger, steps), WalletRun(codec, w, steps))
    decreases |steps|
  {
    if |steps| != 0 {
      if steps[0].AddStep? {
        AddStepCovers(codec, chain, w, ledger, steps[0]);
      } else {
        ScanStepCovers(codec, chain, w, ledger, steps[0]);
      }
      StepsCover(codec, chain, WalletNext(codec, w, steps[0]), LedgerNext(chain, w, ledger, steps[0]), steps[1..]);
    }
  }

  lemma CoveredIsMatched(chain: ScanChain, ledger: Ledger, w: Wallet, hex: string)
    requires WalletCovered(chain, ledger, w) && hex in w.watches
    requires NothingLost(chain, Got(ledger, hex), w.watches[hex])
    ensures FullyMatched(chain, w, hex)
  {
    assert WatchCovered(chain, ledger, w, hex);
    OneWatch(chain, Got(ledger, hex), w.watches[hex]);
  }

  /** Rescans make good what earlier scans have lost.  After any sequence of scans and of watches that are added, for
      the first time or again: a watch has all matches of its full scan if every block with one of them was delivered
      in a scan since it was last added, whatever was missed before; and every match is a real one. */
  lemma RescansFind(codec: Codec, chain: ScanChain, steps: seq<WalletStep>)
    requires NoFalseNegatives(codec) && chain.Ok() && StepsAllowed(codec, chain, EMPTY_WALLET, steps)
    ensures var w := WalletRun(codec, EMPTY_WALLET, steps);
      var ledger := LedgerRun(codec, chain, EMPTY_WALLET, map[], steps);
      && (forall hex :: hex in w.watches && NothingLost(chain, Got(ledger, hex), w.watches[hex]) ==>
            FullyMatched(chain, w, hex))
      && (forall m :: m in w.matches ==> SomeWatchGenuine(chain, w, m))
  {
    var w := WalletRun(codec, EMPTY_WALLET, steps);
    var ledger := LedgerRun(codec, chain, EMPTY_WALLET, map[], steps);
    StepsCover(codec, chain, EMPTY_WALLET, map[], steps);
    forall hex | hex in w.watches && NothingLost(chain, Got(ledger, hex), w.watches[hex])
      ensures FullyMatched(chain, w, hex)
    {
      CoveredIsMatched(chain, ledger, w, hex);
    }
  }

  // ---------- the lost match, found ----------

  /** The watch of `LOSING_STEPS` added again, and one more scan. */
  const RESCAN_STEPS: seq<WalletStep> := [
    AddStep(WatchRequest("ab", 0), [0xab]),
    ScanStep("ab", LOSING_STORE, FILTER_BATCH_SIZE, Everything)]

  /** Scanning on does not find the match that `LOSING_STEPS` has lost; adding the watch again and scanning does. */
  lemma RescanFindsLost()
    ensures var w := WalletRun(ANY_FILTER, WalletRun(ANY_FILTER, EMPTY_WALLET, LOSING_STEPS), RESCAN_STEPS);
      "ab" in w.watches && FullyMatched(LOSING_CHAIN, w, "ab") && w.matches != []
  {
    PayingBlockRecorded();
    UndeliveredBlockIsLost();
    var lost := WalletRun(ANY_FILTER, EMPTY_WALLET, LOSING_STEPS);
    var added := WalletNext(ANY_FILTER, lost, RESCAN_STEPS[0]);
    assert RESCAN_STEPS[1..][1..] == [];
    assert added.watches == map["ab" := Watch(WatchRequest("ab", 0), [0xab], 0)];
    RescanOnce(added);
    assert WalletRun(ANY_FILTER, added, RESCAN_STEPS[1..]) == WalletNext(ANY_FILTER, added, RESCAN_STEPS[1]);
    assert FullScan(EMPTY_LOG, LOSING_CHAIN, [0xab], 0, 0) == EMPTY_LOG;
    assert FullScan(EMPTY_LOG, LOSING_CHAIN, [0xab], 0, 1) == Record(EMPTY_LOG, [0xab], BlockEntries(LOSING_CHAIN, 0));
  }

  lemma RescanOnce(w: Wallet)
    requires w.watches == map["ab" := Watch(WatchRequest("ab", 0), [0xab], 0)] && w.LogOf("ab") == EMPTY_LOG
    ensures var t := WalletNext(ANY_FILTER, w, RESCAN_STEPS[1]);
      && t.watches == map["ab" := Watch(WatchRequest("ab", 0), [0xab], 1)]
      && t.matches == Record(EMPTY_LOG, [0xab], BlockEntries(LOSING_CHAIN, 0)).matches
  {
    var watch := w.watches["ab"];
    assert FetchBatch(LOSING_STORE, 0, FILTER_BATCH_SIZE) == LOSING_STORE;
    assert LOSING_STORE[..0] == [];
    assert NextHeight(0, LOSING_STORE) == 1;
    assert ScanFilters(EMPTY_LOG, watch, ANY_FILTER, Everything, LOSING_STORE) ==
      Record(EMPTY_LOG, [0xab], BlockEntries(LOSING_CHAIN, 0));
  }
}
