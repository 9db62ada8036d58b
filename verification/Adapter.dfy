/** The state that the Wasabi adapter keeps for the harness: watches, known outpoints and matches. */
module Adapter {
  import opened Digests
  import opened Recorder

  datatype WatchRequest = WatchRequest(scriptHex: string, startHeight: nat)

  datatype Watch = Watch(request: WatchRequest, script: Bytes, nextScanHeight: nat)

  /** The wallet part of the adapter state, as one value. */
  datatype Wallet = Wallet(watches: map<string, Watch>, outpoints: map<string, set<OutPoint>>, matches: seq<TxMatch>) {

    function OutpointsOf(scriptHex: string): set<OutPoint> {
      if scriptHex in outpoints then outpoints[scriptHex] else {}
    }

    function LogOf(scriptHex: string): Log<TxMatch> {
      Log(OutpointsOf(scriptHex), matches)
    }

    function WithLog(scriptHex: string, log: Log<TxMatch>): Wallet {
      this.(outpoints := outpoints[scriptHex := log.outpoints], matches := log.matches)
    }

    function AddWatch(request: WatchRequest, script: Bytes): Wallet {
      Wallet(watches[request.scriptHex := Watch(request, script, request.startHeight)],
             outpoints[request.scriptHex := OutpointsOf(request.scriptHex)],
             matches)
    }

    function MarkScanned(scriptHex: string, nextHeight: nat): Wallet {
      if scriptHex !in watches then this
      else
        var watch := watches[scriptHex];
        this.(watches := watches[scriptHex := watch.(nextScanHeight := Max(watch.nextScanHeight, nextHeight))])
    }

    function Record(scriptHex: string, script: Bytes, es: seq<Entry>): Wallet {
      WithLog(scriptHex, Recorder.Record(LogOf(scriptHex), script, es))
    }
  }

  function Max(a: nat, b: nat): nat {
    if a >= b then a else b
  }

  function InHeights(matches: seq<TxMatch>, start: nat, stop: nat): (r: seq<TxMatch>)
    ensures forall m :: m in r <==> m in matches && start <= m.height <= stop
    ensures (forall m :: m in matches ==> start <= m.height <= stop) ==> r == matches
  {
    if matches == [] then []
    else
      var rest := InHeights(matches[1..], start, stop);
      if start <= matches[0].height <= stop then [matches[0]] + rest else rest
  }

  class AdapterState {
    var watches: map<string, Watch>
    var outpoints: map<string, set<OutPoint>>
    var seenMatches: set<TxMatch>  // the formatted match, which has the same six parts
    var matches: seq<TxMatch>

    ghost predicate Valid()
      reads this
    {
      seenMatches == (set m | m in matches) && Distinct(matches)
    }

    ghost function Model(): Wallet
      reads this
    {
      Wallet(watches, outpoints, matches)
    }

    constructor ()
      ensures Valid() && Model() == Wallet(map[], map[], [])
    {
      watches, outpoints, seenMatches, matches := map[], map[], {}, [];
    }

    method AddWatch(request: WatchRequest, script: Bytes)
      requires Valid()
      modifies this
      ensures request.scriptHex in watches && outpoints.Keys == old(outpoints.Keys) + {request.scriptHex}
      ensures watches[request.scriptHex] == Watch(request, script, request.startHeight)
      ensures forall k :: k != request.scriptHex ==>
        (k in watches <==> k in old(watches)) && (k in watches ==> watches[k] == old(watches)[k])
      ensures forall k :: k in outpoints ==> outpoints[k] == if k in old(outpoints) then old(outpoints)[k] else {}
      ensures matches == old(matches)
      ensures Valid() && Model() == old(Model()).AddWatch(request, script)
    {
      watches := watches[request.scriptHex := Watch(request, script, request.startHeight)];
      if request.scriptHex !in outpoints {
        outpoints := outpoints[request.scriptHex := {}];
      }
    }

    method MarkScanned(scriptHex: string, nextHeight: nat)
      requires Valid()
      modifies this
      ensures scriptHex !in old(watches) ==> watches == old(watches)
      ensures scriptHex in old(watches) ==>
        var watch := old(watches)[scriptHex];
        var cursor := if nextHeight > watch.nextScanHeight then nextHeight else watch.nextScanHeight;
        watches == old(watches)[scriptHex := Watch(watch.request, watch.script, cursor)]
      ensures outpoints == old(outpoints) && matches == old(matches)
      ensures Valid() && Model() == old(Model()).MarkScanned(scriptHex, nextHeight)
    {
      if scriptHex in watches {
        var watch := watches[scriptHex];
        watches := watches[scriptHex := watch.(nextScanHeight := Max(watch.nextScanHeight, nextHeight))];
      }
    }

    method RecordBlock(scriptHex: string, script: Bytes, height: nat, blockHash: Digest, block: Block)
      requires Valid()
      modifies this
      ensures Valid() && Model() == old(Model()).Record(scriptHex, script, Entries(height, blockHash, block))
    {
      if scriptHex !in outpoints {
        outpoints := outpoints[scriptHex := {}];
      }
      var es := Entries(height, blockHash, block);
      ghost var log := Model().LogOf(scriptHex);
      ghost var before := Model();
      assert es[..0] == [];
      for i := 0 to |block.txs|
        invariant Valid() && scriptHex in outpoints
        invariant Model() == before.WithLog(scriptHex, Recorder.Record(log, script, es[..i]))
      {
        assert es[..i + 1][..i] == es[..i];
        RecordTransaction(scriptHex, script, es[i]);
      }
      assert es[..|es|] == es;
    }

    method RecordTransaction(scriptHex: string, script: Bytes, e: Entry)
      requires Valid() && scriptHex in outpoints
      modifies this
      ensures Valid() && scriptHex in outpoints
      ensures Model() == old(Model()).WithLog(
        scriptHex, RecordTx(old(Model()).LogOf(scriptHex), Plain, script, e))
    {
      RecordOutputs(scriptHex, script, e);
      RecordInputs(scriptHex, e);
    }

    method RecordOutputs(scriptHex: string, script: Bytes, e: Entry)
      requires Valid() && scriptHex in outpoints
      modifies this
      ensures Valid() && scriptHex in outpoints
      ensures Model() == old(Model()).WithLog(
        scriptHex, RecordOuts(old(Model()).LogOf(scriptHex), Plain, script, e, |e.tx.outs|))
    {
      ghost var log, before := Model().LogOf(scriptHex), Model();
      for vout := 0 to |e.tx.outs|
        invariant Valid() && scriptHex in outpoints
        invariant Model() == before.WithLog(scriptHex, RecordOuts(log, Plain, script, e, vout))
      {
        if e.tx.outs[vout].script != script {
          continue;
        }
        outpoints := outpoints[scriptHex := outpoints[scriptHex] + {OutPoint(e.TxId(), vout)}];
        AddMatchNoLock(e.OutputMatch(vout));
      }
    }

    method RecordInputs(scriptHex: string, e: Entry)
      requires Valid() && scriptHex in outpoints
      modifies this
      ensures Valid() && scriptHex in outpoints
      ensures Model() == old(Model()).WithLog(
        scriptHex, RecordIns(old(Model()).LogOf(scriptHex), Plain, e, |e.tx.ins|))
    {
      ghost var log, before := Model().LogOf(scriptHex), Model();
      for vin := 0 to |e.tx.ins|
        invariant Valid() && scriptHex in outpoints
        invariant Model() == before.WithLog(scriptHex, RecordIns(log, Plain, e, vin))
      {
        if e.tx.ins[vin].prevOut !in outpoints[scriptHex] {
          continue;
        }
        AddMatchNoLock(e.SpendMatch(vin));
      }
    }

    method AddMatchNoLock(m: TxMatch)
      requires Valid()
      modifies this
      ensures matches == if m in old(matches) then old(matches) else old(matches) + [m]
      ensures Valid() && Model() == old(Model()).(matches := Added(old(matches), m))
    {
      if m !in seenMatches {
        seenMatches := seenMatches + {m};
        matches := matches + [m];
      }
    }

    /** The script in the request is not looked at. */
    function Matches(request: WatchRequest, stopHeight: nat): (r: seq<TxMatch>)
      reads this
      ensures forall m :: m in r <==> m in matches && request.startHeight <= m.height <= stopHeight
      ensures (forall m :: m in matches ==> request.startHeight <= m.height <= stopHeight) ==> r == matches
    {
      InHeights(matches, request.startHeight, stopHeight)
    }
  }
}
