/** The deterministic chains that the simulated peers serve and the adapters are judged against. */
module Fixture {
  import opened Digests
  import opened PeerServer
  import opened Recorder
  import opened Adapter
  import opened Scanner

  const MAX_UINT32: nat := 0xffff_ffff

  // a pay-to-witness-key-hash script
  const WATCHED_SCRIPT: Bytes :=
    [0x00, 0x14,
     0x11, 0x11, 0x11, 0x11, 0x11, 0x11, 0x11, 0x11, 0x11, 0x11,
     0x11, 0x11, 0x11, 0x11, 0x11, 0x11, 0x11, 0x11, 0x11, 0x11]
  const ANYONE: Bytes := [0x51]

  datatype MatchExpectation = MatchExpectation(script: Bytes, found: TxMatch)

  datatype WalletFixture =
    WalletFixture(blocks: seq<BlockFixture>, watchedScript: Bytes, matches: seq<MatchExpectation>)

  datatype FixtureError = CannotMine(height: nat) | TargetBelowTip(target: nat)

  // ---------- what is built ----------

  function ToInt32(height: nat): int {
    var low := height % 0x1_0000_0000;
    if low < 0x8000_0000 then low else low - 0x1_0000_0000
  }

  function Coinbase(height: nat): Tx {
    Tx([TxIn(OutPoint(Zero, MAX_UINT32), [(height % 256) as bv8, 0x51])], [TxOut(50_0000_0000, ANYONE)])
  }

  function Candidate(height: nat, prevHash: Digest, txs: seq<Tx>, nonce: nat): Block {
    Block(BlockHeader(prevHash, OfTxs([Coinbase(height)] + txs), 1_700_000_000 + ToInt32(height) * 600, nonce),
          [Coinbase(height)] + txs)
  }

  function ReceiveTx(genesis: Block): Tx
    requires genesis.txs != []
  {
    Tx([TxIn(OutPoint(OfTx(genesis.txs[0]), 0), [0x01, 0x01])], [TxOut(1_000, WATCHED_SCRIPT)])
  }

  function SpendTx(genesis: Block): Tx
    requires genesis.txs != []
  {
    Tx([TxIn(OutPoint(OfTx(ReceiveTx(genesis)), 0), [0x01, 0x01])], [TxOut(900, ANYONE)])
  }

  /** The transactions besides the coinbase. */
  function Payload(genesis: Block, height: nat): seq<Tx>
    requires genesis.txs != []
  {
    if height == 1 then [ReceiveTx(genesis)] else if height == 2 then [SpendTx(genesis)] else []
  }

  function PrevOutScripts(genesis: Block, height: nat): seq<Bytes>
    requires genesis.txs != [] && genesis.txs[0].outs != []
  {
    if height == 1 then [genesis.txs[0].outs[0].script] else if height == 2 then [WATCHED_SCRIPT] else []
  }

  /** The header commits to the block below and to the transactions, of which the first is the coinbase; blocks are ten
      minutes apart. */
  ghost predicate IsBlockAt(height: nat, prevHash: Digest, txs: seq<Tx>, block: Block) {
    && block.header.prevBlock == prevHash && block.header.merkleRoot == OfTxs(block.txs)
    && (height < 0x8000_0000 ==> block.header.time == 1_700_000_000 + height * 600)
    && |block.txs| == 1 + |txs| && block.txs[1..] == txs
    && block.txs[0].ins == [TxIn(OutPoint(Zero, MAX_UINT32), [(height % 256) as bv8, 0x51])]
    && block.txs[0].outs == [TxOut(50_0000_0000, ANYONE)]
  }

  /** The nonce is the first one below the largest whose block hash meets the target. */
  ghost predicate Mined(meets: Digest -> bool, height: nat, prevHash: Digest, txs: seq<Tx>, block: Block) {
    && block.header.nonce < MAX_UINT32
    && block == Candidate(height, prevHash, txs, block.header.nonce)
    && meets(block.Hash())
    && forall n :: 0 <= n < block.header.nonce ==> !meets(Candidate(height, prevHash, txs, n).Hash())
  }

  ghost predicate Unminable(meets: Digest -> bool, height: nat, prevHash: Digest, txs: seq<Tx>) {
    forall n :: 0 <= n < MAX_UINT32 ==> !meets(Candidate(height, prevHash, txs, n).Hash())
  }

  ghost predicate BuiltAt(meets: Digest -> bool, codec: Codec, genesis: Block, fx: seq<BlockFixture>, h: nat)
    requires genesis.txs != [] && genesis.txs[0].outs != [] && h < |fx|
  {
    && (if h == 0 then fx[h].block == genesis
        else Mined(meets, h, fx[h - 1].block.Hash(), Payload(genesis, h), fx[h].block))
    && fx[h].prevOutScripts == PrevOutScripts(genesis, h)
    && fx[h].filter.bytes == codec.build(fx[h].block, fx[h].prevOutScripts)
  }

  ghost predicate Built(meets: Digest -> bool, codec: Codec, genesis: Block, fx: seq<BlockFixture>) {
    && genesis.txs != [] && genesis.txs[0].outs != []
    && FixtureOk(fx)
    && forall h :: 0 <= h < |fx| ==> BuiltAt(meets, codec, genesis, fx, h)
  }

  /** The chain up to a height can be built, but no nonce gives the block at that height. */
  ghost predicate StuckAt(meets: Digest -> bool, codec: Codec, genesis: Block, h: nat)
    requires genesis.txs != []
  {
    exists fx: seq<BlockFixture> :: Built(meets, codec, genesis, fx) && |fx| == h &&
      Unminable(meets, h, fx[h - 1].block.Hash(), Payload(genesis, h))
  }

  /** The two wallet transactions, where the fixture has them. */
  function Expected(fx: seq<BlockFixture>): seq<TxMatch>
    requires |fx| > 2 && |fx[1].block.txs| > 1 && |fx[2].block.txs| > 1
  {
    [Entry(1, fx[1].block.Hash(), fx[1].block.txs[1]).OutputMatch(0),
     Entry(2, fx[2].block.Hash(), fx[2].block.txs[1]).SpendMatch(0)]
  }

  // ---------- building ----------

  method MineBlock(meets: Digest -> bool, height: nat, prevHash: Digest, txs: seq<Tx>)
    returns (r: Result<Block, FixtureError>)
    ensures r.Ok? ==> Mined(meets, height, prevHash, txs, r.value)
    ensures r.Err? ==> r.error == CannotMine(height) && Unminable(meets, height, prevHash, txs)
  {
    var block := Candidate(height, prevHash, txs, 0);
    for nonce := 0 to MAX_UINT32
      invariant block.(header := block.header.(nonce := 0)) == Candidate(height, prevHash, txs, 0)
      invariant forall n :: 0 <= n < nonce ==> !meets(Candidate(height, prevHash, txs, n).Hash())
    {
      block := block.(header := block.header.(nonce := nonce));
      if meets(block.Hash()) {
        return Ok(block);
      }
    }
    return Err(CannotMine(height));
  }

  function BuildFilterMaterial(codec: Codec, block: Block, prevOutScripts: seq<Bytes>, prevHeader: Digest)
    : FilterMaterial
  {
    var bytes := codec.build(block, prevOutScripts);
    FilterMaterial(bytes, OfFilter(bytes), OfFilterHeader(OfFilter(bytes), prevHeader))
  }

  lemma BuiltNext(meets: Digest -> bool, codec: Codec, genesis: Block, fx: seq<BlockFixture>, b: BlockFixture)
    requires fx != [] && Built(meets, codec, genesis, fx) && b.height == |fx|
    requires Mined(meets, |fx|, fx[|fx| - 1].block.Hash(), Payload(genesis, |fx|), b.block)
    requires b.prevOutScripts == PrevOutScripts(genesis, |fx|)
    requires b.filter == BuildFilterMaterial(codec, b.block, b.prevOutScripts, fx[|fx| - 1].filter.filterHeader)
    ensures Built(meets, codec, genesis, fx + [b])
  {
    forall h | 0 <= h < |fx + [b]|
      ensures BuiltAt(meets, codec, genesis, fx + [b], h) && BlockOk(fx + [b], h)
    {
      if h < |fx| {
        assert BuiltAt(meets, codec, genesis, fx, h) && BlockOk(fx, h);
      }
    }
  }

  lemma StuckHere(meets: Digest -> bool, codec: Codec, genesis: Block, fx: seq<BlockFixture>)
    requires genesis.txs != [] && Built(meets, codec, genesis, fx)
    requires Unminable(meets, |fx|, fx[|fx| - 1].block.Hash(), Payload(genesis, |fx|))
    ensures StuckAt(meets, codec, genesis, |fx|)
  {
  }

  lemma ExpectedStays(fixture: WalletFixture, b: BlockFixture)
    requires ExpectedOk(fixture)
    ensures ExpectedOk(fixture.(blocks := fixture.blocks + [b]))
  {
    assert Expected(fixture.blocks + [b]) == Expected(fixture.blocks);
  }

  method BuildWalletFixture(meets: Digest -> bool, codec: Codec, genesis: Block)
    returns (r: Result<WalletFixture, FixtureError>)
    requires genesis.txs != [] && genesis.txs[0].outs != []
    ensures r.Ok? ==>
      && |r.value.blocks| == 3 && Built(meets, codec, genesis, r.value.blocks)
      && r.value.watchedScript == WATCHED_SCRIPT
      && ExpectedOk(r.value)
    ensures r.Err? ==> r.error.CannotMine? && r.error.height <= 2 && StuckAt(meets, codec, genesis, r.error.height)
  {
    var blocks := [BlockFixture(0, genesis, [], BuildFilterMaterial(codec, genesis, [], Zero))];
    assert BuiltAt(meets, codec, genesis, blocks, 0) && BlockOk(blocks, 0);
    var prevHeader := blocks[0].filter.filterHeader;
    var prevHash := genesis.Hash();
    var prevCoinbase := OfTx(genesis.txs[0]);

    var receiveTx := Tx([TxIn(OutPoint(prevCoinbase, 0), [0x01, 0x01])], [TxOut(1_000, WATCHED_SCRIPT)]);
    var mined1 := MineBlock(meets, 1, prevHash, [receiveTx]);
    if mined1.Err? {
      StuckHere(meets, codec, genesis, blocks);
      return Err(mined1.error);
    }
    var block1 := mined1.value;
    var material1 := BuildFilterMaterial(codec, block1, [genesis.txs[0].outs[0].script], prevHeader);
    var fixture1 := BlockFixture(1, block1, [genesis.txs[0].outs[0].script], material1);
    BuiltNext(meets, codec, genesis, blocks, fixture1);
    blocks := blocks + [fixture1];

    prevHeader := material1.filterHeader;
    prevHash := block1.Hash();
    var spendTx := Tx([TxIn(OutPoint(OfTx(receiveTx), 0), [0x01, 0x01])], [TxOut(900, ANYONE)]);
    var mined2 := MineBlock(meets, 2, prevHash, [spendTx]);
    if mined2.Err? {
      StuckHere(meets, codec, genesis, blocks);
      return Err(mined2.error);
    }
    var block2 := mined2.value;
    var material2 := BuildFilterMaterial(codec, block2, [WATCHED_SCRIPT], prevHeader);
    var fixture2 := BlockFixture(2, block2, [WATCHED_SCRIPT], material2);
    BuiltNext(meets, codec, genesis, blocks, fixture2);
    blocks := blocks + [fixture2];

    return Ok(WalletFixture(blocks, WATCHED_SCRIPT, [
      MatchExpectation(WATCHED_SCRIPT, TxMatch(OfTx(receiveTx), block1.Hash(), 1, Output, 0, 0)),
      MatchExpectation(WATCHED_SCRIPT, TxMatch(OfTx(spendTx), block2.Hash(), 2, Spend, 0, 0))]));
  }

  ghost predicate ExpectedOk(fixture: WalletFixture) {
    && |fixture.blocks| > 2 && |fixture.blocks[1].block.txs| > 1 && |fixture.blocks[2].block.txs| > 1
    && fixture.matches == [MatchExpectation(WATCHED_SCRIPT, Expected(fixture.blocks)[0]),
                           MatchExpectation(WATCHED_SCRIPT, Expected(fixture.blocks)[1])]
  }

  /** Extends the wallet fixture to any height, with blocks that hold a coinbase only. */
  method BuildLongWalletFixture(meets: Digest -> bool, codec: Codec, genesis: Block, targetHeight: nat)
    returns (r: Result<WalletFixture, FixtureError>)
    requires genesis.txs != [] && genesis.txs[0].outs != [] && targetHeight < MAX_UINT32
    ensures r.Ok? ==>
      && |r.value.blocks| == targetHeight + 1 && Built(meets, codec, genesis, r.value.blocks)
      && r.value.watchedScript == WATCHED_SCRIPT
      && ExpectedOk(r.value)
    ensures targetHeight < 2 ==> r.Err?
    ensures r.Err? ==>
      match r.error
      case TargetBelowTip(target) => target == targetHeight < 2
      case CannotMine(height) => height <= Max(2, targetHeight) && StuckAt(meets, codec, genesis, height)
  {
    r := BuildWalletFixture(meets, codec, genesis);
    if r.Err? {
      return;
    }
    var fixture := r.value;
    assert BlockOk(fixture.blocks, 2);
    if targetHeight < fixture.blocks[|fixture.blocks| - 1].height {
      return Err(TargetBelowTip(targetHeight));
    }
    var prevHeader := fixture.blocks[|fixture.blocks| - 1].filter.filterHeader;
    var prevHash := fixture.blocks[|fixture.blocks| - 1].block.Hash();
    var height := fixture.blocks[|fixture.blocks| - 1].height + 1;
    while height <= targetHeight
      invariant 3 <= height == |fixture.blocks| <= targetHeight + 1
      invariant Built(meets, codec, genesis, fixture.blocks) && ExpectedOk(fixture)
      invariant fixture.watchedScript == WATCHED_SCRIPT
      invariant prevHeader == fixture.blocks[height - 1].filter.filterHeader
      invariant prevHash == fixture.blocks[height - 1].block.Hash()
    {
      var mined := MineBlock(meets, height, prevHash, []);
      if mined.Err? {
        StuckHere(meets, codec, genesis, fixture.blocks);
        return Err(mined.error);
      }
      var material := BuildFilterMaterial(codec, mined.value, [], prevHeader);
      var next := BlockFixture(height, mined.value, [], material);
      BuiltNext(meets, codec, genesis, fixture.blocks, next);
      ExpectedStays(fixture, next);
      fixture := fixture.(blocks := fixture.blocks + [next]);
      prevHeader := material.filterHeader;
      prevHash := mined.value.Hash();
      height := height + 1;
    }
    return Ok(fixture);
  }

  /** Every block above the genesis block of a fixture is of this form, ten minutes after the one below. */
  lemma FixtureBlocks(meets: Digest -> bool, codec: Codec, genesis: Block, fx: seq<BlockFixture>, h: nat)
    requires Built(meets, codec, genesis, fx) && 0 < h < |fx|
    ensures IsBlockAt(h, fx[h - 1].block.Hash(), Payload(genesis, h), fx[h].block)
    ensures 1 < h < 0x8000_0000 ==> fx[h].block.header.time == fx[h - 1].block.header.time + 600
  {
    BuiltForm(meets, codec, genesis, fx, h);
    if h > 1 {
      BuiltForm(meets, codec, genesis, fx, h - 1);
    }
  }

  lemma BuiltForm(meets: Digest -> bool, codec: Codec, genesis: Block, fx: seq<BlockFixture>, h: nat)
    requires Built(meets, codec, genesis, fx) && 0 < h < |fx|
    ensures IsBlockAt(h, fx[h - 1].block.Hash(), Payload(genesis, h), fx[h].block)
  {
    assert BuiltAt(meets, codec, genesis, fx, h);
    CandidateForm(h, fx[h - 1].block.Hash(), Payload(genesis, h), fx[h].block.header.nonce);
  }

  lemma CandidateForm(height: nat, prevHash: Digest, txs: seq<Tx>, nonce: nat)
    ensures IsBlockAt(height, prevHash, txs, Candidate(height, prevHash, txs, nonce))
  {
  }

  // ---------- fixtures are deterministic ----------

  lemma MinedOnce(meets: Digest -> bool, height: nat, prevHash: Digest, txs: seq<Tx>, a: Block, b: Block)
    requires Mined(meets, height, prevHash, txs, a) && Mined(meets, height, prevHash, txs, b)
    ensures a == b
  {
    var m, n := a.header.nonce, b.header.nonce;
    assert Candidate(height, prevHash, txs, m) == a && Candidate(height, prevHash, txs, n) == b;
    assert m == n;
  }

  /** A fixture of one length is the beginning of every longer one. */
  lemma {:induction false} FixturesAgree(meets: Digest -> bool, codec: Codec, genesis: Block,
                                         fx: seq<BlockFixture>, gx: seq<BlockFixture>, h: nat)
    requires Built(meets, codec, genesis, fx) && Built(meets, codec, genesis, gx)
    requires h < |fx| && h < |gx|
    ensures fx[h] == gx[h]
  {
    assert BuiltAt(meets, codec, genesis, fx, h) && BuiltAt(meets, codec, genesis, gx, h);
    assert BlockOk(fx, h) && BlockOk(gx, h);
    if h > 0 {
      FixturesAgree(meets, codec, genesis, fx, gx, h - 1);
      MinedOnce(meets, h, fx[h - 1].block.Hash(), Payload(genesis, h), fx[h].block, gx[h].block);
    }
  }

  /** Where one height cannot be mined, no fixture reaches it: building fails for one of the two reasons only. */
  lemma StuckForGood(meets: Digest -> bool, codec: Codec, genesis: Block, h: nat, gx: seq<BlockFixture>)
    requires genesis.txs != [] && StuckAt(meets, codec, genesis, h) && Built(meets, codec, genesis, gx)
    ensures |gx| <= h
  {
    var fx: seq<BlockFixture> :| Built(meets, codec, genesis, fx) && |fx| == h &&
      Unminable(meets, h, fx[h - 1].block.Hash(), Payload(genesis, h));
    if |gx| > h {
      assert Mined(meets, h, gx[h - 1].block.Hash(), Payload(genesis, h), gx[h].block) by {
        assert BuiltAt(meets, codec, genesis, gx, h);
      }
      FixturesAgree(meets, codec, genesis, fx, gx, h - 1);
      assert false;
    }
  }

  // ---------- the fixture as a chain to scan ----------

  /** The genesis block of a test network: one coinbase, which does not pay the watched script. */
  ghost predicate IsGenesis(genesis: Block) {
    && |genesis.txs| == 1 && |genesis.txs[0].ins| == 1 && |genesis.txs[0].outs| == 1
    && genesis.txs[0].ins[0].prevOut.txid == Zero
    && genesis.txs[0].outs[0].script != WATCHED_SCRIPT
  }

  function ChainOf(fx: seq<BlockFixture>): ScanChain {
    ScanChain(seq(|fx|, i requires 0 <= i < |fx| => fx[i].block),
              seq(|fx|, i requires 0 <= i < |fx| => fx[i].prevOutScripts))
  }

  lemma TxsOf(meets: Digest -> bool, codec: Codec, genesis: Block, fx: seq<BlockFixture>, h: nat)
    requires IsGenesis(genesis) && Built(meets, codec, genesis, fx) && h < |fx|
    ensures fx[h].block.txs == if h == 0 then genesis.txs else [Coinbase(h)] + Payload(genesis, h)
    ensures fx[h].prevOutScripts == PrevOutScripts(genesis, h)
  {
    assert BuiltAt(meets, codec, genesis, fx, h);
  }

  /** The fixture lists exactly the scripts that filters must contain besides the outputs: those being spent. */
  lemma FixtureChainOk(meets: Digest -> bool, codec: Codec, genesis: Block, fx: seq<BlockFixture>)
    requires IsGenesis(genesis) && Built(meets, codec, genesis, fx)
    ensures ChainOf(fx).Ok()
  {
    forall h | 0 <= h < |fx|
      ensures SpentOk(fx[h].block, fx[h].prevOutScripts)
    {
      TxsOf(meets, codec, genesis, fx, h);
    }
  }

  /** All blocks but the two with the wallet transactions leave the watched script alone. */
  lemma QuietBlock(meets: Digest -> bool, codec: Codec, genesis: Block, fx: seq<BlockFixture>, h: nat)
    requires IsGenesis(genesis) && Built(meets, codec, genesis, fx) && h < |fx| && h != 1 && h != 2
    ensures !Touches(fx[h].block, WATCHED_SCRIPT)
  {
    TxsOf(meets, codec, genesis, fx, h);
    assert ANYONE[0] != WATCHED_SCRIPT[0];
  }

  lemma ReceiveRecorded(genesis: Block, block: Block)
    requires IsGenesis(genesis) && block.txs == [Coinbase(1), ReceiveTx(genesis)]
    ensures var e := Entry(1, block.Hash(), block.txs[1]);
      Record(EMPTY_LOG, WATCHED_SCRIPT, Entries(1, block.Hash(), block)) ==
        Log({OutPoint(e.TxId(), 0)}, [e.OutputMatch(0)])
  {
    var c, e := Entry(1, block.Hash(), block.txs[0]), Entry(1, block.Hash(), block.txs[1]);
    assert Entries(1, block.Hash(), block) == [c, e];
    assert ANYONE[0] != WATCHED_SCRIPT[0];
    TwoRecorded(EMPTY_LOG, c, e);
    OneEach(EMPTY_LOG, c);
    OneEach(EMPTY_LOG, e);
  }

  lemma SpendRecorded(genesis: Block, block: Block, log: Log<TxMatch>)
    requires IsGenesis(genesis) && block.txs == [Coinbase(2), SpendTx(genesis)]
    requires log.outpoints == {OutPoint(OfTx(ReceiveTx(genesis)), 0)}
    requires forall m :: m in log.matches ==> m.height < 2
    ensures var e := Entry(2, block.Hash(), block.txs[1]);
      Record(log, WATCHED_SCRIPT, Entries(2, block.Hash(), block)) ==
        Log(log.outpoints, log.matches + [e.SpendMatch(0)])
  {
    var c, e := Entry(2, block.Hash(), block.txs[0]), Entry(2, block.Hash(), block.txs[1]);
    assert Entries(2, block.Hash(), block) == [c, e];
    assert ANYONE[0] != WATCHED_SCRIPT[0];
    TwoRecorded(log, c, e);
    OneEach(log, c);
    OneEach(log, e);
    assert e.SpendMatch(0) !in log.matches;
  }

  lemma TwoRecorded(log: Log<TxMatch>, c: Entry, e: Entry)
    ensures Record(log, WATCHED_SCRIPT, [c, e]) ==
      RecordTx(RecordTx(log, Plain, WATCHED_SCRIPT, c), Plain, WATCHED_SCRIPT, e)
  {
    assert [c, e][..1] == [c] && [c][..0] == [];
    assert Record(log, WATCHED_SCRIPT, [c]) == RecordTx(Record(log, WATCHED_SCRIPT, []), Plain, WATCHED_SCRIPT, c);
  }

  /** A transaction with one output and one input. */
  lemma OneEach(log: Log<TxMatch>, e: Entry)
    requires |e.tx.outs| == 1 && |e.tx.ins| == 1
    ensures var outs := if e.tx.outs[0].script != WATCHED_SCRIPT then log
                        else Log(log.outpoints + {OutPoint(e.TxId(), 0)}, Added(log.matches, e.OutputMatch(0)));
      RecordTx(log, Plain, WATCHED_SCRIPT, e) ==
        if e.tx.ins[0].prevOut !in outs.outpoints then outs else outs.(matches := Added(outs.matches, e.SpendMatch(0)))
  {
    var outs := RecordOuts(log, Plain, WATCHED_SCRIPT, e, 1);
    assert RecordOuts(log, Plain, WATCHED_SCRIPT, e, 0) == log;
    assert RecordIns(outs, Plain, e, 0) == outs;
    assert Plain(e.OutputMatch(0)) == e.OutputMatch(0);
  }

  /** What a scan has found when it reaches a height. */
  function FoundBy(fx: seq<BlockFixture>, end: nat): Log<TxMatch>
    requires |fx| > 2 && |fx[1].block.txs| > 1 && |fx[2].block.txs| > 1
  {
    if end <= 1 then EMPTY_LOG
    else Log({OutPoint(OfTx(fx[1].block.txs[1]), 0)}, if end == 2 then [Expected(fx)[0]] else Expected(fx))
  }

  /** For every length of the fixture, recording its blocks from height 0 or 1 on gives exactly the expected matches,
      in order, as soon as both wallet transactions are covered. */
  lemma {:induction false} FixtureScan(meets: Digest -> bool, codec: Codec, genesis: Block, fx: seq<BlockFixture>,
                                       from: nat, end: nat)
    requires IsGenesis(genesis) && Built(meets, codec, genesis, fx) && |fx| > 2
    requires from <= 1 && from <= end <= |fx|
    ensures |fx[1].block.txs| > 1 && |fx[2].block.txs| > 1
    ensures FullScan(EMPTY_LOG, ChainOf(fx), WATCHED_SCRIPT, from, end) == FoundBy(fx, end)
    decreases end
  {
    TxsOf(meets, codec, genesis, fx, 1);
    TxsOf(meets, codec, genesis, fx, 2);
    if end > from {
      FixtureScan(meets, codec, genesis, fx, from, end - 1);
      BlockScanned(meets, codec, genesis, fx, end - 1);
    }
  }

  lemma BlockScanned(meets: Digest -> bool, codec: Codec, genesis: Block, fx: seq<BlockFixture>, h: nat)
    requires IsGenesis(genesis) && Built(meets, codec, genesis, fx) && |fx| > 2 && h < |fx|
    requires |fx[1].block.txs| > 1 && |fx[2].block.txs| > 1
    ensures Record(FoundBy(fx, h), WATCHED_SCRIPT, BlockEntries(ChainOf(fx), h)) == FoundBy(fx, h + 1)
  {
    TxsOf(meets, codec, genesis, fx, 1);
    TxsOf(meets, codec, genesis, fx, 2);
    if h == 1 {
      ReceiveRecorded(genesis, fx[1].block);
    } else if h == 2 {
      SpendRecorded(genesis, fx[2].block, FoundBy(fx, 2));
    } else {
      QuietBlock(meets, codec, genesis, fx, h);
      UntouchedAddsNothing(WATCHED_SCRIPT, FoundBy(fx, h), h, fx[h].block);
    }
  }
}
