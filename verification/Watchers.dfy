/** Recording for many scripts at once: Nakamoto tags every match with its script, Kyoto and Neutrino do not. */
module Watchers {
  import opened Digests
  import opened Recorder
  import opened Adapter

  datatype Tagged = Tagged(scriptHex: string, found: TxMatch)

  /** One transaction looked at for one script. */
  datatype Visit = Visit(scriptHex: string, entry: Entry)

  /** What a recorder keeps: the outpoints of each script, and one list of matches for all of them. */
  datatype Book<K> = Book(outpoints: map<string, set<OutPoint>>, matches: seq<K>) {
    function OutpointsOf(hex: string): set<OutPoint> {
      if hex in outpoints then outpoints[hex] else {}
    }

    function LogOf(hex: string): Log<K> {
      Log(OutpointsOf(hex), matches)
    }

    function WithLog(hex: string, log: Log<K>): Book<K> {
      Book(outpoints[hex := log.outpoints], log.matches)
    }
  }

  /** How a recorder reads scripts and writes matches down. */
  datatype Style<!K> = Style(parse: string -> Option<Bytes>, form: (string, TxMatch) -> K) {
    function FormOf(hex: string): TxMatch -> K {
      m => form(hex, m)
    }
  }

  function Tag(hex: string, m: TxMatch): Tagged {
    Tagged(hex, m)
  }

  function Untagged(hex: string, m: TxMatch): TxMatch {
    m
  }

  function Nakamoto(parse: string -> Option<Bytes>): Style<Tagged> {
    Style(parse, Tag)
  }

  function Kyoto(parse: string -> Option<Bytes>): Style<TxMatch> {
    Style(parse, Untagged)
  }

  function RecordVisit<K(==)>(book: Book<K>, style: Style<K>, v: Visit): Book<K> {
    match style.parse(v.scriptHex)
    case None => book
    case Some(script) =>
      book.WithLog(v.scriptHex, RecordTx(book.LogOf(v.scriptHex), style.FormOf(v.scriptHex), script, v.entry))
  }

  function RecordVisits<K(==)>(book: Book<K>, style: Style<K>, visits: seq<Visit>): Book<K>
    decreases |visits|
  {
    if visits == [] then book
    else RecordVisit(RecordVisits(book, style, visits[..|visits| - 1]), style, visits[|visits| - 1])
  }

  function Row(order: seq<string>, e: Entry): seq<Visit> {
    seq(|order|, i requires 0 <= i < |order| => Visit(order[i], e))
  }

  /** The visits of one block: transaction by transaction, script by script. */
  function BlockVisits(order: seq<string>, es: seq<Entry>): seq<Visit>
    decreases |es|
  {
    if es == [] then [] else BlockVisits(order, es[..|es| - 1]) + Row(order, es[|es| - 1])
  }

  // ---------- the recorder ----------

  class MultiRecorder<K(==)> {
    const style: Style<K>
    var watches: set<string>
    var outpoints: map<string, set<OutPoint>>
    var seen: set<K>
    var matches: seq<K>

    ghost predicate Valid()
      reads this
    {
      seen == (set k | k in matches) && Distinct(matches)
    }

    ghost function Model(): Book<K>
      reads this
    {
      Book(outpoints, matches)
    }

    constructor (style: Style<K>)
      ensures Valid() && Model() == Book(map[], []) && this.style == style && watches == {}
    {
      this.style := style;
      watches, outpoints, seen, matches := {}, map[], {}, [];
    }

    /** `order` is the order in which the hash map happens to list the watched scripts. */
    method RecordBlock(order: seq<string>, height: nat, blockHash: Digest, block: Block)
      requires Valid() && Distinct(order) && (set hex | hex in order) == watches
      modifies this
      ensures Valid() && watches == old(watches)
      ensures Model() == RecordVisits(old(Model()), style, BlockVisits(order, Entries(height, blockHash, block)))
    {
      var es := Entries(height, blockHash, block);
      ghost var before := Model();
      for t := 0 to |block.txs|
        invariant Valid() && watches == old(watches)
        invariant Model() == RecordVisits(before, style, BlockVisits(order, es[..t]))
      {
        ghost var start := BlockVisits(order, es[..t]);
        assert es[..t + 1][..t] == es[..t];
        assert start + Row(order, es[t])[..0] == start;
        for i := 0 to |order|
          invariant Valid() && watches == old(watches)
          invariant Model() == RecordVisits(before, style, start + Row(order, es[t])[..i])
        {
          VisitsNext(before, style, start, Row(order, es[t]), i);
          var script := style.parse(order[i]);
          if script.Some? {
            RecordTransaction(order[i], script.value, es[t]);
          }
        }
        assert Row(order, es[t])[..|order|] == Row(order, es[t]);
      }
      assert es[..|es|] == es;
    }

    method RecordTransaction(hex: string, script: Bytes, e: Entry)
      requires Valid()
      modifies this
      ensures Valid() && watches == old(watches)
      ensures Model() == old(Model()).WithLog(hex, RecordTx(old(Model()).LogOf(hex), style.FormOf(hex), script, e))
    {
      if hex !in outpoints {
        outpoints := outpoints[hex := {}];
      }
      RecordOutputs(hex, script, e);
      RecordInputs(hex, e);
    }

    method RecordOutputs(hex: string, script: Bytes, e: Entry)
      requires Valid() && hex in outpoints
      modifies this`outpoints, this`seen, this`matches
      ensures Valid() && hex in outpoints
      ensures Model() == old(Model()).WithLog(
        hex, RecordOuts(old(Model()).LogOf(hex), style.FormOf(hex), script, e, |e.tx.outs|))
    {
      ghost var before, log := Model(), Model().LogOf(hex);
      for vout := 0 to |e.tx.outs|
        invariant Valid() && hex in outpoints
        invariant Model() == before.WithLog(hex, RecordOuts(log, style.FormOf(hex), script, e, vout))
      {
        if e.tx.outs[vout].script != script {
          continue;
        }
        outpoints := outpoints[hex := outpoints[hex] + {OutPoint(e.TxId(), vout)}];
        AddMatch(style.form(hex, e.OutputMatch(vout)));
      }
    }

    method RecordInputs(hex: string, e: Entry)
      requires Valid() && hex in outpoints
      modifies this`outpoints, this`seen, this`matches
      ensures Valid() && hex in outpoints
      ensures Model() == old(Model()).WithLog(
        hex, RecordIns(old(Model()).LogOf(hex), style.FormOf(hex), e, |e.tx.ins|))
    {
      ghost var before, log := Model(), Model().LogOf(hex);
      for vin := 0 to |e.tx.ins|
        invariant Valid() && hex in outpoints
        invariant Model() == before.WithLog(hex, RecordIns(log, style.FormOf(hex), e, vin))
      {
        if e.tx.ins[vin].prevOut !in outpoints[hex] {
          continue;
        }
        AddMatch(style.form(hex, e.SpendMatch(vin)));
      }
    }

    method AddMatch(k: K)
      requires Valid()
      modifies this`seen, this`matches
      ensures Valid() && matches == Added(old(matches), k)
    {
      if k !in seen {
        seen := seen + {k};
        matches := matches + [k];
      }
    }
  }

  lemma VisitsNext<K>(book: Book<K>, style: Style<K>, start: seq<Visit>, row: seq<Visit>, i: nat)
    requires i < |row|
    ensures RecordVisits(book, style, start + row[..i + 1]) ==
      RecordVisit(RecordVisits(book, style, start + row[..i]), style, row[i])
  {
    var now := start + row[..i + 1];
    assert now[..|now| - 1] == start + row[..i];
  }

  // ---------- one script at a time ----------

  /** The transactions that were looked at for one script. */
  function EntriesOf(visits: seq<Visit>, hex: string): seq<Entry>
    decreases |visits|
  {
    if visits == [] then []
    else
      var v := visits[|visits| - 1];
      EntriesOf(visits[..|visits| - 1], hex) + (if v.scriptHex == hex then [v.entry] else [])
  }

  /** What the recorder for a single script makes of them. */
  function Single(visits: seq<Visit>, hex: string, script: Bytes): Log<TxMatch> {
    Record(EMPTY_LOG, script, EntriesOf(visits, hex))
  }

  /** The matches with one tag. */
  function Of(matches: seq<Tagged>, hex: string): seq<TxMatch>
    decreases |matches|
  {
    if matches == [] then []
    else
      var k := matches[|matches| - 1];
      Of(matches[..|matches| - 1], hex) + (if k.scriptHex == hex then [k.found] else [])
  }

  lemma {:induction false} InOf(matches: seq<Tagged>, hex: string, m: TxMatch)
    ensures m in Of(matches, hex) <==> Tagged(hex, m) in matches
    decreases |matches|
  {
    if matches != [] {
      InOf(matches[..|matches| - 1], hex, m);
      assert matches == matches[..|matches| - 1] + [matches[|matches| - 1]];
    }
  }

  /** Adding a match to the tagged list adds it to its own script's list, and to no other. */
  lemma AddedOf(matches: seq<Tagged>, hex: string, m: TxMatch, other: string)
    ensures Of(Added(matches, Tagged(hex, m)), other) ==
      if other == hex then Added(Of(matches, hex), m) else Of(matches, other)
  {
    InOf(matches, hex, m);
    var k := Tagged(hex, m);
    assert (matches + [k])[..|matches + [k]| - 1] == matches;
  }

  function OfLog(log: Log<Tagged>, hex: string): Log<TxMatch> {
    Log(log.outpoints, Of(log.matches, hex))
  }

  ghost predicate Tags(form: TxMatch -> Tagged, hex: string) {
    forall m :: form(m) == Tagged(hex, m)
  }

  lemma {:induction false} OutsOf(log: Log<Tagged>, form: TxMatch -> Tagged, hex: string, script: Bytes, e: Entry,
                                  n: nat, other: string)
    requires Tags(form, hex) && n <= |e.tx.outs|
    ensures OfLog(RecordOuts(log, form, script, e, n), other) ==
      if other == hex then RecordOuts(OfLog(log, hex), Plain, script, e, n)
      else Log(RecordOuts(log, form, script, e, n).outpoints, Of(log.matches, other))
  {
    if n > 0 {
      OutsOf(log, form, hex, script, e, n - 1, other);
      AddedOf(RecordOuts(log, form, script, e, n - 1).matches, hex, e.OutputMatch(n - 1), other);
    }
  }

  lemma {:induction false} InsOf(log: Log<Tagged>, form: TxMatch -> Tagged, hex: string, e: Entry, n: nat,
                                 other: string)
    requires Tags(form, hex) && n <= |e.tx.ins|
    ensures OfLog(RecordIns(log, form, e, n), other) ==
      if other == hex then RecordIns(OfLog(log, hex), Plain, e, n)
      else Log(RecordIns(log, form, e, n).outpoints, Of(log.matches, other))
  {
    if n > 0 {
      InsOf(log, form, hex, e, n - 1, other);
      AddedOf(RecordIns(log, form, e, n - 1).matches, hex, e.SpendMatch(n - 1), other);
    }
  }

  lemma TxOf(log: Log<Tagged>, form: TxMatch -> Tagged, hex: string, script: Bytes, e: Entry, other: string)
    requires Tags(form, hex)
    ensures OfLog(RecordTx(log, form, script, e), other) ==
      if other == hex then RecordTx(OfLog(log, hex), Plain, script, e)
      else Log(RecordTx(log, form, script, e).outpoints, Of(log.matches, other))
  {
    OutsOf(log, form, hex, script, e, |e.tx.outs|, other);
    InsOf(RecordOuts(log, form, script, e, |e.tx.outs|), form, hex, e, |e.tx.ins|, other);
  }

  lemma SingleNext(visits: seq<Visit>, v: Visit, hex: string, script: Bytes)
    ensures Single(visits + [v], hex, script) ==
      if v.scriptHex == hex then RecordTx(Single(visits, hex, script), Plain, script, v.entry)
      else Single(visits, hex, script)
  {
    assert (visits + [v])[..|visits + [v]| - 1] == visits;
    if v.scriptHex == hex {
      var es := EntriesOf(visits, hex);
      assert EntriesOf(visits + [v], hex) == es + [v.entry];
      assert (es + [v.entry])[..|es + [v.entry]| - 1] == es;
    } else {
      assert EntriesOf(visits + [v], hex) == EntriesOf(visits, hex);
    }
  }

  /** Scripts do not interfere: however the visits for different scripts are interleaved, the matches tagged with a
      script are, in order, those of the recorder that looks for this script alone. */
  lemma {:induction false} NonInterference(parse: string -> Option<Bytes>, visits: seq<Visit>, hex: string)
    ensures var book := RecordVisits(Book(map[], []), Nakamoto(parse), visits);
      match parse(hex)
      case None => Of(book.matches, hex) == [] && book.OutpointsOf(hex) == {}
      case Some(script) => Log(book.OutpointsOf(hex), Of(book.matches, hex)) == Single(visits, hex, script)
    decreases |visits|
  {
    if visits != [] {
      var earlier, v := visits[..|visits| - 1], visits[|visits| - 1];
      NonInterference(parse, earlier, hex);
      assert visits == earlier + [v];
      var before := RecordVisits(Book(map[], []), Nakamoto(parse), earlier);
      if parse(v.scriptHex).Some? {
        TxOf(before.LogOf(v.scriptHex), Nakamoto(parse).FormOf(v.scriptHex), v.scriptHex, parse(v.scriptHex).value,
             v.entry, hex);
      }
      if parse(hex).Some? {
        SingleNext(earlier, v, hex, parse(hex).value);
      }
    }
  }

  // ---------- untagged matches ----------

  /** Some script's own recorder has this match. */
  ghost predicate SomeSingle(parse: string -> Option<Bytes>, visits: seq<Visit>, m: TxMatch) {
    exists hex :: SingleHas(parse, visits, hex, m)
  }

  ghost predicate SingleHas(parse: string -> Option<Bytes>, visits: seq<Visit>, hex: string, m: TxMatch) {
    parse(hex).Some? && m in Single(visits, hex, parse(hex).value).matches
  }

  /** What one visit adds: the same to the shared list as to the script's own. */
  ghost predicate VisitFinds(script: Bytes, known: set<OutPoint>, e: Entry, m: TxMatch) {
    IsOutput(script, e, m) || IsSpend(known, script, e, m)
  }

  ghost predicate Keeps(form: TxMatch -> TxMatch) {
    forall m :: form(m) == m
  }

  lemma UntaggedTxFound(log: Log<TxMatch>, form: TxMatch -> TxMatch, script: Bytes, e: Entry)
    requires Keeps(form)
    ensures forall m :: m in RecordTx(log, form, script, e).matches <==>
      m in log.matches || VisitFinds(script, log.outpoints, e, m)
  {
    TxFound(log, form, script, e);
    forall m
      ensures m in RecordTx(log, form, script, e).matches <==>
        m in log.matches || VisitFinds(script, log.outpoints, e, m)
    {
      assert form(m) == m;
    }
  }

  lemma SomeSingleNext(parse: string -> Option<Bytes>, visits: seq<Visit>, v: Visit, m: TxMatch)
    ensures SomeSingle(parse, visits + [v], m) <==>
      || SomeSingle(parse, visits, m)
      || (parse(v.scriptHex).Some? &&
          VisitFinds(parse(v.scriptHex).value, Single(visits, v.scriptHex, parse(v.scriptHex).value).outpoints,
                     v.entry, m))
  {
    forall hex | parse(hex).Some?
      ensures SingleHas(parse, visits + [v], hex, m) <==>
        || SingleHas(parse, visits, hex, m)
        || (v.scriptHex == hex &&
            VisitFinds(parse(hex).value, Single(visits, hex, parse(hex).value).outpoints, v.entry, m))
    {
      SingleNext(visits, v, hex, parse(hex).value);
      PlainTxFound(Single(visits, hex, parse(hex).value), parse(hex).value, v.entry);
    }
    if SomeSingle(parse, visits + [v], m) {
      var hex :| SingleHas(parse, visits + [v], hex, m);
      assert SingleHas(parse, visits, hex, m) || v.scriptHex == hex;
    }
    if SomeSingle(parse, visits, m) {
      var hex :| SingleHas(parse, visits, hex, m);
      assert SingleHas(parse, visits + [v], hex, m);
    }
    if parse(v.scriptHex).Some? && !SingleHas(parse, visits + [v], v.scriptHex, m) {
      assert !VisitFinds(parse(v.scriptHex).value, Single(visits, v.scriptHex, parse(v.scriptHex).value).outpoints,
                         v.entry, m);
    }
  }

  /** Outpoints do not mix, with any style of writing matches. */
  lemma {:induction false} OutpointsApart<K>(style: Style<K>, visits: seq<Visit>, hex: string)
    ensures RecordVisits(Book(map[], []), style, visits).OutpointsOf(hex) ==
      match style.parse(hex)
      case None => {}
      case Some(script) => Single(visits, hex, script).outpoints
    decreases |visits|
  {
    if visits != [] {
      var earlier, v := visits[..|visits| - 1], visits[|visits| - 1];
      OutpointsApart(style, earlier, hex);
      assert visits == earlier + [v];
      var before := RecordVisits(Book(map[], []), style, earlier);
      if style.parse(hex).Some? {
        var script := style.parse(hex).value;
        SingleNext(earlier, v, hex, script);
        if v.scriptHex == hex {
          TxFound(before.LogOf(hex), style.FormOf(hex), script, v.entry);
          PlainTxFound(Single(earlier, hex, script), script, v.entry);
        }
      }
    }
  }

  /** Without tags, the shared list is the union of what the recorders for the single scripts find. */
  lemma {:induction false} SharedIsUnion(parse: string -> Option<Bytes>, visits: seq<Visit>)
    ensures forall m :: m in RecordVisits(Book(map[], []), Kyoto(parse), visits).matches <==>
      SomeSingle(parse, visits, m)
    decreases |visits|
  {
    if visits == [] {
      assert forall m, hex :: !SingleHas(parse, visits, hex, m);
    } else {
      var earlier, v := visits[..|visits| - 1], visits[|visits| - 1];
      SharedIsUnion(parse, earlier);
      assert visits == earlier + [v];
      var before := RecordVisits(Book(map[], []), Kyoto(parse), earlier);
      OutpointsApart(Kyoto(parse), earlier, v.scriptHex);
      if parse(v.scriptHex).Some? {
        UntaggedTxFound(before.LogOf(v.scriptHex), Kyoto(parse).FormOf(v.scriptHex), parse(v.scriptHex).value, v.entry);
      }
      forall m
        ensures m in RecordVisits(Book(map[], []), Kyoto(parse), visits).matches <==> SomeSingle(parse, visits, m)
      {
        SomeSingleNext(parse, earlier, v, m);
      }
    }
  }

  // ---------- whole chains ----------

  /** A block as it was recorded: the order the scripts came in, and its transactions. */
  datatype Recorded = Recorded(order: seq<string>, entries: seq<Entry>)

  function ChainVisits(blocks: seq<Recorded>): seq<Visit>
    decreases |blocks|
  {
    if blocks == [] then []
    else
      var b := blocks[|blocks| - 1];
      ChainVisits(blocks[..|blocks| - 1]) + BlockVisits(b.order, b.entries)
  }

  function ChainEntries(blocks: seq<Recorded>): seq<Entry>
    decreases |blocks|
  {
    if blocks == [] then [] else ChainEntries(blocks[..|blocks| - 1]) + blocks[|blocks| - 1].entries
  }

  /** Every block was recorded for the same scripts, each once, in any order. */
  ghost predicate OrdersOk(blocks: seq<Recorded>, watches: set<string>) {
    forall b :: b in blocks ==> Distinct(b.order) && (forall hex :: hex in b.order <==> hex in watches)
  }

  lemma {:induction false} EntriesOfConcat(a: seq<Visit>, b: seq<Visit>, hex: string)
    ensures EntriesOf(a + b, hex) == EntriesOf(a, hex) + EntriesOf(b, hex)
    decreases |b|
  {
    if b == [] {
      assert a + b == a;
    } else {
      assert (a + b)[..|a + b| - 1] == a + b[..|b| - 1];
      EntriesOfConcat(a, b[..|b| - 1], hex);
    }
  }

  lemma {:induction false} EntriesOfRow(order: seq<string>, e: Entry, hex: string, n: nat)
    requires Distinct(order) && n <= |order|
    ensures EntriesOf(Row(order, e)[..n], hex) == if hex in order[..n] then [e] else []
  {
    if n > 0 {
      EntriesOfRow(order, e, hex, n - 1);
      var visits := Row(order, e)[..n];
      assert visits[..|visits| - 1] == Row(order, e)[..n - 1] && visits[|visits| - 1] == Visit(order[n - 1], e);
      assert order[..n] == order[..n - 1] + [order[n - 1]];
      assert order[n - 1] !in order[..n - 1];
    }
  }

  lemma EntriesOfWholeRow(order: seq<string>, e: Entry, hex: string)
    requires Distinct(order)
    ensures EntriesOf(Row(order, e), hex) == if hex in order then [e] else []
  {
    EntriesOfRow(order, e, hex, |order|);
    assert Row(order, e)[..|order|] == Row(order, e) && order[..|order|] == order;
  }

  lemma {:induction false} EntriesOfBlock(order: seq<string>, es: seq<Entry>, hex: string)
    requires Distinct(order)
    ensures EntriesOf(BlockVisits(order, es), hex) == if hex in order then es else []
    decreases |es|
  {
    if es != [] {
      var n := |es| - 1;
      EntriesOfBlock(order, es[..n], hex);
      EntriesOfConcat(BlockVisits(order, es[..n]), Row(order, es[n]), hex);
      EntriesOfWholeRow(order, es[n], hex);
      if hex in order {
        assert es == es[..n] + [es[n]];
      }
    }
  }

  lemma {:induction false} EntriesOfChain(blocks: seq<Recorded>, watches: set<string>, hex: string)
    requires OrdersOk(blocks, watches)
    ensures EntriesOf(ChainVisits(blocks), hex) == if hex in watches then ChainEntries(blocks) else []
    decreases |blocks|
  {
    if blocks != [] {
      var n := |blocks| - 1;
      EntriesOfChain(blocks[..n], watches, hex);
      EntriesOfConcat(ChainVisits(blocks[..n]), BlockVisits(blocks[n].order, blocks[n].entries), hex);
      assert blocks[n] in blocks;
      EntriesOfBlock(blocks[n].order, blocks[n].entries, hex);
    }
  }

  /** The Nakamoto recorder with a fixed watch set: what it answers for a watched script, in any height range, is
      what the recorder for that script alone finds there, in the same order, whatever order the hash map lists the
      scripts in for each block. */
  lemma NakamotoAnswers(parse: string -> Option<Bytes>, blocks: seq<Recorded>, watches: set<string>, hex: string,
                        start: nat, stop: nat)
    requires OrdersOk(blocks, watches) && hex in watches && parse(hex).Some?
    ensures NakamotoMatches(RecordVisits(Book(map[], []), Nakamoto(parse), ChainVisits(blocks)).matches,
                            hex, start, stop)
      == InHeights(Record(EMPTY_LOG, parse(hex).value, ChainEntries(blocks)).matches, start, stop)
  {
    NonInterference(parse, ChainVisits(blocks), hex);
    EntriesOfChain(blocks, watches, hex);
    NakamotoFilters(RecordVisits(Book(map[], []), Nakamoto(parse), ChainVisits(blocks)).matches, hex, start, stop);
  }

  /** The query: one pass over the list, by script and height. */
  function NakamotoMatches(matches: seq<Tagged>, hex: string, start: nat, stop: nat): seq<TxMatch> {
    if matches == [] then []
    else
      var rest := NakamotoMatches(matches[1..], hex, start, stop);
      var k := matches[0];
      if k.scriptHex == hex && start <= k.found.height <= stop then [k.found] + rest else rest
  }

  lemma {:induction false} OfFirst(matches: seq<Tagged>, hex: string)
    requires matches != []
    ensures Of(matches, hex) ==
      (if matches[0].scriptHex == hex then [matches[0].found] else []) + Of(matches[1..], hex)
    decreases |matches|
  {
    var n := |matches| - 1;
    if n > 0 {
      OfFirst(matches[..n], hex);
      assert matches[..n][1..] == matches[1..][..n - 1];
    }
  }

  lemma {:induction false} NakamotoFilters(matches: seq<Tagged>, hex: string, start: nat, stop: nat)
    ensures NakamotoMatches(matches, hex, start, stop) == InHeights(Of(matches, hex), start, stop)
  {
    if matches != [] {
      OfFirst(matches, hex);
      NakamotoFilters(matches[1..], hex, start, stop);
      if matches[0].scriptHex == hex {
        assert Of(matches, hex)[1..] == Of(matches[1..], hex);
      } else {
        assert Of(matches, hex) == Of(matches[1..], hex);
      }
    }
  }
}
