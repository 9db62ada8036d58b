/** The wallet match recorder that every adapter implements. */
module Recorder {
  import opened Digests

  datatype Kind = Output | Spend

  datatype TxMatch = TxMatch(txid: Digest, blockHash: Digest, height: nat, kind: Kind, vout: nat, vin: nat)

  /** A transaction where it was found. */
  datatype Entry = Entry(height: nat, blockHash: Digest, tx: Tx) {
    function TxId(): Digest {
      OfTx(tx)
    }

    function OutputMatch(vout: nat): TxMatch {
      TxMatch(TxId(), blockHash, height, Output, vout, 0)
    }

    function SpendMatch(vin: nat): TxMatch {
      TxMatch(TxId(), blockHash, height, Spend, 0, vin)
    }
  }

  function Entries(height: nat, blockHash: Digest, block: Block): seq<Entry> {
    seq(|block.txs|, i requires 0 <= i < |block.txs| => Entry(height, blockHash, block.txs[i]))
  }

  // ---------- the recorder ----------

  /** The outpoints known to pay the script, and the matches so far.  Matches are kept in the form `K` in which an
      adapter stores and compares them. */
  datatype Log<K> = Log(outpoints: set<OutPoint>, matches: seq<K>)

  const EMPTY_LOG: Log<TxMatch> := Log({}, [])

  function Added<K(==)>(matches: seq<K>, m: K): seq<K> {
    if m in matches then matches else matches + [m]
  }

  /** After the first `n` outputs. */
  function RecordOuts<K(==)>(log: Log<K>, form: TxMatch -> K, script: Bytes, e: Entry, n: nat): Log<K>
    requires n <= |e.tx.outs|
  {
    if n == 0 then log
    else
      var before := RecordOuts(log, form, script, e, n - 1);
      if e.tx.outs[n - 1].script != script then before
      else Log(before.outpoints + {OutPoint(e.TxId(), n - 1)}, Added(before.matches, form(e.OutputMatch(n - 1))))
  }

  /** After the first `n` inputs. */
  function RecordIns<K(==)>(log: Log<K>, form: TxMatch -> K, e: Entry, n: nat): Log<K>
    requires n <= |e.tx.ins|
  {
    if n == 0 then log
    else
      var before := RecordIns(log, form, e, n - 1);
      if e.tx.ins[n - 1].prevOut !in before.outpoints then before
      else before.(matches := Added(before.matches, form(e.SpendMatch(n - 1))))
  }

  function RecordTx<K(==)>(log: Log<K>, form: TxMatch -> K, script: Bytes, e: Entry): Log<K> {
    RecordIns(RecordOuts(log, form, script, e, |e.tx.outs|), form, e, |e.tx.ins|)
  }

  function Plain(m: TxMatch): TxMatch {
    m
  }

  /** Recording transactions for one script, in order. */
  function Record(log: Log<TxMatch>, script: Bytes, es: seq<Entry>): Log<TxMatch>
    decreases |es|
  {
    if es == [] then log
    else RecordTx(Record(log, script, es[..|es| - 1]), Plain, script, es[|es| - 1])
  }

  lemma {:induction false} RecordConcat(log: Log<TxMatch>, script: Bytes, a: seq<Entry>, b: seq<Entry>)
    ensures Record(log, script, a + b) == Record(Record(log, script, a), script, b)
    decreases |b|
  {
    if b == [] {
      assert a + b == a;
    } else {
      assert (a + b)[..|a + b| - 1] == a + b[..|b| - 1];
      RecordConcat(log, script, a, b[..|b| - 1]);
    }
  }

  // ---------- what the recorder finds ----------

  ghost predicate PaysAt(script: Bytes, e: Entry, o: OutPoint) {
    o.txid == e.TxId() && o.index < |e.tx.outs| && e.tx.outs[o.index].script == script
  }

  /** Some transaction of `es` has `o` as an output that pays the script. */
  ghost predicate Paying(script: Bytes, es: seq<Entry>, o: OutPoint) {
    exists i :: 0 <= i < |es| && PaysAt(script, es[i], o)
  }

  ghost predicate IsOutput(script: Bytes, e: Entry, m: TxMatch) {
    m == e.OutputMatch(m.vout) && m.vout < |e.tx.outs| && e.tx.outs[m.vout].script == script
  }

  ghost predicate IsInput(e: Entry, m: TxMatch) {
    m == e.SpendMatch(m.vin) && m.vin < |e.tx.ins|
  }

  lemma {:induction false} OutsFound<K>(log: Log<K>, form: TxMatch -> K, script: Bytes, e: Entry, n: nat)
    requires n <= |e.tx.outs|
    ensures forall o :: o in RecordOuts(log, form, script, e, n).outpoints <==>
      o in log.outpoints || (PaysAt(script, e, o) && o.index < n)
    ensures forall k :: k in RecordOuts(log, form, script, e, n).matches <==>
      k in log.matches || exists m :: IsOutput(script, e, m) && m.vout < n && form(m) == k
  {
    if n > 0 {
      OutsFound(log, form, script, e, n - 1);
      var now := RecordOuts(log, form, script, e, n);
      var before := RecordOuts(log, form, script, e, n - 1);
      var last := e.OutputMatch(n - 1);
      forall k
        ensures k in now.matches <==>
          k in log.matches || exists m :: IsOutput(script, e, m) && m.vout < n && form(m) == k
      {
        if k in now.matches && k !in before.matches {
          assert k == form(last) && IsOutput(script, e, last);
        }
      }
    }
  }

  lemma {:induction false} InsFound<K>(log: Log<K>, form: TxMatch -> K, e: Entry, n: nat)
    requires n <= |e.tx.ins|
    ensures RecordIns(log, form, e, n).outpoints == log.outpoints
    ensures forall k :: k in RecordIns(log, form, e, n).matches <==>
      k in log.matches ||
      exists m :: IsInput(e, m) && m.vin < n && e.tx.ins[m.vin].prevOut in log.outpoints && form(m) == k
  {
    if n > 0 {
      InsFound(log, form, e, n - 1);
      var now := RecordIns(log, form, e, n);
      var before := RecordIns(log, form, e, n - 1);
      var last := e.SpendMatch(n - 1);
      forall k
        ensures k in now.matches <==>
          k in log.matches ||
          exists m :: IsInput(e, m) && m.vin < n && e.tx.ins[m.vin].prevOut in log.outpoints && form(m) == k
      {
        if k in now.matches && k !in before.matches {
          assert k == form(last) && IsInput(e, last);
        }
      }
    }
  }

  /** A spend that the recorder can see: the outpoint was known, or is created by the same transaction. */
  ghost predicate IsSpend(known: set<OutPoint>, script: Bytes, e: Entry, m: TxMatch) {
    IsInput(e, m) && (e.tx.ins[m.vin].prevOut in known || PaysAt(script, e, e.tx.ins[m.vin].prevOut))
  }

  /** What one transaction adds. */
  lemma TxFound<K>(log: Log<K>, form: TxMatch -> K, script: Bytes, e: Entry)
    ensures var after := RecordTx(log, form, script, e);
      && (forall o :: o in after.outpoints <==> o in log.outpoints || PaysAt(script, e, o))
      && (forall k :: k in after.matches <==>
            k in log.matches ||
            exists m :: (IsOutput(script, e, m) || IsSpend(log.outpoints, script, e, m)) && form(m) == k)
  {
    var outs := RecordOuts(log, form, script, e, |e.tx.outs|);
    OutsFound(log, form, script, e, |e.tx.outs|);
    InsFound(outs, form, e, |e.tx.ins|);
  }

  /** What one transaction adds, for matches kept as they are. */
  lemma PlainTxFound(log: Log<TxMatch>, script: Bytes, e: Entry)
    ensures var after := RecordTx(log, Plain, script, e);
      && (forall o :: o in after.outpoints <==> o in log.outpoints || PaysAt(script, e, o))
      && (forall m :: m in after.matches <==>
            m in log.matches || IsOutput(script, e, m) || IsSpend(log.outpoints, script, e, m))
  {
    TxFound(log, Plain, script, e);
    var after := RecordTx(log, Plain, script, e);
    forall m
      ensures m in after.matches <==>
        m in log.matches || IsOutput(script, e, m) || IsSpend(log.outpoints, script, e, m)
    {
      assert Plain(m) == m;
    }
  }

  /** The recorder, in closed form: it knows the outpoints paid so far, and has matched exactly the paying outputs
      and the inputs that spend an outpoint paid by then. */
  ghost predicate Found(script: Bytes, es: seq<Entry>, m: TxMatch) {
    exists i :: 0 <= i < |es| && FoundAt(script, es, i, m)
  }

  ghost predicate FoundAt(script: Bytes, es: seq<Entry>, i: nat, m: TxMatch)
    requires i < |es|
  {
    IsOutput(script, es[i], m) ||
    (IsInput(es[i], m) && Paying(script, es[..i + 1], es[i].tx.ins[m.vin].prevOut))
  }

  lemma PayingPrefix(script: Bytes, es: seq<Entry>, o: OutPoint)
    requires es != []
    ensures Paying(script, es, o) <==> Paying(script, es[..|es| - 1], o) || PaysAt(script, es[|es| - 1], o)
  {
    var n := |es| - 1;
    if Paying(script, es, o) {
      var i :| 0 <= i < |es| && PaysAt(script, es[i], o);
      if i < n {
        assert PaysAt(script, es[..n][i], o);
      }
    }
    if Paying(script, es[..n], o) {
      var i :| 0 <= i < n && PaysAt(script, es[..n][i], o);
      assert PaysAt(script, es[i], o);
    }
  }

  lemma FoundPrefix(script: Bytes, es: seq<Entry>, m: TxMatch)
    requires es != []
    ensures Found(script, es, m) <==> Found(script, es[..|es| - 1], m) || FoundAt(script, es, |es| - 1, m)
  {
    var n := |es| - 1;
    forall i | 0 <= i < n
      ensures FoundAt(script, es, i, m) <==> FoundAt(script, es[..n], i, m)
    {
      assert es[..n][..i + 1] == es[..i + 1];
    }
    if Found(script, es[..n], m) {
      var i :| 0 <= i < n && FoundAt(script, es[..n], i, m);
      assert FoundAt(script, es, i, m);
    }
    if Found(script, es, m) {
      var i :| 0 <= i < |es| && FoundAt(script, es, i, m);
      if i < n {
        assert FoundAt(script, es[..n], i, m);
      }
    }
  }

  lemma {:induction false} RecordedIff(script: Bytes, es: seq<Entry>)
    ensures forall o :: o in Record(EMPTY_LOG, script, es).outpoints <==> Paying(script, es, o)
    ensures forall m :: m in Record(EMPTY_LOG, script, es).matches <==> Found(script, es, m)
    decreases |es|
  {
    if es != [] {
      var n := |es| - 1;
      var e := es[n];
      var before := Record(EMPTY_LOG, script, es[..n]);
      RecordedIff(script, es[..n]);
      PlainTxFound(before, script, e);
      forall o
        ensures o in Record(EMPTY_LOG, script, es).outpoints <==> Paying(script, es, o)
      {
        PayingPrefix(script, es, o);
      }
      assert es[..n + 1] == es;
      forall m
        ensures m in Record(EMPTY_LOG, script, es).matches <==> Found(script, es, m)
      {
        FoundPrefix(script, es, m);
        if IsInput(e, m) {
          PayingPrefix(script, es, e.tx.ins[m.vin].prevOut);
        }
      }
    }
  }

  // ---------- no match twice ----------

  ghost predicate Distinct<K>(s: seq<K>) {
    forall i, j :: 0 <= i < j < |s| ==> s[i] != s[j]
  }

  lemma {:induction false} TxKeepsDistinct<K>(log: Log<K>, form: TxMatch -> K, script: Bytes, e: Entry, n: nat)
    requires Distinct(log.matches)
    ensures n <= |e.tx.outs| ==> Distinct(RecordOuts(log, form, script, e, n).matches)
    ensures n <= |e.tx.ins| ==> Distinct(RecordIns(log, form, e, n).matches)
  {
    if n > 0 {
      TxKeepsDistinct(log, form, script, e, n - 1);
    }
  }

  lemma {:induction false} RecordKeepsDistinct(log: Log<TxMatch>, script: Bytes, es: seq<Entry>)
    requires Distinct(log.matches)
    ensures Distinct(Record(log, script, es).matches)
    decreases |es|
  {
    if es != [] {
      var e := es[|es| - 1];
      RecordKeepsDistinct(log, script, es[..|es| - 1]);
      var before := Record(log, script, es[..|es| - 1]);
      TxKeepsDistinct(before, Plain, script, e, |e.tx.outs|);
      TxKeepsDistinct(RecordOuts(before, Plain, script, e, |e.tx.outs|), Plain, script, e, |e.tx.ins|);
    }
  }

  // ---------- convergence ----------

  /** All paying outputs, and all inputs that spend one of them, no matter in which order they come. */
  ghost predicate Closed(script: Bytes, es: seq<Entry>, m: TxMatch) {
    exists i :: 0 <= i < |es| && ClosedAt(script, es, i, m)
  }

  ghost predicate ClosedAt(script: Bytes, es: seq<Entry>, i: nat, m: TxMatch)
    requires i < |es|
  {
    IsOutput(script, es[i], m) || (IsInput(es[i], m) && Paying(script, es, es[i].tx.ins[m.vin].prevOut))
  }

  /** Every spend of a paying output comes after it. */
  ghost predicate FundedFirst(script: Bytes, es: seq<Entry>) {
    forall i, v :: 0 <= i < |es| && 0 <= v < |es[i].tx.ins| && Paying(script, es, es[i].tx.ins[v].prevOut) ==>
      Paying(script, es[..i + 1], es[i].tx.ins[v].prevOut)
  }

  lemma PayingMore(script: Bytes, a: seq<Entry>, b: seq<Entry>, o: OutPoint)
    requires Paying(script, a, o) && forall e :: e in a ==> e in b
    ensures Paying(script, b, o)
  {
    var i :| 0 <= i < |a| && PaysAt(script, a[i], o);
    assert a[i] in b;
    var j :| 0 <= j < |b| && b[j] == a[i];
    assert PaysAt(script, b[j], o);
  }

  /** One pass finds everything there is to find exactly if no spend comes before its funding output. */
  lemma OnePassIff(script: Bytes, es: seq<Entry>)
    requires Distinct(es)
    ensures (forall m :: m in Record(EMPTY_LOG, script, es).matches <==> Closed(script, es, m))
       <==> FundedFirst(script, es)
  {
    RecordedIff(script, es);
    var matches := Record(EMPTY_LOG, script, es).matches;
    forall m | Found(script, es, m)
      ensures Closed(script, es, m)
    {
      var i :| 0 <= i < |es| && FoundAt(script, es, i, m);
      if IsInput(es[i], m) {
        PayingMore(script, es[..i + 1], es, es[i].tx.ins[m.vin].prevOut);
      }
      assert ClosedAt(script, es, i, m);
    }
    if FundedFirst(script, es) {
      forall m | Closed(script, es, m)
        ensures Found(script, es, m)
      {
        var i :| 0 <= i < |es| && ClosedAt(script, es, i, m);
        assert FoundAt(script, es, i, m);
      }
    }
    if forall m :: m in matches <==> Closed(script, es, m) {
      forall i, v | 0 <= i < |es| && 0 <= v < |es[i].tx.ins| && Paying(script, es, es[i].tx.ins[v].prevOut)
        ensures Paying(script, es[..i + 1], es[i].tx.ins[v].prevOut)
      {
        var m := es[i].SpendMatch(v);
        assert IsInput(es[i], m) && ClosedAt(script, es, i, m);
        assert Found(script, es, m);
        var j :| 0 <= j < |es| && FoundAt(script, es, j, m);
        assert es[i] == es[j];
      }
    }
  }

  /** Two full passes, each in any order, find everything. */
  lemma TwoPasses(script: Bytes, a: seq<Entry>, b: seq<Entry>)
    requires forall e :: e in a <==> e in b
    ensures forall m :: m in Record(EMPTY_LOG, script, a + b).matches <==> Closed(script, a, m)
  {
    var es := a + b;
    RecordedIff(script, es);
    forall m
      ensures Found(script, es, m) <==> Closed(script, a, m)
    {
      if Found(script, es, m) {
        var i :| 0 <= i < |es| && FoundAt(script, es, i, m);
        assert es[i] in a;
        var j :| 0 <= j < |a| && a[j] == es[i];
        if IsInput(es[i], m) {
          PayingMore(script, es[..i + 1], a, es[i].tx.ins[m.vin].prevOut);
        }
        assert ClosedAt(script, a, j, m);
      }
      if Closed(script, a, m) {
        var i :| 0 <= i < |a| && ClosedAt(script, a, i, m);
        assert a[i] in b;
        var j :| 0 <= j < |b| && b[j] == a[i];
        assert es[|a| + j] == a[i];
        if IsInput(a[i], m) {
          assert es[..|a| + j + 1] == a + b[..j + 1];
          PayingMore(script, a, es[..|a| + j + 1], a[i].tx.ins[m.vin].prevOut);
        }
        assert FoundAt(script, es, |a| + j, m);
      }
    }
  }

  /** Nothing in these transactions is new to the log. */
  ghost predicate Saturated(log: Log<TxMatch>, script: Bytes, es: seq<Entry>) {
    forall e :: e in es ==> TxKnown(log, script, e)
  }

  ghost predicate TxKnown(log: Log<TxMatch>, script: Bytes, e: Entry) {
    && (forall o :: PaysAt(script, e, o) ==> o in log.outpoints)
    && (forall m :: IsOutput(script, e, m) || IsSpend(log.outpoints, script, e, m) ==> m in log.matches)
  }

  lemma {:induction false} OutsKnown(log: Log<TxMatch>, script: Bytes, e: Entry, n: nat)
    requires TxKnown(log, script, e) && n <= |e.tx.outs|
    ensures RecordOuts(log, Plain, script, e, n) == log
  {
    if n > 0 {
      OutsKnown(log, script, e, n - 1);
      if e.tx.outs[n - 1].script == script {
        assert PaysAt(script, e, OutPoint(e.TxId(), n - 1));
        assert IsOutput(script, e, e.OutputMatch(n - 1));
      }
    }
  }

  lemma {:induction false} InsKnown(log: Log<TxMatch>, script: Bytes, e: Entry, n: nat)
    requires TxKnown(log, script, e) && n <= |e.tx.ins|
    ensures RecordIns(log, Plain, e, n) == log
  {
    if n > 0 {
      InsKnown(log, script, e, n - 1);
      assert IsInput(e, e.SpendMatch(n - 1));
    }
  }

  /** Recording what is already known leaves the log as it is, down to the order of its matches. */
  lemma {:induction false} RescanAddsNothing(log: Log<TxMatch>, script: Bytes, es: seq<Entry>)
    requires Saturated(log, script, es)
    ensures Record(log, script, es) == log
    decreases |es|
  {
    if es != [] {
      var e := es[|es| - 1];
      RescanAddsNothing(log, script, es[..|es| - 1]);
      OutsKnown(log, script, e, |e.tx.outs|);
      InsKnown(log, script, e, |e.tx.ins|);
    }
  }

  /** After two full passes every further scan is without effect. */
  lemma ThirdPass(script: Bytes, a: seq<Entry>, b: seq<Entry>, c: seq<Entry>)
    requires (forall e :: e in a <==> e in b) && (forall e :: e in c ==> e in a)
    ensures Record(EMPTY_LOG, script, a + b + c) == Record(EMPTY_LOG, script, a + b)
  {
    var log := Record(EMPTY_LOG, script, a + b);
    TwoPasses(script, a, b);
    RecordedIff(script, a + b);
    forall e | e in c
      ensures TxKnown(log, script, e)
    {
      var i :| 0 <= i < |a| && a[i] == e;
      forall o | PaysAt(script, e, o)
        ensures o in log.outpoints
      {
        assert PaysAt(script, (a + b)[i], o);
      }
      forall m | IsOutput(script, e, m) || IsSpend(log.outpoints, script, e, m)
        ensures m in log.matches
      {
        if IsSpend(log.outpoints, script, e, m) {
          PayingMore(script, a + b, a, e.tx.ins[m.vin].prevOut);
        }
        assert ClosedAt(script, a, i, m);
      }
    }
    RescanAddsNothing(log, script, c);
    RecordConcat(EMPTY_LOG, script, a + b, c);
  }
}
