/** The bookkeeping of scenario results: filling in the report, and summing it up. */
module Report {
  import Digests

  datatype Level = Must | Should | Info

  datatype Status = Pass | Fail | Unsupported | Skipped

  datatype Color = Green | Orange | Red

  datatype Result = Result(id: string, title: string, level: Level, status: Status, evidence: string)

  datatype Summary = Summary(color: Color, results: seq<Result>)

  datatype Definition = Definition(id: string, title: string, level: Level)

  // ---------- upsert ----------

  function Ids(results: seq<Result>): (ids: seq<string>)
    ensures |ids| == |results|
  {
    seq(|results|, i requires 0 <= i < |results| => results[i].id)
  }

  ghost predicate Unique(ids: seq<string>) {
    forall i, j :: 0 <= i < j < |ids| ==> ids[i] != ids[j]
  }

  /** The last position of an ID. */
  function LastIndex(results: seq<Result>, id: string): (i: int)
    ensures -1 <= i < |results|
    ensures i >= 0 ==> results[i].id == id
    ensures forall j :: i < j < |results| ==> results[j].id != id
    decreases |results|
  {
    if results == [] then -1
    else if results[|results| - 1].id == id then |results| - 1
    else LastIndex(results[..|results| - 1], id)
  }

  /** `results` after `replacements`, where the positions are looked up in `original`. */
  function Upserted(original: seq<Result>, replacements: seq<Result>): (r: seq<Result>)
    ensures |original| <= |r|
    decreases |replacements|
  {
    if replacements == [] then original
    else
      var before := Upserted(original, replacements[..|replacements| - 1]);
      var last := replacements[|replacements| - 1];
      var i := LastIndex(original, last.id);
      if i >= 0 then before[i := last] else before + [last]
  }

  /** The report that a run of the harness fills in. */
  class ReportBuilder {
    var results: seq<Result>

    constructor (results: seq<Result>)
      ensures this.results == results
    {
      this.results := results;
    }

    method Upsert(replacements: seq<Result>)
      modifies this
      ensures results == Upserted(old(results), replacements)
    {
      var index: map<string, nat> := map[];
      for i := 0 to |results|
        invariant results == old(results)
        invariant forall id :: id in index <==> LastIndex(results[..i], id) >= 0
        invariant forall id :: id in index ==> index[id] == LastIndex(results[..i], id)
      {
        assert results[..i + 1][..i] == results[..i];
        index := index[results[i].id := i];
      }
      assert results[..|results|] == results;
      for k := 0 to |replacements|
        invariant results == Upserted(old(results), replacements[..k])
      {
        var replacement := replacements[k];
        assert replacements[..k + 1][..k] == replacements[..k];
        if replacement.id in index {
          results := results[index[replacement.id] := replacement];
          continue;
        }
        results := results + [replacement];
      }
      assert replacements[..|replacements|] == replacements;
    }
  }

  /** The IDs of the replacements that were not there before. */
  function NewIds(original: seq<Result>, replacements: seq<Result>): seq<string>
    decreases |replacements|
  {
    if replacements == [] then []
    else
      var last := replacements[|replacements| - 1];
      NewIds(original, replacements[..|replacements| - 1]) +
      (if LastIndex(original, last.id) >= 0 then [] else [last.id])
  }

  lemma LastIndexFinds(results: seq<Result>, id: string)
    ensures LastIndex(results, id) >= 0 <==> id in Ids(results)
  {
    var j := LastIndex(results, id);
    if j >= 0 {
      assert Ids(results)[j] == id;
    }
    if id in Ids(results) {
      var i :| 0 <= i < |results| && Ids(results)[i] == id;
      assert results[i].id == id;
    }
  }

  /** No ID is lost or moved, and every new one is appended: in the order they came, once for each time. */
  lemma {:induction false} UpsertedIds(original: seq<Result>, replacements: seq<Result>)
    ensures Ids(Upserted(original, replacements)) == Ids(original) + NewIds(original, replacements)
    decreases |replacements|
  {
    if replacements != [] {
      UpsertedIds(original, replacements[..|replacements| - 1]);
      var before := Upserted(original, replacements[..|replacements| - 1]);
      var last := replacements[|replacements| - 1];
      var i := LastIndex(original, last.id);
      if i >= 0 {
        assert Ids(before)[i] == Ids(original)[i] == last.id;
        assert Ids(before[i := last]) == Ids(before);
      } else {
        assert Ids(before + [last]) == Ids(before) + [last.id];
      }
    }
  }

  lemma {:induction false} NewIdsAreNew(original: seq<Result>, replacements: seq<Result>)
    ensures forall id :: id in NewIds(original, replacements) <==>
      id in Ids(replacements) && id !in Ids(original)
    decreases |replacements|
  {
    if replacements != [] {
      var n := |replacements| - 1;
      NewIdsAreNew(original, replacements[..n]);
      LastIndexFinds(original, replacements[n].id);
      assert Ids(replacements) == Ids(replacements[..n]) + [replacements[n].id];
    }
  }

  lemma UniqueConcat(a: seq<string>, b: seq<string>)
    requires forall id :: id in b ==> id !in a
    ensures Unique(a + b) <==> Unique(a) && Unique(b)
  {
    if Unique(a) && Unique(b) {
      forall i, j | 0 <= i < j < |a + b|
        ensures (a + b)[i] != (a + b)[j]
      {
        assert j >= |a| ==> b[j - |a|] in b;
        assert i >= |a| ==> b[i - |a|] != b[j - |a|];
      }
    }
    if Unique(a + b) {
      forall i, j | 0 <= i < j < |a|
        ensures a[i] != a[j]
      {
        assert (a + b)[i] == a[i] && (a + b)[j] == a[j];
      }
      forall i, j | 0 <= i < j < |b|
        ensures b[i] != b[j]
      {
        assert (a + b)[|a| + i] == b[i] && (a + b)[|a| + j] == b[j];
      }
    }
  }

  /** IDs stay unique exactly if no new ID comes twice in one call. */
  lemma UniqueIff(original: seq<Result>, replacements: seq<Result>)
    requires Unique(Ids(original))
    ensures Unique(Ids(Upserted(original, replacements))) <==> Unique(NewIds(original, replacements))
  {
    UpsertedIds(original, replacements);
    NewIdsAreNew(original, replacements);
    UniqueConcat(Ids(original), NewIds(original, replacements));
  }

  /** The positions are not looked up again after an append: an ID that is new twice ends up in the report twice. */
  lemma NewIdTwice()
    ensures var a := Result("x", "", Must, Fail, ""); var b := Result("x", "", Must, Pass, "");
      Upserted([], [a, b]) == [a, b] && !Unique(Ids(Upserted([], [a, b])))
  {
    var a := Result("x", "", Must, Fail, "");
    var b := Result("x", "", Must, Pass, "");
    assert [a, b][..1] == [a] && [a][..0] == [];
    assert Upserted([], [a]) == [a];
    assert Ids([a, b])[0] == Ids([a, b])[1];
  }

  // ---------- last write wins ----------

  /** The last entry with an ID. */
  function Lookup(results: seq<Result>, id: string): Digests.Option<Result> {
    var i := LastIndex(results, id);
    if i >= 0 then Digests.Some(results[i]) else Digests.None
  }

  lemma LookupNext(results: seq<Result>, r: Result, id: string)
    ensures Lookup(results + [r], id) == if r.id == id then Digests.Some(r) else Lookup(results, id)
  {
    assert (results + [r])[..|results|] == results;
  }

  lemma LookupAt(results: seq<Result>, i: nat)
    requires Unique(Ids(results)) && i < |results|
    ensures LastIndex(results, results[i].id) == i
  {
    var j := LastIndex(results, results[i].id);
    forall k | i < k < |results|
      ensures results[k].id != results[i].id
    {
      assert Ids(results)[k] != Ids(results)[i];
    }
  }

  lemma LookupUpdated(results: seq<Result>, i: nat, r: Result, id: string)
    requires Unique(Ids(results)) && i < |results| && results[i].id == r.id
    ensures Lookup(results[i := r], id) == if r.id == id then Digests.Some(r) else Lookup(results, id)
  {
    assert Ids(results[i := r]) == Ids(results);
    LookupAt(results[i := r], i);
    var j, k := LastIndex(results, id), LastIndex(results[i := r], id);
    if j >= 0 {
      LookupAt(results, j);
      assert results[i := r][j].id == id;
      LookupAt(results[i := r], j);
    }
  }

  /** What is found under an ID: the last replacement with it if there is one, and otherwise what was there. */
  function Latest(original: seq<Result>, replacements: seq<Result>, id: string): Digests.Option<Result> {
    match Lookup(replacements, id)
    case Some(r) => Digests.Some(r)
    case None => Lookup(original, id)
  }

  lemma NewIdsPrefix(original: seq<Result>, replacements: seq<Result>)
    requires replacements != [] && Unique(NewIds(original, replacements))
    ensures Unique(NewIds(original, replacements[..|replacements| - 1]))
  {
    var a, b := NewIds(original, replacements[..|replacements| - 1]), NewIds(original, replacements);
    assert a <= b;
    assert forall i :: 0 <= i < |a| ==> a[i] == b[i];
  }

  lemma {:induction false} LastWriteWins(original: seq<Result>, replacements: seq<Result>, id: string)
    requires Unique(Ids(original)) && Unique(NewIds(original, replacements))
    ensures Lookup(Upserted(original, replacements), id) == Latest(original, replacements, id)
    decreases |replacements|
  {
    if replacements != [] {
      var n := |replacements| - 1;
      var last := replacements[n];
      var before := Upserted(original, replacements[..n]);
      NewIdsPrefix(original, replacements);
      LastWriteWins(original, replacements[..n], id);
      assert replacements == replacements[..n] + [last];
      LookupNext(replacements[..n], last, id);
      UniqueIff(original, replacements[..n]);
      UpsertedIds(original, replacements[..n]);
      var i := LastIndex(original, last.id);
      if i >= 0 {
        assert Ids(before)[i] == Ids(original)[i];
        LookupUpdated(before, i, last, id);
      } else {
        LookupNext(before, last, id);
      }
    }
  }

  // ---------- many calls ----------

  function RunUpserts(results: seq<Result>, calls: seq<seq<Result>>): seq<Result>
    decreases |calls|
  {
    if calls == [] then results else RunUpserts(Upserted(results, calls[0]), calls[1..])
  }

  ghost predicate CallsOk(results: seq<Result>, calls: seq<seq<Result>>)
    decreases |calls|
  {
    calls == [] ||
    (Unique(NewIds(results, calls[0])) && CallsOk(Upserted(results, calls[0]), calls[1..]))
  }

  function LatestOf(results: seq<Result>, calls: seq<seq<Result>>, id: string): Digests.Option<Result>
    decreases |calls|
  {
    if calls == [] then Lookup(results, id)
    else
      match Lookup(calls[|calls| - 1], id)
      case Some(r) => Digests.Some(r)
      case None => LatestOf(results, calls[..|calls| - 1], id)
  }

  lemma {:induction false} LatestFirst(results: seq<Result>, calls: seq<seq<Result>>, id: string)
    requires calls != [] && Unique(Ids(results)) && Unique(NewIds(results, calls[0]))
    ensures LatestOf(results, calls, id) == LatestOf(Upserted(results, calls[0]), calls[1..], id)
    decreases |calls|
  {
    var n := |calls| - 1;
    if n == 0 {
      LastWriteWins(results, calls[0], id);
      assert LatestOf(results, calls[..0], id) == Lookup(results, id);
    } else {
      LatestFirst(results, calls[..n], id);
      assert calls[..n][1..] == calls[1..][..n - 1];
    }
  }

  /** Report integrity: over any calls whose new IDs are distinct within each call, IDs stay unique, none is lost, and
      the last write to an ID wins. */
  lemma {:induction false} ReportIntegrity(results: seq<Result>, calls: seq<seq<Result>>)
    requires Unique(Ids(results)) && CallsOk(results, calls)
    ensures Unique(Ids(RunUpserts(results, calls)))
    ensures Ids(results) <= Ids(RunUpserts(results, calls))
    ensures forall id :: Lookup(RunUpserts(results, calls), id) == LatestOf(results, calls, id)
    decreases |calls|
  {
    if calls != [] {
      UniqueIff(results, calls[0]);
      UpsertedIds(results, calls[0]);
      ReportIntegrity(Upserted(results, calls[0]), calls[1..]);
      forall id
        ensures Lookup(RunUpserts(results, calls), id) == LatestOf(results, calls, id)
      {
        LatestFirst(results, calls, id);
      }
    }
  }

  // ---------- the initial report ----------

  const ADAPTER_SCENARIO := "adapter.honest_wallet_receive_spend"
  const NOT_EXECUTED := "cataloged but not executed by this harness build"

  const ADAPTER_SKIPPED :=
    Result(ADAPTER_SCENARIO, "honest peer wallet receive and spend", Must, Skipped, "requires --adapter-url")

  method CatalogAsSkipped(defs: seq<Definition>) returns (results: seq<Result>)
    ensures |results| == |defs| + 1
    ensures forall i :: 0 <= i < |defs| ==>
      results[i] == Result(defs[i].id, defs[i].title, defs[i].level, Skipped, NOT_EXECUTED)
    ensures results[|defs|] == ADAPTER_SKIPPED
    ensures Unique(Ids(results)) <==>
      && (forall i, j :: 0 <= i < j < |defs| ==> defs[i].id != defs[j].id)
      && (forall d :: d in defs ==> d.id != ADAPTER_SCENARIO)
  {
    results := [];
    for i := 0 to |defs|
      invariant |results| == i
      invariant forall j :: 0 <= j < i ==>
        results[j] == Result(defs[j].id, defs[j].title, defs[j].level, Skipped, NOT_EXECUTED)
    {
      results := results + [Result(defs[i].id, defs[i].title, defs[i].level, Skipped, NOT_EXECUTED)];
    }
    results := results + [ADAPTER_SKIPPED];
    CatalogIds(defs, results);
  }

  lemma CatalogIds(defs: seq<Definition>, results: seq<Result>)
    requires |results| == |defs| + 1 && results[|defs|].id == ADAPTER_SCENARIO
    requires forall i :: 0 <= i < |defs| ==> results[i].id == defs[i].id
    ensures Unique(Ids(results)) <==>
      && (forall i, j :: 0 <= i < j < |defs| ==> defs[i].id != defs[j].id)
      && (forall d :: d in defs ==> d.id != ADAPTER_SCENARIO)
  {
    var ids := Ids(results);
    assert forall i :: 0 <= i < |defs| ==> ids[i] == defs[i].id;
    if Unique(ids) {
      forall d | d in defs
        ensures d.id != ADAPTER_SCENARIO
      {
        var i :| 0 <= i < |defs| && defs[i] == d;
        assert ids[i] != ids[|defs|];
      }
      forall i, j | 0 <= i < j < |defs|
        ensures defs[i].id != defs[j].id
      {
        assert ids[i] != ids[j];
      }
    }
  }
}
