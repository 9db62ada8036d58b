/** Summing up a report: the colour, and the results sorted by ID. */
module Score {
  import opened Report

  // ---------- the colour ----------

  predicate Counts(r: Result) {
    r.status != Pass && r.status != Skipped
  }

  /** The colour policy, without any order. */
  ghost predicate IsColor(results: seq<Result>, color: Color) {
    match color
    case Red => exists r :: r in results && r.level == Must && Counts(r)
    case Orange =>
      && (forall r :: r in results && r.level == Must ==> !Counts(r))
      && (exists r :: r in results && r.level == Should && Counts(r))
    case Green => forall r :: r in results && r.level != Info ==> !Counts(r)
  }

  /** Exactly one colour fits, whatever the order of the results. */
  lemma ColorIsUnique(a: seq<Result>, b: seq<Result>, c: Color, d: Color)
    requires multiset(a) == multiset(b) && IsColor(a, c) && IsColor(b, d)
    ensures c == d
  {
    forall r
      ensures r in a <==> r in b
    {
      assert r in multiset(a) <==> r in multiset(b);
    }
  }

  // ---------- string order ----------

  /** Byte-wise lexicographic order. */
  predicate Less(a: string, b: string)
    decreases |a|
  {
    b != [] && (a == [] || a[0] < b[0] || (a[0] == b[0] && Less(a[1..], b[1..])))
  }

  /** One string comes before another exactly if, where they first differ, it has ended or has the smaller byte. */
  lemma {:induction false} LessIff(a: string, b: string)
    ensures Less(a, b) <==>
      exists k: nat :: k < |b| && k <= |a| && a[..k] == b[..k] && (k == |a| || a[k] < b[k])
    decreases |a|
  {
    if a != [] && b != [] && a[0] == b[0] {
      LessIff(a[1..], b[1..]);
      if Less(a, b) {
        var k: nat :| k < |b[1..]| && k <= |a[1..]| && a[1..][..k] == b[1..][..k]
                      && (k == |a[1..]| || a[1..][k] < b[1..][k]);
        assert a[..k + 1] == [a[0]] + a[1..][..k] && b[..k + 1] == [b[0]] + b[1..][..k];
      }
      if k: nat :| k < |b| && k <= |a| && a[..k] == b[..k] && (k == |a| || a[k] < b[k]) {
        assert k > 0;
        assert a[1..][..k - 1] == a[..k][1..] && b[1..][..k - 1] == b[..k][1..];
      }
    } else if a != [] && b != [] {
      assert a[..0] == b[..0];
      forall k: nat | 0 < k < |b| && k <= |a|
        ensures a[..k] != b[..k]
      {
        assert a[..k][0] != b[..k][0];
      }
    } else if b != [] {
      assert a[..0] == b[..0];
    }
  }

  lemma {:induction false} LessTotal(a: string, b: string)
    ensures Less(a, b) || Less(b, a) || a == b
    ensures !(Less(a, b) && Less(b, a))
    ensures a == b ==> !Less(a, b)
    decreases |a|
  {
    if a != [] && b != [] {
      LessTotal(a[1..], b[1..]);
      assert a == [a[0]] + a[1..] && b == [b[0]] + b[1..];
    }
  }

  lemma {:induction false} LessTransitive(a: string, b: string, c: string)
    requires Less(a, b) && Less(b, c)
    ensures Less(a, c)
    decreases |a|
  {
    if a != [] && a[0] == b[0] == c[0] {
      LessTransitive(a[1..], b[1..], c[1..]);
    }
  }

  lemma NotLessTransitive(a: string, b: string, c: string)
    requires !Less(b, a) && !Less(c, b)
    ensures !Less(c, a)
  {
    LessTotal(a, b);
    LessTotal(b, c);
    if Less(c, a) {
      if Less(a, b) {
        LessTransitive(c, a, b);
      }
    }
  }

  // ---------- sorting ----------

  ghost predicate Sorted(results: seq<Result>) {
    forall i, j :: 0 <= i < j < |results| ==> !Less(results[j].id, results[i].id)
  }

  /** The results with one ID, in the order they have. */
  function WithId(results: seq<Result>, id: string): seq<Result> {
    if results == [] then []
    else (if results[0].id == id then [results[0]] else []) + WithId(results[1..], id)
  }

  /** `t` has the results of `s`, and those with the same ID in the same order. */
  ghost predicate Stable(s: seq<Result>, t: seq<Result>) {
    forall id :: WithId(s, id) == WithId(t, id)
  }

  lemma {:induction false} WithIdHas(results: seq<Result>, r: Result)
    ensures r in WithId(results, r.id) <==> r in results
  {
    if results != [] {
      WithIdHas(results[1..], r);
      assert results == [results[0]] + results[1..];
    }
  }

  lemma {:induction false} WithIdCounts(results: seq<Result>, r: Result)
    ensures multiset(WithId(results, r.id))[r] == multiset(results)[r]
  {
    if results != [] {
      WithIdCounts(results[1..], r);
      assert results == [results[0]] + results[1..];
    }
  }

  /** Keeping the results of every ID in order is more than being a permutation. */
  lemma StableIsPermutation(s: seq<Result>, t: seq<Result>)
    requires Stable(s, t)
    ensures multiset(s) == multiset(t)
  {
    forall r: Result
      ensures multiset(s)[r] == multiset(t)[r]
    {
      WithIdCounts(s, r);
      WithIdCounts(t, r);
      assert WithId(s, r.id) == WithId(t, r.id);
    }
  }

  /** The first of the results with an ID. */
  lemma FirstWithId(results: seq<Result>)
    requires results != []
    ensures WithId(results, results[0].id) == [results[0]] + WithId(results[1..], results[0].id)
  {
  }

  lemma NoneBelowFirst(results: seq<Result>, r: Result)
    requires Sorted(results) && r in results
    ensures !Less(r.id, results[0].id)
  {
    var k :| 0 <= k < |results| && results[k] == r;
    LessTotal(r.id, results[0].id);
  }

  lemma FirstIsLeast(s: seq<Result>, t: seq<Result>)
    requires Sorted(s) && Sorted(t) && Stable(s, t) && s != []
    ensures t != [] && s[0] == t[0] && Stable(s[1..], t[1..])
  {
    StableIsPermutation(s, t);
    assert s[0] in multiset(s) && s[0] in t;
    assert t[0] in multiset(t) && t[0] in s;
    NoneBelowFirst(s, t[0]);
    NoneBelowFirst(t, s[0]);
    LessTotal(s[0].id, t[0].id);
    assert WithId(s, s[0].id) == WithId(t, s[0].id);
    FirstWithId(s);
    FirstWithId(t);
    assert WithId(s, s[0].id)[0] == s[0] && WithId(t, t[0].id)[0] == t[0];
    forall id
      ensures WithId(s[1..], id) == WithId(t[1..], id)
    {
      assert WithId(s, id) == WithId(t, id);
      if id == s[0].id {
        assert WithId(s, id)[1..] == WithId(s[1..], id);
        assert WithId(t, id)[1..] == WithId(t[1..], id);
      } else {
        assert WithId(s, id) == WithId(s[1..], id);
        assert WithId(t, id) == WithId(t[1..], id);
      }
    }
  }

  /** A stable sort has only one possible outcome. */
  lemma {:induction false} StableSortIsUnique(s: seq<Result>, t: seq<Result>)
    requires Sorted(s) && Sorted(t) && Stable(s, t)
    ensures s == t
    decreases |s|
  {
    if s == [] {
      StableIsPermutation(s, t);
      assert |multiset(t)| == |multiset(s)| == 0;
    } else {
      FirstIsLeast(s, t);
      StableSortIsUnique(s[1..], t[1..]);
      assert s == [s[0]] + s[1..] && t == [t[0]] + t[1..];
    }
  }

  function Insert(r: Result, results: seq<Result>): seq<Result>
    decreases |results|
  {
    if results == [] || !Less(results[0].id, r.id) then [r] + results
    else [results[0]] + Insert(r, results[1..])
  }

  function StableSort(results: seq<Result>): (t: seq<Result>)
    ensures |t| == |results|
  {
    if results == [] then []
    else
      InsertLength(results[0], StableSort(results[1..]));
      Insert(results[0], StableSort(results[1..]))
  }

  lemma {:induction false} InsertLength(r: Result, results: seq<Result>)
    ensures |Insert(r, results)| == |results| + 1
    decreases |results|
  {
    if results != [] && Less(results[0].id, r.id) {
      InsertLength(r, results[1..]);
    }
  }

  lemma {:induction false} InsertStable(r: Result, results: seq<Result>, id: string)
    requires Sorted(results)
    ensures WithId(Insert(r, results), id) == (if r.id == id then [r] else []) + WithId(results, id)
    ensures Sorted(Insert(r, results))
    ensures forall x :: x in Insert(r, results) ==> x == r || x in results
    decreases |results|
  {
    if results == [] || !Less(results[0].id, r.id) {
      assert ([r] + results)[1..] == results;
      forall j | 0 <= j < |results|
        ensures !Less(results[j].id, r.id)
      {
        if j > 0 {
          NotLessTransitive(r.id, results[0].id, results[j].id);
        }
      }
    } else {
      var first, rest := results[0], Insert(r, results[1..]);
      InsertStable(r, results[1..], id);
      LessTotal(first.id, r.id);
      assert ([first] + rest)[1..] == rest;
      forall j | 0 <= j < |rest|
        ensures !Less(rest[j].id, first.id)
      {
        assert rest[j] in rest;
        assert rest[j] != r ==> rest[j] in results[1..];
      }
      InsertedLater(first, r, results[1..], id);
    }
  }

  lemma InsertedLater(first: Result, r: Result, results: seq<Result>, id: string)
    requires first.id != r.id
    requires WithId(Insert(r, results), id) == (if r.id == id then [r] else []) + WithId(results, id)
    ensures WithId([first] + Insert(r, results), id) == (if r.id == id then [r] else []) + WithId([first] + results, id)
  {
    assert ([first] + Insert(r, results))[1..] == Insert(r, results);
    assert ([first] + results)[1..] == results;
  }

  lemma {:induction false} StableSorts(results: seq<Result>)
    ensures Sorted(StableSort(results)) && Stable(results, StableSort(results))
    decreases |results|
  {
    if results != [] {
      StableSorts(results[1..]);
      forall id
        ensures WithId(results, id) == WithId(StableSort(results), id)
      {
        InsertStable(results[0], StableSort(results[1..]), id);
        assert WithId(results[1..], id) == WithId(StableSort(results[1..]), id);
      }
      InsertStable(results[0], StableSort(results[1..]), "");
    }
  }

  // ---------- summing up ----------

  /** Sorts in place.  How the library does it does not matter: a stable sort has one possible outcome. */
  method SliceStable(results: array<Result>)
    modifies results
    ensures Sorted(results[..]) && Stable(old(results[..]), results[..])
  {
    var sorted := StableSort(results[..]);
    StableSorts(results[..]);
    forall i | 0 <= i < results.Length {
      results[i] := sorted[i];
    }
    assert results[..] == sorted;
  }

  method Summarize(results: array<Result>) returns (summary: Summary)
    modifies results
    ensures summary.color == Red <==>
      exists r :: r in old(results[..]) && r.level == Must && (r.status == Fail || r.status == Unsupported)
    ensures summary.color == Green <==>
      forall r :: r in old(results[..]) && (r.level == Must || r.level == Should) ==>
        r.status == Pass || r.status == Skipped
    ensures IsColor(old(results[..]), summary.color)
    ensures summary.results == results[..] && Sorted(results[..]) && Stable(old(results[..]), results[..])
  {
    var color := Green;
    for i := 0 to results.Length
      invariant results[..] == old(results[..])
      invariant IsColor(results[..i], color)
    {
      assert results[..i + 1] == results[..i] + [results[i]];
      if results[i].level == Must && Counts(results[i]) {
        color := Red;
      } else if color == Green && results[i].level == Should && Counts(results[i]) {
        color := Orange;
      }
    }
    assert results[..results.Length] == results[..];
    SliceStable(results);
    return Summary(color, results[..]);
  }

  lemma {:induction false} NoneWithId(results: seq<Result>, id: string)
    requires id !in Ids(results)
    ensures WithId(results, id) == []
  {
    if results != [] {
      assert Ids(results) == [results[0].id] + Ids(results[1..]);
      NoneWithId(results[1..], id);
    }
  }

  lemma {:induction false} UniqueWithId(results: seq<Result>, id: string)
    requires Unique(Ids(results))
    ensures |WithId(results, id)| <= 1
    decreases |results|
  {
    if results != [] {
      var ids, rest := Ids(results), Ids(results[1..]);
      assert ids == [results[0].id] + rest;
      forall i, j | 0 <= i < j < |rest|
        ensures rest[i] != rest[j]
      {
        assert ids[i + 1] != ids[j + 1];
      }
      UniqueWithId(results[1..], id);
      forall k | 0 <= k < |rest|
        ensures rest[k] != results[0].id
      {
        assert ids[0] != ids[k + 1];
      }
      NoneWithId(results[1..], results[0].id);
    }
  }

  lemma {:induction false} AllWithId(results: seq<Result>, id: string)
    ensures forall r :: r in WithId(results, id) ==> r.id == id
  {
    if results != [] {
      AllWithId(results[1..], id);
    }
  }

  /** With unique IDs, the summary depends on the results only, not on their order. */
  lemma SummaryOrderFree(a: seq<Result>, b: seq<Result>, x: Summary, y: Summary)
    requires multiset(a) == multiset(b) && Unique(Ids(a)) && Unique(Ids(b))
    requires IsColor(a, x.color) && Sorted(x.results) && Stable(a, x.results)
    requires IsColor(b, y.color) && Sorted(y.results) && Stable(b, y.results)
    ensures x == y
  {
    ColorIsUnique(a, b, x.color, y.color);
    forall id
      ensures WithId(x.results, id) == WithId(y.results, id)
    {
      assert WithId(a, id) == WithId(x.results, id) && WithId(b, id) == WithId(y.results, id);
      SameWithId(a, b, id);
    }
    StableSortIsUnique(x.results, y.results);
  }

  lemma SameWithId(a: seq<Result>, b: seq<Result>, id: string)
    requires multiset(a) == multiset(b) && Unique(Ids(a)) && Unique(Ids(b))
    ensures WithId(a, id) == WithId(b, id)
  {
    UniqueWithId(a, id);
    UniqueWithId(b, id);
    AllWithId(a, id);
    AllWithId(b, id);
    var s, t := WithId(a, id), WithId(b, id);
    forall r: Result
      ensures r in s <==> r in t
    {
      WithIdHas(a, r);
      WithIdHas(b, r);
      assert r in multiset(a) <==> r in multiset(b);
    }
    ShortSequences(s, t);
  }

  lemma ShortSequences(s: seq<Result>, t: seq<Result>)
    requires |s| <= 1 && |t| <= 1 && forall r :: r in s <==> r in t
    ensures s == t
  {
    assert s != [] ==> s[0] in s;
    assert t != [] ==> t[0] in t;
  }
}
