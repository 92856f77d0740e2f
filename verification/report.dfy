/**
 * The per-function sections and the closing score summary of the
 * assessment report.
 */
module ReportPages {
  import opened Api
  import opened Scoring

  // ---------------------------------------------------------------------
  // Per-function sections
  // ---------------------------------------------------------------------

  /** The answers among the first `n` that belong to function `f`, in order. */
  function ItemsUpTo(rs: seq<ResponseItem>, n: nat, f: NistFunction): (items: seq<ResponseItem>)
    requires n <= |rs|
    ensures |items| == CountUpTo(rs, n, f)
    ensures forall k :: 0 <= k < |items| ==> items[k].meta.nistFunction == f && items[k] in rs[..n]
  {
    if n == 0 then []
    else
      var before := ItemsUpTo(rs, n - 1, f);
      assert rs[..n - 1] <= rs[..n];
      before + (if rs[n - 1].meta.nistFunction == f then [rs[n - 1]] else [])
  }

  /** `submission.responses.filter((r) => r.meta.nistFunction === fn)` */
  function ItemsFor(rs: seq<ResponseItem>, f: NistFunction): seq<ResponseItem>
  {
    ItemsUpTo(rs, |rs|, f)
  }

  /** The filter only looks at the answers it has walked. */
  lemma {:induction false} ItemsUpToPrefix(rs: seq<ResponseItem>, qs: seq<ResponseItem>, n: nat, f: NistFunction)
    requires n <= |rs| && n <= |qs| && rs[..n] == qs[..n]
    ensures ItemsUpTo(rs, n, f) == ItemsUpTo(qs, n, f)
  {
    if n > 0 {
      assert rs[..n - 1] == rs[..n][..n - 1] && qs[..n - 1] == qs[..n][..n - 1];
      assert rs[n - 1] == rs[..n][n - 1] && qs[n - 1] == qs[..n][n - 1];
      ItemsUpToPrefix(rs, qs, n - 1, f);
    }
  }

  /** Filtering a concatenation filters each part and concatenates the results. */
  lemma {:induction false} ItemsUpToAppend(a: seq<ResponseItem>, b: seq<ResponseItem>, m: nat, f: NistFunction)
    requires m <= |b|
    ensures ItemsUpTo(a + b, |a| + m, f) == ItemsFor(a, f) + ItemsUpTo(b, m, f)
  {
    if m == 0 {
      assert (a + b)[..|a|] == a[..|a|];
      ItemsUpToPrefix(a + b, a, |a|, f);
    } else {
      ItemsUpToAppend(a, b, m - 1, f);
      assert (a + b)[|a| + m - 1] == b[m - 1];
    }
  }

  /** `filter` distributes over concatenation: order and multiplicity are kept. */
  lemma ItemsForAppend(a: seq<ResponseItem>, b: seq<ResponseItem>, f: NistFunction)
    ensures ItemsFor(a + b, f) == ItemsFor(a, f) + ItemsFor(b, f)
  {
    ItemsUpToAppend(a, b, |b|, f);
  }

  /** On one answer, `filter` keeps it exactly when it belongs to the function. */
  lemma ItemsForSingle(x: ResponseItem, f: NistFunction)
    ensures ItemsFor([x], f) == if x.meta.nistFunction == f then [x] else []
  {
  }

  datatype Section = Section(fn: NistFunction, items: seq<ResponseItem>)

  /** The sections for the first `k` functions of the fixed order, skipping functions without answers. */
  function SectionsUpTo(rs: seq<ResponseItem>, k: nat): seq<Section>
    requires k <= |AllFunctions|
  {
    if k == 0 then []
    else
      var fn := AllFunctions[k - 1];
      var items := ItemsFor(rs, fn);
      SectionsUpTo(rs, k - 1) + (if |items| == 0 then [] else [Section(fn, items)])
  }

  function Sections(rs: seq<ResponseItem>): seq<Section>
  {
    SectionsUpTo(rs, |AllFunctions|)
  }

  /** The loop that lays out one section per function in the fixed order. */
  method PerFunctionSections(rs: seq<ResponseItem>) returns (sections: seq<Section>)
    ensures sections == Sections(rs)
  {
    sections := [];
    for k := 0 to |AllFunctions|
      invariant sections == SectionsUpTo(rs, k)
    {
      var fn := AllFunctions[k];
      var items := ItemsFor(rs, fn);
      if |items| == 0 {
        continue;
      }
      sections := sections + [Section(fn, items)];
    }
  }

  /** Every section is non-empty, holds exactly its function's answers, and its function comes from the first `k`. */
  lemma {:induction false} SectionsItemsUpTo(rs: seq<ResponseItem>, k: nat)
    requires k <= |AllFunctions|
    ensures var ss := SectionsUpTo(rs, k);
      forall i :: 0 <= i < |ss| ==> |ss[i].items| > 0 && ss[i].items == ItemsFor(rs, ss[i].fn) && Ordinal(ss[i].fn) < k
  {
    if k > 0 {
      SectionsItemsUpTo(rs, k - 1);
      SectionsStep(rs, k);
    }
  }

  /** One step of `SectionsUpTo`: the earlier sections, then possibly one for function `k - 1`. */
  lemma SectionsStep(rs: seq<ResponseItem>, k: nat)
    requires 0 < k <= |AllFunctions|
    ensures var prev := SectionsUpTo(rs, k - 1);
      var ss := SectionsUpTo(rs, k);
      var fn := AllFunctions[k - 1];
      && Ordinal(fn) == k - 1
      && ss[..|prev|] == prev
      && (|ItemsFor(rs, fn)| == 0 ==> ss == prev)
      && (|ItemsFor(rs, fn)| > 0 ==> |ss| == |prev| + 1 && ss[|prev|] == Section(fn, ItemsFor(rs, fn)))
  {
    var fn := AllFunctions[k - 1];
    assert Ordinal(fn) == k - 1;
  }

  /** Sections follow the fixed function order. */
  lemma {:induction false} SectionsOrderedUpTo(rs: seq<ResponseItem>, k: nat)
    requires k <= |AllFunctions|
    ensures var ss := SectionsUpTo(rs, k);
      forall i, j :: 0 <= i < j < |ss| ==> Ordinal(ss[i].fn) < Ordinal(ss[j].fn)
  {
    if k > 0 {
      SectionsOrderedUpTo(rs, k - 1);
      SectionsItemsUpTo(rs, k - 1);
      SectionsStep(rs, k);
      var prev := SectionsUpTo(rs, k - 1);
      var ss := SectionsUpTo(rs, k);
      forall i, j | 0 <= i < j < |ss|
        ensures Ordinal(ss[i].fn) < Ordinal(ss[j].fn)
      {
        assert ss[i] == prev[i];
        if j < |prev| {
          assert ss[j] == prev[j];
        }
      }
    }
  }

  /** Some section belongs to `f`. */
  predicate HasSection(ss: seq<Section>, f: NistFunction)
  {
    exists i :: 0 <= i < |ss| && ss[i].fn == f
  }

  /** Among the first `k` functions, a function gets a section iff it has answers. */
  lemma SectionsPresentUpTo(rs: seq<ResponseItem>, k: nat, f: NistFunction)
    requires k <= |AllFunctions|
    ensures HasSection(SectionsUpTo(rs, k), f) <==> Ordinal(f) < k && Count(rs, f) > 0
  {
    for j := 0 to k
      invariant HasSection(SectionsUpTo(rs, j), f) <==> Ordinal(f) < j && Count(rs, f) > 0
    {
      SectionsPresentNext(rs, j, f);
    }
  }

  /** One more function of the fixed order gains a section exactly when it has answers. */
  lemma SectionsPresentNext(rs: seq<ResponseItem>, j: nat, f: NistFunction)
    requires j < |AllFunctions|
    requires HasSection(SectionsUpTo(rs, j), f) <==> Ordinal(f) < j && Count(rs, f) > 0
    ensures HasSection(SectionsUpTo(rs, j + 1), f) <==> Ordinal(f) < j + 1 && Count(rs, f) > 0
  {
    if HasSection(SectionsUpTo(rs, j + 1), f) {
      SectionFound(rs, j, f);
    }
    if Ordinal(f) < j + 1 && Count(rs, f) > 0 {
      SectionMade(rs, j, f);
    }
  }

  /** The sections of the first `j + 1` functions: those of the first `j`, then one more if it has answers. */
  lemma SectionsUpToNext(rs: seq<ResponseItem>, j: nat)
    requires j < |AllFunctions|
    ensures var items := ItemsFor(rs, AllFunctions[j]);
      && |items| == Count(rs, AllFunctions[j])
      && SectionsUpTo(rs, j + 1) == SectionsUpTo(rs, j) + (if |items| == 0 then [] else [Section(AllFunctions[j], items)])
  {
  }

  /** A section found among the first `j + 1` functions belongs to a function with answers. */
  lemma SectionFound(rs: seq<ResponseItem>, j: nat, f: NistFunction)
    requires j < |AllFunctions|
    requires HasSection(SectionsUpTo(rs, j), f) ==> Ordinal(f) < j && Count(rs, f) > 0
    requires HasSection(SectionsUpTo(rs, j + 1), f)
    ensures Ordinal(f) < j + 1 && Count(rs, f) > 0
  {
    SectionsUpToNext(rs, j);
    var prev := SectionsUpTo(rs, j);
    var ss := SectionsUpTo(rs, j + 1);
    var i :| 0 <= i < |ss| && ss[i].fn == f;
    if i < |prev| {
      assert prev[i].fn == f;
    } else {
      assert f == AllFunctions[j] && Count(rs, f) > 0;
    }
  }

  /** A function among the first `j + 1` that has answers has a section. */
  lemma SectionMade(rs: seq<ResponseItem>, j: nat, f: NistFunction)
    requires j < |AllFunctions|
    requires Ordinal(f) < j && Count(rs, f) > 0 ==> HasSection(SectionsUpTo(rs, j), f)
    requires Ordinal(f) < j + 1 && Count(rs, f) > 0
    ensures HasSection(SectionsUpTo(rs, j + 1), f)
  {
    SectionsUpToNext(rs, j);
    var prev := SectionsUpTo(rs, j);
    var ss := SectionsUpTo(rs, j + 1);
    if f == AllFunctions[j] {
      assert ss[|prev|].fn == f;
    } else {
      assert Ordinal(f) != j;
      var i :| 0 <= i < |prev| && prev[i].fn == f;
      assert ss[i].fn == f;
    }
  }

  /**
   * Every section is non-empty and holds exactly its function's answers,
   * sections follow the fixed function order, and a function gets a section
   * iff it occurs in the answers.
   */
  lemma SectionsShape(rs: seq<ResponseItem>)
    ensures var ss := Sections(rs);
      && (forall i :: 0 <= i < |ss| ==> |ss[i].items| > 0 && ss[i].items == ItemsFor(rs, ss[i].fn))
      && (forall i, j :: 0 <= i < j < |ss| ==> Ordinal(ss[i].fn) < Ordinal(ss[j].fn))
      && (forall f :: (exists i :: 0 <= i < |ss| && ss[i].fn == f) <==> f in FunctionsOf(rs))
  {
    var ss := Sections(rs);
    assert ss == SectionsUpTo(rs, |AllFunctions|);
    SectionsItemsUpTo(rs, |AllFunctions|);
    SectionsOrderedUpTo(rs, |AllFunctions|);
    forall f
      ensures (exists i :: 0 <= i < |ss| && ss[i].fn == f) <==> f in FunctionsOf(rs)
    {
      SectionsPresentUpTo(rs, |AllFunctions|, f);
      CountPositive(rs, |rs|, f);
      assert FunctionsOf(rs)[..|rs|] == FunctionsOf(rs);
    }
  }

  function SectionSizes(ss: seq<Section>): nat
  {
    if ss == [] then 0 else |ss[0].items| + SectionSizes(ss[1..])
  }

  lemma {:induction false} SectionSizesAppend(a: seq<Section>, b: seq<Section>)
    ensures SectionSizes(a + b) == SectionSizes(a) + SectionSizes(b)
  {
    if a == [] {
      assert a + b == b;
    } else {
      assert (a + b)[1..] == a[1..] + b;
      SectionSizesAppend(a[1..], b);
    }
  }

  /** How many answers the first `k` functions of the fixed order hold together. */
  function CountFirstFunctions(rs: seq<ResponseItem>, k: nat): nat
    requires k <= |AllFunctions|
  {
    if k == 0 then 0 else CountFirstFunctions(rs, k - 1) + Count(rs, AllFunctions[k - 1])
  }

  lemma {:induction false} SectionSizesUpTo(rs: seq<ResponseItem>, k: nat)
    requires k <= |AllFunctions|
    ensures SectionSizes(SectionsUpTo(rs, k)) == CountFirstFunctions(rs, k)
  {
    if k > 0 {
      SectionSizesUpTo(rs, k - 1);
      var fn := AllFunctions[k - 1];
      var items := ItemsFor(rs, fn);
      var tail := if |items| == 0 then [] else [Section(fn, items)];
      SectionSizesAppend(SectionsUpTo(rs, k - 1), tail);
      assert SectionSizes(tail) == |items| by {
        if |items| > 0 {
          assert tail[1..] == [];
        }
      }
    }
  }

  /** Every answer falls under exactly one of the six functions. */
  lemma {:induction false} CountsPartition(rs: seq<ResponseItem>, n: nat)
    requires n <= |rs|
    ensures CountUpTo(rs, n, GOVERN) + CountUpTo(rs, n, IDENTIFY) + CountUpTo(rs, n, PROTECT)
      + CountUpTo(rs, n, DETECT) + CountUpTo(rs, n, RESPOND) + CountUpTo(rs, n, RECOVER) == n
  {
    if n > 0 {
      CountsPartition(rs, n - 1);
    }
  }

  /** The answers of the sections, one section after another. */
  function SectionItems(ss: seq<Section>): seq<ResponseItem>
  {
    if ss == [] then [] else SectionItems(ss[..|ss| - 1]) + ss[|ss| - 1].items
  }

  /** The answers among the first `n` that belong to one of the first `k` functions of the fixed order. */
  ghost function FilteredUpTo(rs: seq<ResponseItem>, n: nat, k: nat): multiset<ResponseItem>
    requires n <= |rs| && k <= |AllFunctions|
  {
    if k == 0 then multiset{} else FilteredUpTo(rs, n, k - 1) + multiset(ItemsUpTo(rs, n, AllFunctions[k - 1]))
  }

  /** What an answer whose function has ordinal `o` adds to the filtered answers of the first `k` functions. */
  ghost function Joined(x: ResponseItem, o: nat, k: nat): multiset<ResponseItem>
  {
    if o < k then multiset{x} else multiset{}
  }

  /** One more answer joins the filtered answers exactly when its function is among the first `k`. */
  lemma FilteredStep(rs: seq<ResponseItem>, n: nat, k: nat)
    requires n < |rs| && k <= |AllFunctions|
    ensures Ordinal(rs[n].meta.nistFunction) < k ==> FilteredUpTo(rs, n + 1, k) == FilteredUpTo(rs, n, k) + multiset{rs[n]}
    ensures Ordinal(rs[n].meta.nistFunction) >= k ==> FilteredUpTo(rs, n + 1, k) == FilteredUpTo(rs, n, k)
  {
    FilteredJoined(rs, n, k, Ordinal(rs[n].meta.nistFunction));
  }

  lemma FilteredJoined(rs: seq<ResponseItem>, n: nat, k: nat, o: nat)
    requires n < |rs| && k <= |AllFunctions| && o == Ordinal(rs[n].meta.nistFunction)
    ensures FilteredUpTo(rs, n + 1, k) == FilteredUpTo(rs, n, k) + Joined(rs[n], o, k)
  {
    for j := 0 to k
      invariant FilteredUpTo(rs, n + 1, j) == FilteredUpTo(rs, n, j) + Joined(rs[n], o, j)
    {
      FilteredNext(rs, n, j, o);
    }
  }

  lemma FilteredNext(rs: seq<ResponseItem>, n: nat, j: nat, o: nat)
    requires n < |rs| && j < |AllFunctions| && o == Ordinal(rs[n].meta.nistFunction)
    requires FilteredUpTo(rs, n + 1, j) == FilteredUpTo(rs, n, j) + Joined(rs[n], o, j)
    ensures FilteredUpTo(rs, n + 1, j + 1) == FilteredUpTo(rs, n, j + 1) + Joined(rs[n], o, j + 1)
  {
    if o == j {
      FilteredJoins(rs, n, j);
    } else if o < j {
      FilteredKeeps(rs, n, j);
    } else {
      FilteredSkips(rs, n, j);
    }
  }

  /** The answer's own function adds it to the filtered answers. */
  lemma FilteredJoins(rs: seq<ResponseItem>, n: nat, j: nat)
    requires n < |rs| && j < |AllFunctions| && Ordinal(rs[n].meta.nistFunction) == j
    requires FilteredUpTo(rs, n + 1, j) == FilteredUpTo(rs, n, j)
    ensures FilteredUpTo(rs, n + 1, j + 1) == FilteredUpTo(rs, n, j + 1) + multiset{rs[n]}
  {
    var g := AllFunctions[j];
    var before := ItemsUpTo(rs, n, g);
    assert ItemsUpTo(rs, n + 1, g) == before + [rs[n]];
    AddOne(FilteredUpTo(rs, n, j), before, rs[n]);
  }

  /** Another function's filter ignores the answer once it has been counted. */
  lemma FilteredKeeps(rs: seq<ResponseItem>, n: nat, j: nat)
    requires n < |rs| && j < |AllFunctions| && Ordinal(rs[n].meta.nistFunction) < j
    requires FilteredUpTo(rs, n + 1, j) == FilteredUpTo(rs, n, j) + multiset{rs[n]}
    ensures FilteredUpTo(rs, n + 1, j + 1) == FilteredUpTo(rs, n, j + 1) + multiset{rs[n]}
  {
    var g := AllFunctions[j];
    assert rs[n].meta.nistFunction != g;
    assert ItemsUpTo(rs, n + 1, g) == ItemsUpTo(rs, n, g);
  }

  /** Another function's filter ignores the answer before its own function is reached. */
  lemma FilteredSkips(rs: seq<ResponseItem>, n: nat, j: nat)
    requires n < |rs| && j < |AllFunctions| && Ordinal(rs[n].meta.nistFunction) > j
    requires FilteredUpTo(rs, n + 1, j) == FilteredUpTo(rs, n, j)
    ensures FilteredUpTo(rs, n + 1, j + 1) == FilteredUpTo(rs, n, j + 1)
  {
    var g := AllFunctions[j];
    assert rs[n].meta.nistFunction != g;
    assert ItemsUpTo(rs, n + 1, g) == ItemsUpTo(rs, n, g);
  }

  lemma AddOne<T>(m: multiset<T>, s: seq<T>, x: T)
    ensures m + multiset(s + [x]) == (m + multiset(s)) + multiset{x}
  {
    assert multiset(s + [x]) == multiset(s) + multiset{x};
  }

  lemma PrefixMultiset<T>(s: seq<T>, n: nat)
    requires 0 < n <= |s|
    ensures multiset(s[..n]) == multiset(s[..n - 1]) + multiset{s[n - 1]}
  {
    assert s[..n] == s[..n - 1] + [s[n - 1]];
  }

  /** With no answers walked, nothing is filtered. */
  lemma {:induction false} FilteredNone(rs: seq<ResponseItem>, k: nat)
    requires k <= |AllFunctions|
    ensures FilteredUpTo(rs, 0, k) == multiset{}
  {
    if k > 0 {
      FilteredNone(rs, k - 1);
    }
  }

  /** The first `n` elements of `s` as a multiset, built one element at a time. */
  ghost function MultisetUpTo<T>(s: seq<T>, n: nat): multiset<T>
    requires n <= |s|
  {
    if n == 0 then multiset{} else MultisetUpTo(s, n - 1) + multiset{s[n - 1]}
  }

  lemma {:induction false} MultisetUpToAll<T>(s: seq<T>, n: nat)
    requires n <= |s|
    ensures MultisetUpTo(s, n) == multiset(s[..n])
  {
    if n > 0 {
      MultisetUpToAll(s, n - 1);
      PrefixMultiset(s, n);
    }
  }

  /** Every answer belongs to exactly one of the six functions. */
  lemma FilteredAll(rs: seq<ResponseItem>, n: nat, k: nat)
    requires n <= |rs| && k == |AllFunctions|
    ensures FilteredUpTo(rs, n, k) == MultisetUpTo(rs, n)
  {
    FilteredNone(rs, k);
    for m := 0 to n
      invariant FilteredUpTo(rs, m, k) == MultisetUpTo(rs, m)
    {
      FilteredAllStep(rs, m, k);
    }
  }

  lemma FilteredAllStep(rs: seq<ResponseItem>, m: nat, k: nat)
    requires m < |rs| && k == |AllFunctions|
    requires FilteredUpTo(rs, m, k) == MultisetUpTo(rs, m)
    ensures FilteredUpTo(rs, m + 1, k) == MultisetUpTo(rs, m + 1)
  {
    assert Ordinal(rs[m].meta.nistFunction) < k;
    FilteredStep(rs, m, k);
  }

  /** The sections of the first `k` functions hold exactly those functions' answers. */
  lemma SectionItemsUpTo(rs: seq<ResponseItem>, k: nat)
    requires k <= |AllFunctions|
    ensures multiset(SectionItems(SectionsUpTo(rs, k))) == FilteredUpTo(rs, |rs|, k)
  {
    for j := 0 to k
      invariant multiset(SectionItems(SectionsUpTo(rs, j))) == FilteredUpTo(rs, |rs|, j)
    {
      SectionItemsStep(rs, j);
    }
  }

  /** One more function appends its answers to the sections' answers (nothing when it has none). */
  lemma SectionItemsNext(rs: seq<ResponseItem>, j: nat)
    requires j < |AllFunctions|
    ensures SectionItems(SectionsUpTo(rs, j + 1)) == SectionItems(SectionsUpTo(rs, j)) + ItemsFor(rs, AllFunctions[j])
  {
    var prev := SectionsUpTo(rs, j);
    var fn := AllFunctions[j];
    var items := ItemsFor(rs, fn);
    if |items| > 0 {
      var next := prev + [Section(fn, items)];
      assert SectionsUpTo(rs, j + 1) == next;
      assert next[..|prev|] == prev;
    } else {
      assert SectionsUpTo(rs, j + 1) == prev;
    }
  }

  lemma SectionItemsStep(rs: seq<ResponseItem>, j: nat)
    requires j < |AllFunctions|
    requires multiset(SectionItems(SectionsUpTo(rs, j))) == FilteredUpTo(rs, |rs|, j)
    ensures multiset(SectionItems(SectionsUpTo(rs, j + 1))) == FilteredUpTo(rs, |rs|, j + 1)
  {
    SectionItemsNext(rs, j);
    FilteredUpToNext(rs, j);
    AppendMultiset(SectionItems(SectionsUpTo(rs, j)), ItemsFor(rs, AllFunctions[j]), SectionItems(SectionsUpTo(rs, j + 1)),
      FilteredUpTo(rs, |rs|, j), FilteredUpTo(rs, |rs|, j + 1));
  }

  /** Over all the answers, one more function adds exactly its filtered answers. */
  lemma FilteredUpToNext(rs: seq<ResponseItem>, j: nat)
    requires j < |AllFunctions|
    ensures FilteredUpTo(rs, |rs|, j + 1) == FilteredUpTo(rs, |rs|, j) + multiset(ItemsFor(rs, AllFunctions[j]))
  {
  }

  lemma AppendMultiset<T>(a: seq<T>, b: seq<T>, c: seq<T>, m: multiset<T>, m': multiset<T>)
    requires c == a + b && multiset(a) == m && m' == m + multiset(b)
    ensures multiset(c) == m'
  {
  }

  /** The sections' answers are a rearrangement of all the answers. */
  lemma SectionsPermuteAnswers(rs: seq<ResponseItem>)
    ensures multiset(SectionItems(Sections(rs))) == multiset(rs)
  {
    SectionItemsUpTo(rs, |AllFunctions|);
    FilteredAll(rs, |rs|, |AllFunctions|);
    MultisetUpToAll(rs, |rs|);
    assert rs[..|rs|] == rs;
  }

  /** The sections together show every answer exactly once. */
  lemma SectionsCoverAnswers(rs: seq<ResponseItem>)
    ensures SectionSizes(Sections(rs)) == |rs|
    ensures multiset(SectionItems(Sections(rs))) == multiset(rs)
  {
    SectionsTotalSize(rs);
    SectionsPermuteAnswers(rs);
  }

  /** The section sizes add up to the number of answers. */
  lemma SectionsTotalSize(rs: seq<ResponseItem>)
    ensures SectionSizes(Sections(rs)) == |rs|
  {
    SectionSizesUpTo(rs, |AllFunctions|);
    CountsPartition(rs, |rs|);
    assert CountFirstFunctions(rs, 1) == Count(rs, GOVERN);
    assert CountFirstFunctions(rs, 2) == CountFirstFunctions(rs, 1) + Count(rs, IDENTIFY);
    assert CountFirstFunctions(rs, 3) == CountFirstFunctions(rs, 2) + Count(rs, PROTECT);
    assert CountFirstFunctions(rs, 4) == CountFirstFunctions(rs, 3) + Count(rs, DETECT);
    assert CountFirstFunctions(rs, 5) == CountFirstFunctions(rs, 4) + Count(rs, RESPOND);
    assert CountFirstFunctions(rs, 6) == CountFirstFunctions(rs, 5) + Count(rs, RECOVER);
  }

  // ---------------------------------------------------------------------
  // Summary page
  // ---------------------------------------------------------------------

  /** Sum of the maturities of the first `n` answers (the `reduce`). */
  function ScoreUpTo(rs: seq<ResponseItem>, n: nat): int
    requires n <= |rs|
  {
    if n == 0 then 0 else ScoreUpTo(rs, n - 1) + rs[n - 1].maturity
  }

  lemma {:induction false} ScoreBounds(rs: seq<ResponseItem>, n: nat)
    requires n <= |rs|
    ensures 0 <= ScoreUpTo(rs, n) <= 4 * n
  {
    if n > 0 {
      ScoreBounds(rs, n - 1);
    }
  }

  /** The summary's score is the sum of the six functions' rating totals. */
  lemma {:induction false} ScoreByFunction(rs: seq<ResponseItem>, n: nat)
    requires n <= |rs|
    ensures ScoreUpTo(rs, n) == TotalUpTo(rs, n, GOVERN) + TotalUpTo(rs, n, IDENTIFY) + TotalUpTo(rs, n, PROTECT)
      + TotalUpTo(rs, n, DETECT) + TotalUpTo(rs, n, RESPOND) + TotalUpTo(rs, n, RECOVER)
  {
    if n > 0 {
      ScoreByFunction(rs, n - 1);
    }
  }

  /** `Math.round` on a non-negative value: the nearest integer, halves rounded up. */
  function RoundHalfUp(x: real): (r: int)
    ensures x - 0.5 < r as real <= x + 0.5
  {
    (x + 0.5).Floor
  }

  datatype ScoreSummary = ScoreSummary(totalQuestions: nat, totalScore: int, maxScore: int, avg: real, pct: int)

  function Summarize(rs: seq<ResponseItem>): (s: ScoreSummary)
    ensures s.totalQuestions == |rs| && s.maxScore == 4 * |rs|
    ensures s.totalScore == ScoreUpTo(rs, |rs|)
    ensures |rs| > 0 ==> s.avg == s.totalScore as real / |rs| as real
    ensures 0 <= s.totalScore <= s.maxScore
    ensures |rs| == 0 ==> s.avg == 0.0 && s.pct == 0
    ensures 0.0 <= s.avg <= 4.0 && 0 <= s.pct <= 100
    ensures |rs| > 0 ==> s.pct == (50 * s.totalScore + |rs|) / (2 * |rs|)
  {
    var n := |rs|;
    var total := ScoreUpTo(rs, n);
    var avg := if n != 0 then total as real / n as real else 0.0;
    ScoreBounds(rs, n);
    AvgBounds(total, n);
    PercentRounding(total, n);
    ScoreSummary(n, total, n * 4, avg, RoundHalfUp((avg / 4.0) * 100.0))
  }

  lemma AvgBounds(total: int, n: nat)
    requires 0 <= total <= 4 * n
    ensures 0.0 <= (if n != 0 then total as real / n as real else 0.0) <= 4.0
  {
    if n != 0 {
      MeanBounds(total, n);
    }
  }

  /** The float formula equals the integer one: round(25 * total / n) == (50 * total + n) div (2n). */
  lemma PercentRounding(total: int, n: nat)
    requires 0 <= total <= 4 * n
    ensures var avg := if n != 0 then total as real / n as real else 0.0;
      && (n == 0 ==> RoundHalfUp((avg / 4.0) * 100.0) == 0)
      && (n > 0 ==> RoundHalfUp((avg / 4.0) * 100.0) == (50 * total + n) / (2 * n))
      && 0 <= RoundHalfUp((avg / 4.0) * 100.0) <= 100
  {
    if n > 0 {
      var avg := total as real / n as real;
      var d := 2 * n;
      var a := 50 * total + n;
      var x := (avg / 4.0) * 100.0 + 0.5;
      assert x == a as real / d as real by {
        DivMul(total as real, n as real);
        DivMul(a as real, d as real);
        assert x == 25.0 * avg + 0.5;
        assert x * d as real == 50.0 * (avg * n as real) + n as real;
        assert x * d as real == a as real;
        RealCancel(x, a as real / d as real, d as real);
      }
      FloorOfRatio(a, d);
      assert a / d <= 100 by {
        assert a < 101 * d;
        DivLess(a, d, 101);
      }
    }
  }

  lemma DivLess(a: int, d: int, c: int)
    requires 0 <= a && d > 0 && a < c * d
    ensures a / d < c
  {
    var q := a / d;
    assert q * d <= a;
  }

  lemma RealCancel(x: real, y: real, d: real)
    requires d > 0.0 && x * d == y * d
    ensures x == y
  {
    assert (x - y) * d == 0.0;
  }

  /** The quotient is determined by any decomposition with a remainder in range. */
  lemma DivUnique(a: int, d: int, q: int, r: int)
    requires d > 0 && a == q * d + r && 0 <= r < d
    ensures a / d == q
  {
    var q' := a / d;
    var r' := a % d;
    assert a == q' * d + r';
    assert (q - q') * d == r' - r;
    SmallMultiple(q - q', d);
  }

  lemma SmallMultiple(k: int, d: int)
    requires d > 0 && -d < k * d < d
    ensures k == 0
  {
  }

  /** The floor of a ratio of integers is their (Euclidean) integer quotient. */
  lemma FloorOfRatio(a: int, d: int)
    requires d > 0
    ensures (a as real / d as real).Floor == a / d
  {
    var q := a / d;
    var r := a % d;
    assert a == q * d + r && 0 <= r < d;
    var x := a as real / d as real;
    DivMul(a as real, d as real);
    DivBelow(a as real, d as real, (q + 1) as real);
    assert a as real < (q + 1) as real * d as real;
    DivBelow(a as real, d as real, q as real);
    assert !(a as real < q as real * d as real);
  }

  /** Every answer at level 4 scores 100 percent. */
  lemma AllFoursScoreFull(rs: seq<ResponseItem>)
    requires |rs| > 0
    requires forall i :: 0 <= i < |rs| ==> rs[i].maturity == 4
    ensures Summarize(rs).pct == 100
  {
    UniformScore(rs, |rs|, 4);
    var n := |rs|;
    DivUnique(50 * (4 * n) + n, 2 * n, 100, n);
  }

  /** Every answer at level 0 scores 0 percent. */
  lemma AllZerosScoreNothing(rs: seq<ResponseItem>)
    requires forall i :: 0 <= i < |rs| ==> rs[i].maturity == 0
    ensures Summarize(rs).pct == 0 && Summarize(rs).totalScore == 0
  {
    UniformScore(rs, |rs|, 0);
    if |rs| > 0 {
      DivUnique(|rs|, 2 * |rs|, 0, |rs|);
    }
  }

  lemma {:induction false} UniformScore(rs: seq<ResponseItem>, n: nat, m: int)
    requires n <= |rs|
    requires forall i :: 0 <= i < |rs| ==> rs[i].maturity == m
    ensures ScoreUpTo(rs, n) == m * n
  {
    if n > 0 {
      UniformScore(rs, n - 1, m);
    }
  }
}
