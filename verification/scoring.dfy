/**
 * The scoring engine of the report: risk classification of a rating,
 * inherent/residual risk tallies, per-function maturity averages, the
 * observation text of the compliance table, the static risk matrix and the
 * percentages of the risk dashboards.
 */
module Scoring {
  import opened Api

  datatype RiskLevel = Sustainable | Moderate | Severe | Critical

  /** Bucket order of the dashboards; also the severity scale of the risk matrix, least severe first. */
  const Levels: seq<RiskLevel> := [Sustainable, Moderate, Severe, Critical]

  /** Severity rank of a level: its position in Levels. */
  function Rank(l: RiskLevel): (k: nat)
    ensures k < |Levels| && Levels[k] == l
  {
    match l
    case Sustainable => 0
    case Moderate => 1
    case Severe => 2
    case Critical => 3
  }

  function Clamp(x: int, lo: int, hi: int): int
    requires lo <= hi
  {
    if x < lo then lo else if x > hi then hi else x
  }

  /** `classifyRisk`: the threshold chain 4 / 3 / 2 / below, total on every integer. */
  function ClassifyRisk(m: int): (l: RiskLevel)
    ensures Rank(l) == Clamp(4 - m, 0, 3)
  {
    if m >= 4 then Sustainable
    else if m == 3 then Moderate
    else if m == 2 then Severe
    else Critical
  }

  /** The rating raised by one level and capped at 4 (assumed mitigation in progress). */
  function Residual(m: int): (r: int)
    ensures r <= 4 && r <= m + 1
    ensures r == 4 || r == m + 1
  {
    if 4 < m + 1 then 4 else m + 1
  }

  /** A higher rating is never classified as more severe. */
  lemma ClassifyRiskMonotone(m1: int, m2: int)
    requires m1 <= m2
    ensures Rank(ClassifyRisk(m2)) <= Rank(ClassifyRisk(m1))
  {
  }

  /** Residual risk is never more severe than inherent risk, and is one level lower for ratings 1..3. */
  lemma ResidualNoMoreSevere(m: int)
    ensures Rank(ClassifyRisk(Residual(m))) <= Rank(ClassifyRisk(m))
    ensures 1 <= m <= 3 ==> Rank(ClassifyRisk(Residual(m))) == Rank(ClassifyRisk(m)) - 1
  {
  }

  // ---------------------------------------------------------------------
  // Risk counts
  // ---------------------------------------------------------------------

  function Classify(m: int, residual: bool): RiskLevel
  {
    if residual then ClassifyRisk(Residual(m)) else ClassifyRisk(m)
  }

  /** How many of the first n answers fall into bucket `l` (inherent or residual view). */
  function TallyUpTo(rs: seq<ResponseItem>, n: nat, l: RiskLevel, residual: bool): nat
    requires n <= |rs|
  {
    if n == 0 then 0
    else TallyUpTo(rs, n - 1, l, residual) + (if Classify(rs[n - 1].maturity, residual) == l then 1 else 0)
  }

  /** How many answers fall into bucket `l`. */
  function Tally(rs: seq<ResponseItem>, l: RiskLevel, residual: bool): nat
  {
    TallyUpTo(rs, |rs|, l, residual)
  }

  datatype RiskCounts = RiskCounts(
    inherent: map<RiskLevel, nat>,
    residual: map<RiskLevel, nat>,
    levels: seq<RiskLevel>)

  /** All four buckets are present in both records and each holds the tally of its level. */
  ghost predicate CountsOf(rs: seq<ResponseItem>, c: RiskCounts)
  {
    && c.levels == Levels
    && (forall l :: l in c.inherent && c.inherent[l] == Tally(rs, l, false))
    && (forall l :: l in c.residual && c.residual[l] == Tally(rs, l, true))
  }

  method ComputeRiskCounts(rs: seq<ResponseItem>) returns (c: RiskCounts)
    ensures CountsOf(rs, c)
  {
    var inherent := map[Sustainable := 0, Moderate := 0, Severe := 0, Critical := 0];
    var residual := map[Sustainable := 0, Moderate := 0, Severe := 0, Critical := 0];
    forall l ensures l in inherent && l in residual {
      assert l == Levels[Rank(l)];
    }
    var i := 0;
    while i < |rs|
      invariant 0 <= i <= |rs|
      invariant forall l :: l in inherent && inherent[l] == TallyUpTo(rs, i, l, false)
      invariant forall l :: l in residual && residual[l] == TallyUpTo(rs, i, l, true)
    {
      var a := ClassifyRisk(rs[i].maturity);
      inherent := inherent[a := inherent[a] + 1];
      var b := ClassifyRisk(Residual(rs[i].maturity));
      residual := residual[b := residual[b] + 1];
      i := i + 1;
    }
    c := RiskCounts(inherent, residual, Levels);
  }

  function BucketSum(rs: seq<ResponseItem>, n: nat, residual: bool): nat
    requires n <= |rs|
  {
    TallyUpTo(rs, n, Sustainable, residual) + TallyUpTo(rs, n, Moderate, residual)
      + TallyUpTo(rs, n, Severe, residual) + TallyUpTo(rs, n, Critical, residual)
  }

  /** Each view's four buckets together count every one of the first n answers exactly once. */
  lemma {:induction false} BucketsCoverAll(rs: seq<ResponseItem>, n: nat, residual: bool)
    requires n <= |rs|
    ensures BucketSum(rs, n, residual) == n
  {
    if n > 0 {
      BucketsCoverAll(rs, n - 1, residual);
    }
  }

  /** With every rating 0, every one of the first n answers is Critical, inherent and residual alike. */
  lemma {:induction false} AllZeroAllCritical(rs: seq<ResponseItem>, n: nat)
    requires n <= |rs|
    requires forall i :: 0 <= i < |rs| ==> rs[i].maturity == 0
    ensures TallyUpTo(rs, n, Critical, false) == n
    ensures TallyUpTo(rs, n, Critical, true) == n
  {
    if n > 0 {
      AllZeroAllCritical(rs, n - 1);
    }
  }

  // ---------------------------------------------------------------------
  // Risk dashboards
  // ---------------------------------------------------------------------

  /** `obj[l] || 0` */
  function BucketOf(obj: map<RiskLevel, nat>, l: RiskLevel): nat
  {
    if l in obj then obj[l] else 0
  }

  /** Sum of the inherent record's values, or 1 when that sum is 0. */
  function DashboardTotal(c: RiskCounts): (t: nat)
    ensures t > 0
  {
    var s := BucketOf(c.inherent, Sustainable) + BucketOf(c.inherent, Moderate)
      + BucketOf(c.inherent, Severe) + BucketOf(c.inherent, Critical);
    if s == 0 then 1 else s
  }

  datatype DashboardRow = DashboardRow(level: RiskLevel, count: nat, percent: real)

  /** One row per level, in `c.levels` order, with the count and its share of the total in percent. */
  function DashboardRows(c: RiskCounts, obj: map<RiskLevel, nat>): seq<DashboardRow>
  {
    seq(|c.levels|, i requires 0 <= i < |c.levels| =>
      DashboardRow(c.levels[i], BucketOf(obj, c.levels[i]),
        100.0 * BucketOf(obj, c.levels[i]) as real / DashboardTotal(c) as real))
  }

  function PercentSum(rows: seq<DashboardRow>): real
  {
    if rows == [] then 0.0 else rows[0].percent + PercentSum(rows[1..])
  }

  /** The percentage column of each dashboard sums to exactly 100 when there is at least one answer. */
  lemma DashboardPercentages(rs: seq<ResponseItem>, c: RiskCounts)
    requires CountsOf(rs, c)
    requires |rs| > 0
    ensures PercentSum(DashboardRows(c, c.inherent)) == 100.0
    ensures PercentSum(DashboardRows(c, c.residual)) == 100.0
  {
    BucketsCoverAll(rs, |rs|, false);
    BucketsCoverAll(rs, |rs|, true);
    ShareSum(c, c.inherent);
    ShareSum(c, c.residual);
  }

  lemma ShareSum(c: RiskCounts, obj: map<RiskLevel, nat>)
    requires c.levels == Levels
    requires BucketOf(obj, Sustainable) + BucketOf(obj, Moderate) + BucketOf(obj, Severe) + BucketOf(obj, Critical)
      == DashboardTotal(c)
    ensures PercentSum(DashboardRows(c, obj)) == 100.0
  {
    var rows := DashboardRows(c, obj);
    var t := DashboardTotal(c) as real;
    PercentSumOfFour(rows);
    SharesAddUp(BucketOf(obj, Sustainable) as real, BucketOf(obj, Moderate) as real,
      BucketOf(obj, Severe) as real, BucketOf(obj, Critical) as real, t);
  }

  lemma PercentSumOfFour(rows: seq<DashboardRow>)
    requires |rows| == 4
    ensures PercentSum(rows) == rows[0].percent + rows[1].percent + rows[2].percent + rows[3].percent
  {
    var last := rows[1..][1..][1..];
    assert last[1..] == [];
    assert PercentSum(last) == rows[3].percent + PercentSum(last[1..]);
  }

  lemma SharesAddUp(a: real, b: real, c: real, d: real, t: real)
    requires t > 0.0 && a + b + c + d == t
    ensures 100.0 * a / t + 100.0 * b / t + 100.0 * c / t + 100.0 * d / t == 100.0
  {
    assert 100.0 * a / t + 100.0 * b / t + 100.0 * c / t + 100.0 * d / t == 100.0 * (a + b + c + d) / t;
  }

  // ---------------------------------------------------------------------
  // Per-function averages
  // ---------------------------------------------------------------------

  /** Sum of the ratings among the first n answers that are tagged `f`. */
  function TotalUpTo(rs: seq<ResponseItem>, n: nat, f: NistFunction): int
    requires n <= |rs|
  {
    if n == 0 then 0
    else TotalUpTo(rs, n - 1, f) + (if rs[n - 1].meta.nistFunction == f then rs[n - 1].maturity else 0)
  }

  /** Number of answers among the first n that are tagged `f`. */
  function CountUpTo(rs: seq<ResponseItem>, n: nat, f: NistFunction): nat
    requires n <= |rs|
  {
    if n == 0 then 0
    else CountUpTo(rs, n - 1, f) + (if rs[n - 1].meta.nistFunction == f then 1 else 0)
  }

  function Total(rs: seq<ResponseItem>, f: NistFunction): int
  {
    TotalUpTo(rs, |rs|, f)
  }

  function Count(rs: seq<ResponseItem>, f: NistFunction): nat
  {
    CountUpTo(rs, |rs|, f)
  }

  /** `v.count ? v.total / v.count : 0` */
  function Mean(total: int, count: nat): real
  {
    if count != 0 then total as real / count as real else 0.0
  }

  datatype FnAverage = FnAverage(fn: NistFunction, avg: real)

  /** The averages record as (key, value) entries in key-insertion order. */
  function AveragesOf(rs: seq<ResponseItem>): seq<FnAverage>
  {
    var keys := FirstSeen(FunctionsOf(rs));
    seq(|keys|, i requires 0 <= i < |keys| => FnAverage(keys[i], Mean(Total(rs, keys[i]), Count(rs, keys[i]))))
  }

  /** One more answer adds its rating and one to its own function's tallies and changes no other. */
  lemma UpToStep(rs: seq<ResponseItem>, n: nat)
    requires n < |rs|
    ensures forall g :: TotalUpTo(rs, n + 1, g) == TotalUpTo(rs, n, g) + (if rs[n].meta.nistFunction == g then rs[n].maturity else 0)
    ensures forall g :: CountUpTo(rs, n + 1, g) == CountUpTo(rs, n, g) + (if rs[n].meta.nistFunction == g then 1 else 0)
  {
  }

  /** A `{ total, count }` accumulator. */
  datatype Acc = Acc(total: int, count: nat)

  method ComputeFunctionAveragesLocal(rs: seq<ResponseItem>) returns (out: seq<FnAverage>)
    ensures out == AveragesOf(rs)
  {
    var acc, keys := AccumulateByFunction(rs);
    out := [];
    var j := 0;
    while j < |keys|
      invariant 0 <= j <= |keys|
      invariant |out| == j
      invariant forall n :: 0 <= n < j ==> out[n] == FnAverage(keys[n], Mean(Total(rs, keys[n]), Count(rs, keys[n])))
    {
      var v := acc[keys[j]];
      out := out + [FnAverage(keys[j], if v.count != 0 then v.total as real / v.count as real else 0.0)];
      j := j + 1;
    }
  }

  /** The accumulator after the first n answers: the keys in first-seen order, each holding its total and count. */
  ghost predicate Accumulated(rs: seq<ResponseItem>, n: nat, acc: map<NistFunction, Acc>, keys: seq<NistFunction>)
    requires n <= |rs|
  {
    && keys == FirstSeen(FunctionsOf(rs)[..n])
    && (forall k :: k in acc <==> k in keys)
    && (forall k :: k in acc ==> acc[k] == Acc(TotalUpTo(rs, n, k), CountUpTo(rs, n, k)))
    && (forall k :: k !in acc ==> TotalUpTo(rs, n, k) == 0 && CountUpTo(rs, n, k) == 0)
  }

  /**
   * One loop step keeps the accumulator in step with the answers read so far:
   * the answer's function gains an entry if it had none (and joins the key
   * order), its entry gains the rating and one, and no other entry changes.
   */
  lemma AccumulateStep(rs: seq<ResponseItem>, n: nat, acc: map<NistFunction, Acc>, keys: seq<NistFunction>,
                       acc': map<NistFunction, Acc>, keys': seq<NistFunction>)
    requires n < |rs| && Accumulated(rs, n, acc, keys)
    requires var k := rs[n].meta.nistFunction;
      && keys' == (if k in acc then keys else keys + [k])
      && (forall g :: g in acc' <==> g in acc || g == k)
      && (forall g :: g in acc' && g != k ==> acc'[g] == acc[g])
      && acc'[k] == (if k in acc then Acc(acc[k].total + rs[n].maturity, acc[k].count + 1) else Acc(rs[n].maturity, 1))
    ensures Accumulated(rs, n + 1, acc', keys')
  {
    FirstSeenStep(FunctionsOf(rs), n);
    UpToStep(rs, n);
  }

  /** The accumulation loop: one `{ total, count }` per function, keys in insertion order. */
  method AccumulateByFunction(rs: seq<ResponseItem>) returns (acc: map<NistFunction, Acc>, keys: seq<NistFunction>)
    ensures keys == FirstSeen(FunctionsOf(rs))
    ensures forall k :: k in acc <==> k in keys
    ensures forall k :: k in acc ==> acc[k] == Acc(Total(rs, k), Count(rs, k))
  {
    acc := map[];
    keys := [];
    for i := 0 to |rs|
      invariant Accumulated(rs, i, acc, keys)
    {
      ghost var acc0, keys0 := acc, keys;
      var k := rs[i].meta.nistFunction;
      if k !in acc {
        acc := acc[k := Acc(0, 0)];
        keys := keys + [k];
      }
      acc := acc[k := Acc(acc[k].total + rs[i].maturity, acc[k].count + 1)];
      AccumulateStep(rs, i, acc0, keys0, acc, keys);
    }
    assert FunctionsOf(rs)[..|rs|] == FunctionsOf(rs);
  }

  /** `Object.fromEntries` over the accumulator: each key with its mean, in key order. */
  function EntriesOf(acc: map<NistFunction, Acc>, keys: seq<NistFunction>): (out: seq<FnAverage>)
    requires forall k :: k in keys ==> k in acc
    ensures |out| == |keys|
  {
    seq(|keys|, j requires 0 <= j < |keys| => FnAverage(keys[j], Mean(acc[keys[j]].total, acc[keys[j]].count)))
  }

  /** A finished accumulator yields exactly the per-function averages of the answers. */
  lemma EntriesOfAccumulated(rs: seq<ResponseItem>, acc: map<NistFunction, Acc>, keys: seq<NistFunction>)
    requires Accumulated(rs, |rs|, acc, keys)
    ensures forall k :: k in keys ==> k in acc
    ensures EntriesOf(acc, keys) == AveragesOf(rs)
  {
    assert FunctionsOf(rs)[..|rs|] == FunctionsOf(rs);
  }

  /** A function has answers among the first n exactly when it tags one of them. */
  lemma {:induction false} CountPositive(rs: seq<ResponseItem>, n: nat, f: NistFunction)
    requires n <= |rs|
    ensures CountUpTo(rs, n, f) > 0 <==> f in FunctionsOf(rs)[..n]
  {
    if n > 0 {
      CountPositive(rs, n - 1, f);
      assert FunctionsOf(rs)[..n] == FunctionsOf(rs)[..n - 1] + [rs[n - 1].meta.nistFunction];
    }
  }

  /** Every rating is in 0..4, so a function's total lies between 0 and 4 times its count. */
  lemma {:induction false} TotalBounds(rs: seq<ResponseItem>, n: nat, f: NistFunction)
    requires n <= |rs|
    ensures 0 <= TotalUpTo(rs, n, f) <= 4 * CountUpTo(rs, n, f)
  {
    if n > 0 {
      TotalBounds(rs, n - 1, f);
    }
  }

  lemma MeanBounds(total: int, count: nat)
    requires 0 <= total <= 4 * count
    ensures 0.0 <= Mean(total, count) <= 4.0
  {
    if count != 0 {
      DivBelow(total as real, count as real, 0.0);
      DivBelow(4.0 * count as real - total as real, count as real, 0.0);
      DivMul(total as real, count as real);
    }
  }

  lemma DivMul(x: real, r: real)
    requires r > 0.0
    ensures (x / r) * r == x
  {
  }

  /** Dividing by a positive r: x / r < c exactly when x < c * r. */
  lemma DivBelow(x: real, r: real, c: real)
    requires r > 0.0
    ensures x / r < c <==> x < c * r
  {
    DivMul(x, r);
    var q := x / r;
    if q < c { assert q * r < c * r; }
    if x < c * r { assert q * r < c * r; }
  }

  function KeysOf(avgs: seq<FnAverage>): (ks: seq<NistFunction>)
    ensures |ks| == |avgs| && forall j :: 0 <= j < |avgs| ==> ks[j] == avgs[j].fn
  {
    seq(|avgs|, j requires 0 <= j < |avgs| => avgs[j].fn)
  }

  /** The averages have exactly one entry per function that occurs in the answers, in first-occurrence order. */
  lemma AveragesKeys(rs: seq<ResponseItem>)
    ensures KeysOf(AveragesOf(rs)) == FirstSeen(FunctionsOf(rs))
    ensures Distinct(KeysOf(AveragesOf(rs)))
    ensures forall f :: f in KeysOf(AveragesOf(rs)) <==> f in FunctionsOf(rs)
  {
    FirstSeenKeys(FunctionsOf(rs));
    assert KeysOf(AveragesOf(rs)) == FirstSeen(FunctionsOf(rs));
  }

  /** Each entry is its function's total divided by its positive count, and lies in [0, 4]. */
  lemma AveragesValues(rs: seq<ResponseItem>, j: nat)
    requires j < |AveragesOf(rs)|
    ensures var e := AveragesOf(rs)[j];
      && Count(rs, e.fn) > 0
      && e.avg == Total(rs, e.fn) as real / Count(rs, e.fn) as real
      && 0.0 <= e.avg <= 4.0
  {
    var fs := FunctionsOf(rs);
    var e := AveragesOf(rs)[j];
    FirstSeenKeys(fs);
    assert e.fn in FirstSeen(fs);
    CountPositive(rs, |rs|, e.fn);
    assert fs[..|rs|] == fs;
    TotalBounds(rs, |rs|, e.fn);
    MeanBounds(Total(rs, e.fn), Count(rs, e.fn));
  }

  /** A function with answers has an entry among the averages, holding its mean. */
  lemma AverageEntry(rs: seq<ResponseItem>, f: NistFunction) returns (j: nat)
    requires Count(rs, f) > 0
    ensures j < |AveragesOf(rs)| && AveragesOf(rs)[j] == FnAverage(f, Mean(Total(rs, f), Count(rs, f)))
  {
    AveragesKeys(rs);
    CountPositive(rs, |rs|, f);
    assert FunctionsOf(rs)[..|rs|] == FunctionsOf(rs);
    assert f in KeysOf(AveragesOf(rs));
    j :| 0 <= j < |AveragesOf(rs)| && KeysOf(AveragesOf(rs))[j] == f;
  }

  /** The 1.5 and 2.5 cut-offs of an average, restated on the integer total and count. */
  lemma MeanThresholds(total: int, count: nat)
    requires count > 0
    ensures Mean(total, count) < 1.5 <==> 2 * total < 3 * count
    ensures Mean(total, count) >= 2.5 <==> 2 * total >= 5 * count
  {
    DivBelow(total as real, count as real, 1.5);
    DivBelow(total as real, count as real, 2.5);
  }

  /** When every answer has the same rating m, each function's total is m times its count. */
  lemma {:induction false} UniformTotals(rs: seq<ResponseItem>, n: nat, m: int, f: NistFunction)
    requires n <= |rs|
    requires forall i :: 0 <= i < |rs| ==> rs[i].maturity == m
    ensures TotalUpTo(rs, n, f) == m * CountUpTo(rs, n, f)
  {
    if n > 0 {
      UniformTotals(rs, n - 1, m, f);
    }
  }

  // ---------------------------------------------------------------------
  // Compliance-table observation
  // ---------------------------------------------------------------------

  const DevelopingText := "Developing capabilities with notable gaps"
  const SolidText := "Solid capability with room to optimize"
  const FallbackGapText := "Needs improvement"

  /** The function-specific gap text; keys other than the six tags get the `default` text. */
  function GapText(fn: string): string
  {
    if fn == "GOVERN" then "Minimal leadership engagement, risk tolerance undefined"
    else if fn == "IDENTIFY" then "Asset inventory incomplete, weak data flow mapping"
    else if fn == "PROTECT" then "Controls inconsistent, MFA/segmentation gaps"
    else if fn == "DETECT" then "No centralized monitoring or alerting"
    else if fn == "RESPOND" then "Basic IR plan, not cloud-specific"
    else if fn == "RECOVER" then "DR planning immature"
    else FallbackGapText
  }

  /** The text names the band back: solid iff avg >= 2.5, developing iff 1.5 <= avg < 2.5, else the gap text. */
  function Observation(fn: string, avg: real): (o: string)
    ensures o == SolidText <==> avg >= 2.5
    ensures o == DevelopingText <==> 1.5 <= avg < 2.5
    ensures avg < 1.5 ==> o == GapText(fn)
  {
    if avg < 1.5 then GapText(fn)
    else if avg < 2.5 then DevelopingText
    else SolidText
  }

  /** For the six function tags the `default` branch is never taken, and a gap text is never one of the other two bands. */
  lemma ObservationDefaultUnreachable(f: NistFunction, avg: real)
    ensures Observation(Name(f), avg) != FallbackGapText
    ensures GapText(Name(f)) != DevelopingText && GapText(Name(f)) != SolidText
  {
  }

  /**
   * For a function present in the answers, the compliance-table observation is
   * the gap text iff 2*total < 3*count, the developing text iff
   * 3*count <= 2*total < 5*count, and the solid text iff 2*total >= 5*count.
   */
  lemma ObservationBands(rs: seq<ResponseItem>, f: NistFunction)
    requires f in FunctionsOf(rs)
    ensures var t, n := Total(rs, f), Count(rs, f);
      var o := Observation(Name(f), Mean(t, n));
      && (o == GapText(Name(f)) <==> 2 * t < 3 * n)
      && (o == DevelopingText <==> 3 * n <= 2 * t < 5 * n)
      && (o == SolidText <==> 2 * t >= 5 * n)
  {
    CountPositive(rs, |rs|, f);
    assert FunctionsOf(rs)[..|rs|] == FunctionsOf(rs);
    MeanThresholds(Total(rs, f), Count(rs, f));
    ObservationDefaultUnreachable(f, Mean(Total(rs, f), Count(rs, f)));
  }

  // ---------------------------------------------------------------------
  // Static risk-matrix overview
  // ---------------------------------------------------------------------

  const Probabilities: seq<string> := ["Low", "Medium", "Medium-High", "High", "Critical"]

  /** `Math.min(3, Math.max(i, pi - 1))` */
  function CellIndex(pi: int, i: int): (k: int)
    requires 0 <= i
    ensures 0 <= k < |Levels|
    ensures i <= 3 ==> i <= k
    ensures pi - 1 <= 3 ==> pi - 1 <= k
  {
    var m := if i < pi - 1 then pi - 1 else i;
    if m < 3 then m else 3
  }

  function MatrixCell(pi: int, i: int): RiskLevel
    requires 0 <= i
  {
    Levels[CellIndex(pi, i)]
  }

  datatype MatrixRow = MatrixRow(probability: string, cells: seq<RiskLevel>)

  method RiskMatrixOverview() returns (body: seq<MatrixRow>)
    ensures |body| == |Probabilities|
    ensures forall pi :: 0 <= pi < |body| ==>
      && body[pi].probability == Probabilities[pi]
      && |body[pi].cells| == |Levels|
      && forall i :: 0 <= i < |Levels| ==> body[pi].cells[i] == MatrixCell(pi, i)
  {
    body := [];
    var pi := 0;
    while pi < |Probabilities|
      invariant 0 <= pi <= |Probabilities|
      invariant |body| == pi
      invariant forall p :: 0 <= p < pi ==>
        && body[p].probability == Probabilities[p]
        && |body[p].cells| == |Levels|
        && forall i :: 0 <= i < |Levels| ==> body[p].cells[i] == MatrixCell(p, i)
    {
      var cells := [];
      var i := 0;
      while i < |Levels|
        invariant 0 <= i <= |Levels|
        invariant |cells| == i
        invariant forall n :: 0 <= n < i ==> cells[n] == MatrixCell(pi, n)
      {
        cells := cells + [Levels[CellIndex(pi, i)]];
        i := i + 1;
      }
      body := body + [MatrixRow(Probabilities[pi], cells)];
      pi := pi + 1;
    }
  }

  /** The grid the formula produces, written out as a literal reference table. */
  const ReferenceGrid: seq<seq<RiskLevel>> := [
    [Sustainable, Moderate, Severe, Critical],
    [Sustainable, Moderate, Severe, Critical],
    [Moderate, Moderate, Severe, Critical],
    [Severe, Severe, Severe, Critical],
    [Critical, Critical, Critical, Critical]
  ]

  lemma MatrixMatchesReference()
    ensures forall pi, i :: 0 <= pi < 5 && 0 <= i < 4 ==> MatrixCell(pi, i) == ReferenceGrid[pi][i]
  {
  }

  /** Rows Low and Medium repeat the impact header; severity never decreases along a row or down a column. */
  lemma MatrixShape()
    ensures forall i :: 0 <= i < 4 ==> MatrixCell(0, i) == Levels[i] && MatrixCell(1, i) == Levels[i]
    ensures forall pi, i, j :: 0 <= pi < 5 && 0 <= i <= j < 4 ==> Rank(MatrixCell(pi, i)) <= Rank(MatrixCell(pi, j))
    ensures forall p, q, i :: 0 <= p <= q < 5 && 0 <= i < 4 ==> Rank(MatrixCell(p, i)) <= Rank(MatrixCell(q, i))
  {
    forall pi, i, j | 0 <= pi < 5 && 0 <= i <= j < 4
      ensures Rank(MatrixCell(pi, i)) <= Rank(MatrixCell(pi, j))
    {
      RankOfLevel(CellIndex(pi, i));
      RankOfLevel(CellIndex(pi, j));
    }
    forall p, q, i | 0 <= p <= q < 5 && 0 <= i < 4
      ensures Rank(MatrixCell(p, i)) <= Rank(MatrixCell(q, i))
    {
      RankOfLevel(CellIndex(p, i));
      RankOfLevel(CellIndex(q, i));
    }
  }

  lemma RankOfLevel(k: nat)
    requires k < |Levels|
    ensures Rank(Levels[k]) == k
  {
  }
}
