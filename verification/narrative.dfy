/**
 * The locally synthesised executive summary used when no AI narrative is
 * available, and the rows of the compliance table, both derived from the
 * per-function averages.
 */
module Narrative {
  import opened Api
  import opened Scoring

  /** Which filter of the averages: strengths (average >= 2.5) or gaps (average < 1.5). */
  datatype Band = Strength | Gap

  predicate InBand(avg: real, b: Band)
  {
    match b
    case Strength => avg >= 2.5
    case Gap => avg < 1.5
  }

  /** The functions whose average falls in band `b`, in the averages' order. */
  function Select(avgs: seq<FnAverage>, b: Band): (fs: seq<NistFunction>)
    ensures |fs| <= |avgs|
    ensures forall f :: f in fs ==> f in KeysOf(avgs)
  {
    if avgs == [] then []
    else (if InBand(avgs[0].avg, b) then [avgs[0].fn] else []) + Select(avgs[1..], b)
  }

  /** A function is selected exactly when one of its entries has an average in the band. */
  lemma {:induction false} SelectIff(avgs: seq<FnAverage>, b: Band, f: NistFunction)
    ensures f in Select(avgs, b) <==> exists j :: 0 <= j < |avgs| && avgs[j].fn == f && InBand(avgs[j].avg, b)
  {
    if avgs != [] {
      SelectIff(avgs[1..], b, f);
      if exists j :: 0 <= j < |avgs[1..]| && avgs[1..][j].fn == f && InBand(avgs[1..][j].avg, b) {
        var j :| 0 <= j < |avgs[1..]| && avgs[1..][j].fn == f && InBand(avgs[1..][j].avg, b);
        assert avgs[j + 1] == avgs[1..][j];
      }
      if exists j :: 0 <= j < |avgs| && avgs[j].fn == f && InBand(avgs[j].avg, b) {
        var j :| 0 <= j < |avgs| && avgs[j].fn == f && InBand(avgs[j].avg, b);
        if j > 0 {
          assert avgs[1..][j - 1] == avgs[j];
        }
      }
    }
  }

  /** Filtering a list with distinct keys keeps them distinct. */
  lemma {:induction false} SelectDistinct(avgs: seq<FnAverage>, b: Band)
    requires Distinct(KeysOf(avgs))
    ensures Distinct(Select(avgs, b))
  {
    if avgs != [] {
      assert KeysOf(avgs[1..]) == KeysOf(avgs)[1..];
      SelectDistinct(avgs[1..], b);
      forall j | 0 <= j < |avgs[1..]|
        ensures avgs[1..][j].fn != avgs[0].fn
      {
        assert KeysOf(avgs)[0] != KeysOf(avgs)[j + 1];
      }
      SelectIff(avgs[1..], b, avgs[0].fn);
    }
  }

  /** With distinct keys, no function is both a strength and a gap. */
  lemma NeverBoth(avgs: seq<FnAverage>, f: NistFunction)
    requires Distinct(KeysOf(avgs))
    ensures !(f in Select(avgs, Strength) && f in Select(avgs, Gap))
  {
    SelectIff(avgs, Strength, f);
    SelectIff(avgs, Gap, f);
    forall j, k | 0 <= j < |avgs| && 0 <= k < |avgs| && InBand(avgs[j].avg, Strength) && InBand(avgs[k].avg, Gap)
      ensures avgs[j].fn != avgs[k].fn
    {
      if j < k {
        assert KeysOf(avgs)[j] != KeysOf(avgs)[k];
      } else if k < j {
        assert KeysOf(avgs)[k] != KeysOf(avgs)[j];
      }
    }
  }

  /**
   * On the client's own averages: a function is a strength iff it has answers
   * and 2*total >= 5*count, and a gap iff it has answers and 2*total < 3*count.
   */
  lemma BandsFromAnswers(rs: seq<ResponseItem>, f: NistFunction)
    ensures f in Select(AveragesOf(rs), Strength) <==> Count(rs, f) > 0 && 2 * Total(rs, f) >= 5 * Count(rs, f)
    ensures f in Select(AveragesOf(rs), Gap) <==> Count(rs, f) > 0 && 2 * Total(rs, f) < 3 * Count(rs, f)
  {
    var avgs := AveragesOf(rs);
    SelectIff(avgs, Strength, f);
    SelectIff(avgs, Gap, f);
    forall j | 0 <= j < |avgs| && avgs[j].fn == f
      ensures Count(rs, f) > 0 && avgs[j].avg == Mean(Total(rs, f), Count(rs, f))
    {
      AveragesValues(rs, j);
    }
    if Count(rs, f) > 0 {
      var j := AverageEntry(rs, f);
      MeanThresholds(Total(rs, f), Count(rs, f));
    }
  }

  /** No entry in the band means nothing is selected. */
  lemma {:induction false} SelectEmpty(avgs: seq<FnAverage>, b: Band)
    requires forall j :: 0 <= j < |avgs| ==> !InBand(avgs[j].avg, b)
    ensures Select(avgs, b) == []
  {
    if avgs != [] {
      assert forall j :: 0 <= j < |avgs[1..]| ==> avgs[1..][j] == avgs[j + 1];
      SelectEmpty(avgs[1..], b);
    }
  }

  /** With every rating 2, there is neither a strength nor a gap. */
  lemma AllTwosNeitherStrongNorWeak(rs: seq<ResponseItem>)
    requires forall i :: 0 <= i < |rs| ==> rs[i].maturity == 2
    ensures Select(AveragesOf(rs), Strength) == []
    ensures Select(AveragesOf(rs), Gap) == []
  {
    var avgs := AveragesOf(rs);
    forall j | 0 <= j < |avgs|
      ensures !InBand(avgs[j].avg, Strength) && !InBand(avgs[j].avg, Gap)
    {
      var f := avgs[j].fn;
      AveragesValues(rs, j);
      UniformTotals(rs, |rs|, 2, f);
      MeanThresholds(Total(rs, f), Count(rs, f));
    }
    SelectEmpty(avgs, Strength);
    SelectEmpty(avgs, Gap);
  }

  // ---------------------------------------------------------------------
  // The fallback narrative
  // ---------------------------------------------------------------------

  const LocalEnvironment := "Azure + Microsoft 365"

  const LocalRecommendations: seq<string> := [
    "Close MFA and conditional access gaps; enforce admin protections",
    "Centralize logging to Sentinel and tune detections",
    "Harden data protection with DLP coverage and private endpoints",
    "Formalize cloud-specific IR and test DR scenarios"
  ]

  const LocalConclusion := "Improving low-maturity functions will reduce residual risk and support business continuity. Prioritize the recommendations over the next 90 days and track progress via KPIs."

  datatype LocalGap = LocalGap(name: string, likelihood: string, impact: string, rating: string)

  datatype LocalNarrative = LocalNarrative(
    overall: real,
    environment: string,
    strengths: seq<string>,
    strongerAreas: string,
    gaps: seq<LocalGap>,
    listedGaps: seq<LocalGap>,
    recommendations: seq<string>,
    conclusion: string)

  function AverageSum(avgs: seq<FnAverage>): real
  {
    if avgs == [] then 0.0 else avgs[0].avg + AverageSum(avgs[1..])
  }

  /** Mean of the per-function averages; an empty record divides by 1. */
  function Overall(avgs: seq<FnAverage>): (r: real)
    ensures |avgs| == 0 ==> r == 0.0
    ensures |avgs| > 0 ==> r * |avgs| as real == AverageSum(avgs)
  {
    AverageSum(avgs) / (if |avgs| == 0 then 1 else |avgs|) as real
  }

  lemma {:induction false} AverageSumBounds(avgs: seq<FnAverage>)
    requires forall j :: 0 <= j < |avgs| ==> 0.0 <= avgs[j].avg <= 4.0
    ensures 0.0 <= AverageSum(avgs) <= 4.0 * |avgs| as real
  {
    if avgs != [] {
      AverageSumBounds(avgs[1..]);
    }
  }

  /** The overall average of averages in [0, 4] is itself in [0, 4]. */
  lemma OverallBounds(avgs: seq<FnAverage>)
    requires forall j :: 0 <= j < |avgs| ==> 0.0 <= avgs[j].avg <= 4.0
    ensures 0.0 <= Overall(avgs) <= 4.0
    ensures |avgs| == 0 ==> Overall(avgs) == 0.0
  {
    AverageSumBounds(avgs);
    if |avgs| > 0 {
      var n := |avgs| as real;
      DivBelow(AverageSum(avgs), n, 0.0);
      DivBelow(4.0 * n - AverageSum(avgs), n, 0.0);
      DivMul(AverageSum(avgs), n);
    }
  }

  function StrengthLabel(f: NistFunction): string
  {
    Name(f) + ": maturing capability"
  }

  function GapEntry(f: NistFunction): LocalGap
  {
    LocalGap(Name(f) + " capability gap", "Medium", "High", "Severe")
  }

  /** `s.split(":")[0]`: the text before the first colon, or all of it. */
  function BeforeColon(s: string): (r: string)
    ensures |r| <= |s| && r == s[..|r|] && ':' !in r
    ensures |r| < |s| ==> s[|r|] == ':'
  {
    if s == [] || s[0] == ':' then [] else [s[0]] + BeforeColon(s[1..])
  }

  /** `parts.join(sep)` */
  function Join(parts: seq<string>, sep: string): string
  {
    if parts == [] then ""
    else if |parts| == 1 then parts[0]
    else parts[0] + sep + Join(parts[1..], sep)
  }

  /** `arr.slice(0, 6)` */
  function TakeSix<T>(s: seq<T>): (r: seq<T>)
    ensures |r| <= 6 && r <= s
    ensures |s| <= 6 ==> r == s
  {
    if |s| <= 6 then s else s[..6]
  }

  /** The label's text before the colon is the function tag, so the summary names the strong functions. */
  lemma StrengthLabelHead(f: NistFunction)
    ensures BeforeColon(StrengthLabel(f)) == Name(f)
  {
    assert ':' !in Name(f);
    BeforeColonStopsAtColon(Name(f), ": maturing capability");
  }

  lemma {:induction false} BeforeColonStopsAtColon(a: string, b: string)
    requires ':' !in a && b != [] && b[0] == ':'
    ensures BeforeColon(a + b) == a
  {
    if a == [] {
      assert a + b == b;
    } else {
      assert (a + b)[1..] == a[1..] + b;
      BeforeColonStopsAtColon(a[1..], b);
    }
  }

  function StrongerAreas(strengths: seq<string>): string
  {
    var names := Join(seq(|strengths|, i requires 0 <= i < |strengths| => BeforeColon(strengths[i])), ", ");
    if names == "" then "none" else names
  }

  /** The wire tags of a list of functions. */
  function Names(fs: seq<NistFunction>): (ns: seq<string>)
    ensures |ns| == |fs| && forall i :: 0 <= i < |fs| ==> ns[i] == Name(fs[i])
  {
    seq(|fs|, i requires 0 <= i < |fs| => Name(fs[i]))
  }

  /** The labels' text before the colon is exactly the list of strong functions' tags. */
  lemma StrengthHeads(strong: seq<NistFunction>, strengths: seq<string>)
    requires |strengths| == |strong|
    requires forall i :: 0 <= i < |strong| ==> strengths[i] == StrengthLabel(strong[i])
    ensures seq(|strengths|, i requires 0 <= i < |strengths| => BeforeColon(strengths[i])) == Names(strong)
  {
    forall i | 0 <= i < |strong|
      ensures BeforeColon(strengths[i]) == Name(strong[i])
    {
      StrengthLabelHead(strong[i]);
    }
  }

  /** Joining a non-empty list whose first part is non-empty gives a non-empty text. */
  lemma JoinNonEmpty(parts: seq<string>, sep: string)
    requires parts != [] && parts[0] != ""
    ensures Join(parts, sep) != ""
  {
    assert |Join(parts, sep)| >= |parts[0]|;
  }

  /**
   * The fallback narrative: the mean of the averages, one "maturing capability"
   * label per strength and one Medium/High/Severe gap per gap in the averages'
   * order, at most six gaps listed, and the strong functions' tags as the
   * stronger areas ("none" when there are none).
   */
  function LocalNarrativeOf(avgs: seq<FnAverage>): (r: LocalNarrative)
    ensures r.overall == Overall(avgs)
    ensures r.environment == LocalEnvironment && r.recommendations == LocalRecommendations && r.conclusion == LocalConclusion
    ensures |r.strengths| == |Select(avgs, Strength)| &&
      forall i :: 0 <= i < |r.strengths| ==> r.strengths[i] == StrengthLabel(Select(avgs, Strength)[i])
    ensures |r.gaps| == |Select(avgs, Gap)| &&
      forall i :: 0 <= i < |r.gaps| ==> r.gaps[i] == GapEntry(Select(avgs, Gap)[i])
    ensures r.listedGaps == TakeSix(r.gaps)
    ensures Select(avgs, Strength) == [] ==> r.strongerAreas == "none"
    ensures Select(avgs, Strength) != [] ==> r.strongerAreas == Join(Names(Select(avgs, Strength)), ", ")
  {
    var strong := Select(avgs, Strength);
    var weak := Select(avgs, Gap);
    var strengths := seq(|strong|, i requires 0 <= i < |strong| => StrengthLabel(strong[i]));
    var gaps := seq(|weak|, i requires 0 <= i < |weak| => GapEntry(weak[i]));
    StrengthHeads(strong, strengths);
    if strong != [] then
      JoinNonEmpty(Names(strong), ", ");
      LocalNarrative(Overall(avgs), LocalEnvironment, strengths, StrongerAreas(strengths),
        gaps, TakeSix(gaps), LocalRecommendations, LocalConclusion)
    else
      LocalNarrative(Overall(avgs), LocalEnvironment, strengths, StrongerAreas(strengths),
      gaps, TakeSix(gaps), LocalRecommendations, LocalConclusion)
  }

  /** On the client's averages every gap is listed: there are at most six, one per function. */
  lemma AllGapsListed(rs: seq<ResponseItem>)
    ensures LocalNarrativeOf(AveragesOf(rs)).listedGaps == LocalNarrativeOf(AveragesOf(rs)).gaps
  {
    AveragesKeys(rs);
    SelectDistinct(AveragesOf(rs), Gap);
    DistinctFunctionsAtMostSix(Select(AveragesOf(rs), Gap));
  }

  // ---------------------------------------------------------------------
  // Compliance table
  // ---------------------------------------------------------------------

  datatype ComplianceRow = ComplianceRow(fnName: string, score: real, observation: string)

  function ComplianceRows(avgs: seq<FnAverage>): seq<ComplianceRow>
  {
    seq(|avgs|, j requires 0 <= j < |avgs| => RowOf(avgs[j]))
  }

  function RowOf(e: FnAverage): ComplianceRow
  {
    ComplianceRow(Name(e.fn), e.avg, Observation(Name(e.fn), e.avg))
  }

  /** The observation a row shows for a function in band `b`. */
  function BandText(f: NistFunction, b: Band): string
  {
    match b
    case Gap => GapText(Name(f))
    case Strength => SolidText
  }

  /**
   * The table and the fallback narrative agree: a row shows the gap text
   * exactly for the narrative's gaps and the solid text exactly for its strengths.
   */
  lemma ComplianceAgreesWithNarrative(avgs: seq<FnAverage>, j: nat, b: Band)
    requires Distinct(KeysOf(avgs))
    requires j < |avgs|
    ensures ComplianceRows(avgs)[j].observation == BandText(avgs[j].fn, b) <==> avgs[j].fn in Select(avgs, b)
  {
    assert ComplianceRows(avgs)[j] == RowOf(avgs[j]);
    RowBands(avgs[j], b);
    SelectOwnEntry(avgs, j, b);
  }

  lemma RowBands(e: FnAverage, b: Band)
    ensures RowOf(e).observation == BandText(e.fn, b) <==> InBand(e.avg, b)
  {
    ObservationDefaultUnreachable(e.fn, e.avg);
  }

  /** With distinct keys, an entry's function is selected exactly when its own average is in the band. */
  lemma SelectOwnEntry(avgs: seq<FnAverage>, j: nat, b: Band)
    requires Distinct(KeysOf(avgs))
    requires j < |avgs|
    ensures avgs[j].fn in Select(avgs, b) <==> InBand(avgs[j].avg, b)
  {
    SelectIff(avgs, b, avgs[j].fn);
    OnlyEntry(avgs, j);
  }

  /** With distinct keys, entry `j` is the only one for its function. */
  lemma OnlyEntry(avgs: seq<FnAverage>, j: nat)
    requires Distinct(KeysOf(avgs))
    requires j < |avgs|
    ensures forall k :: 0 <= k < |avgs| && k != j ==> avgs[k].fn != avgs[j].fn
  {
    forall k | 0 <= k < |avgs| && k != j
      ensures avgs[k].fn != avgs[j].fn
    {
      if k < j {
        assert KeysOf(avgs)[k] != KeysOf(avgs)[j];
      } else {
        assert KeysOf(avgs)[j] != KeysOf(avgs)[k];
      }
    }
  }


}
