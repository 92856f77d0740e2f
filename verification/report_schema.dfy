/**
 * The schema the server checks the model's JSON against before returning
 * it: which members are required, which are optional, and the defaults
 * filled in for the missing ones. Unknown members are dropped.
 */
module ReportSchema {
  import opened Wrappers
  import opened Json

  datatype ReportGap = ReportGap(
    name: string,
    description: string,
    businessImpact: string,
    likelihood: string,
    impact: string,
    rating: string)

  /** A recommendation is either a bare string or an action with a priority. */
  datatype Recommendation = Plain(text: string) | Action(action: string, priority: string)

  datatype Report = Report(
    environment: Option<string>,
    summary: string,
    strengths: seq<string>,
    gaps: seq<ReportGap>,
    compliance: string,
    recommendations: seq<Recommendation>,
    conclusion: string)

  const DefaultLevel := "Medium"

  /** `z.string()` on a present member. */
  function RequiredString(v: Option<Json>): (r: Option<string>)
    ensures r.Some? <==> v.Some? && v.value.JString?
    ensures r.Some? ==> v.value == JString(r.value)
  {
    match v
    case Some(JString(s)) => Some(s)
    case _ => None
  }

  /** `z.string().optional().default(d)`: a missing member becomes `d`; a present one must be a string. */
  function DefaultedString(v: Option<Json>, d: string): (r: Option<string>)
    ensures v.None? ==> r == Some(d)
    ensures v.Some? ==> (r.Some? <==> v.value.JString?)
    ensures v.Some? && r.Some? ==> v.value == JString(r.value)
  {
    match v
    case None => Some(d)
    case Some(JString(s)) => Some(s)
    case Some(_) => None
  }

  /** `z.array(z.string())` on the elements of an array. */
  function Strings(items: seq<Json>): (r: Option<seq<string>>)
    ensures r.Some? <==> forall i :: 0 <= i < |items| ==> items[i].JString?
    ensures r.Some? ==> |r.value| == |items| && forall i :: 0 <= i < |items| ==> items[i] == JString(r.value[i])
  {
    if items == [] then Some([])
    else
      match (items[0], Strings(items[1..]))
      case (JString(s), Some(rest)) => Some([s] + rest)
      case _ => None
  }

  function ParseGap(j: Json): (r: Option<ReportGap>)
    ensures r.Some? ==> j.JObject? && Member(j, "name") == Some(JString(r.value.name))
    ensures r.Some? && Member(j, "description").None? ==> r.value.description == ""
    ensures r.Some? && Member(j, "businessImpact").None? ==> r.value.businessImpact == ""
    ensures r.Some? && Member(j, "likelihood").None? ==> r.value.likelihood == DefaultLevel
    ensures r.Some? && Member(j, "impact").None? ==> r.value.impact == DefaultLevel
    ensures r.Some? && Member(j, "rating").None? ==> r.value.rating == DefaultLevel
  {
    if !j.JObject? then None
    else
      var name := RequiredString(Member(j, "name"));
      var description := DefaultedString(Member(j, "description"), "");
      var businessImpact := DefaultedString(Member(j, "businessImpact"), "");
      var likelihood := DefaultedString(Member(j, "likelihood"), DefaultLevel);
      var impact := DefaultedString(Member(j, "impact"), DefaultLevel);
      var rating := DefaultedString(Member(j, "rating"), DefaultLevel);
      if name.Some? && description.Some? && businessImpact.Some? && likelihood.Some? && impact.Some? && rating.Some? then
        Some(ReportGap(name.value, description.value, businessImpact.value, likelihood.value, impact.value, rating.value))
      else None
  }

  function Gaps(items: seq<Json>): (r: Option<seq<ReportGap>>)
    ensures r.Some? <==> forall i :: 0 <= i < |items| ==> ParseGap(items[i]).Some?
    ensures r.Some? ==> |r.value| == |items| && forall i :: 0 <= i < |items| ==> ParseGap(items[i]) == Some(r.value[i])
  {
    if items == [] then Some([])
    else
      match (ParseGap(items[0]), Gaps(items[1..]))
      case (Some(g), Some(rest)) => Some([g] + rest)
      case _ => None
  }

  /** `z.union([z.string(), z.object({ action, priority })])`: the string alternative is tried first. */
  function ParseRecommendation(j: Json): (r: Option<Recommendation>)
    ensures j.JString? ==> r == Some(Plain(j.s))
    ensures r.Some? && r.value.Action? ==> Member(j, "action") == Some(JString(r.value.action))
    ensures r.Some? && r.value.Action? && Member(j, "priority").None? ==> r.value.priority == DefaultLevel
  {
    match j
    case JString(s) => Some(Plain(s))
    case JObject(_) =>
      var action := RequiredString(Member(j, "action"));
      var priority := DefaultedString(Member(j, "priority"), DefaultLevel);
      if action.Some? && priority.Some? then Some(Action(action.value, priority.value)) else None
    case _ => None
  }

  function Recommendations(items: seq<Json>): (r: Option<seq<Recommendation>>)
    ensures r.Some? <==> forall i :: 0 <= i < |items| ==> ParseRecommendation(items[i]).Some?
    ensures r.Some? ==> |r.value| == |items| && forall i :: 0 <= i < |items| ==> ParseRecommendation(items[i]) == Some(r.value[i])
  {
    if items == [] then Some([])
    else
      match (ParseRecommendation(items[0]), Recommendations(items[1..]))
      case (Some(x), Some(rest)) => Some([x] + rest)
      case _ => None
  }

  /** `z.array(...).default([])`: a missing member becomes the empty list; a present one must be an array. */
  function DefaultedStrings(v: Option<Json>): (r: Option<seq<string>>)
    ensures v.None? ==> r == Some([])
    ensures v.Some? && !v.value.JArray? ==> r.None?
  {
    match v
    case None => Some([])
    case Some(JArray(items)) => Strings(items)
    case Some(_) => None
  }

  function DefaultedGaps(v: Option<Json>): (r: Option<seq<ReportGap>>)
    ensures v.None? ==> r == Some([])
    ensures v.Some? && !v.value.JArray? ==> r.None?
  {
    match v
    case None => Some([])
    case Some(JArray(items)) => Gaps(items)
    case Some(_) => None
  }

  function DefaultedRecommendations(v: Option<Json>): (r: Option<seq<Recommendation>>)
    ensures v.None? ==> r == Some([])
    ensures v.Some? && !v.value.JArray? ==> r.None?
  {
    match v
    case None => Some([])
    case Some(JArray(items)) => Recommendations(items)
    case Some(_) => None
  }

  /** `environment: z.string().optional()`: kept when present, absent when missing. */
  function OptionalString(v: Option<Json>): (r: Option<Option<string>>)
    ensures v.None? ==> r == Some(None)
    ensures v.Some? ==> (r.Some? <==> v.value.JString?)
  {
    match v
    case None => Some(None)
    case Some(JString(s)) => Some(Some(s))
    case Some(_) => None
  }

  /** `AIReportSchema.safeParse(parsed)`: the report with defaults filled in, or a schema mismatch. */
  function ParseReport(j: Json): (r: Option<Report>)
    ensures r.Some? ==> j.JObject? && Member(j, "summary") == Some(JString(r.value.summary))
    ensures r.Some? && Member(j, "environment").None? ==> r.value.environment.None?
    ensures r.Some? && Member(j, "strengths").None? ==> r.value.strengths == []
    ensures r.Some? && Member(j, "gaps").None? ==> r.value.gaps == []
    ensures r.Some? && Member(j, "recommendations").None? ==> r.value.recommendations == []
    ensures r.Some? && Member(j, "compliance").None? ==> r.value.compliance == ""
    ensures r.Some? && Member(j, "conclusion").None? ==> r.value.conclusion == ""
  {
    if !j.JObject? then None
    else ReportFrom(Member(j, "environment"), Member(j, "summary"), Member(j, "strengths"), Member(j, "gaps"),
                    Member(j, "compliance"), Member(j, "recommendations"), Member(j, "conclusion"))
  }

  /** The schema applied member by member. */
  function ReportFrom(environment: Option<Json>, summary: Option<Json>, strengths: Option<Json>, gaps: Option<Json>,
                      compliance: Option<Json>, recommendations: Option<Json>, conclusion: Option<Json>): Option<Report>
  {
    var environment := OptionalString(environment);
    var summary := RequiredString(summary);
    var strengths := DefaultedStrings(strengths);
    var gaps := DefaultedGaps(gaps);
    var compliance := DefaultedString(compliance, "");
    var recommendations := DefaultedRecommendations(recommendations);
    var conclusion := DefaultedString(conclusion, "");
    if environment.Some? && summary.Some? && strengths.Some? && gaps.Some? && compliance.Some?
      && recommendations.Some? && conclusion.Some?
    then Some(Report(environment.value, summary.value, strengths.value, gaps.value, compliance.value,
                     recommendations.value, conclusion.value))
    else None
  }

  // ---------------------------------------------------------------------
  // Encoding, the partner of the parser
  // ---------------------------------------------------------------------

  function GapToJson(g: ReportGap): Json
  {
    JObject([Field("name", JString(g.name)), Field("description", JString(g.description)),
             Field("businessImpact", JString(g.businessImpact)), Field("likelihood", JString(g.likelihood)),
             Field("impact", JString(g.impact)), Field("rating", JString(g.rating))])
  }

  function RecommendationToJson(x: Recommendation): Json
  {
    match x
    case Plain(text) => JString(text)
    case Action(action, priority) => JObject([Field("action", JString(action)), Field("priority", JString(priority))])
  }

  function StringsToJson(ss: seq<string>): seq<Json>
  {
    seq(|ss|, i requires 0 <= i < |ss| => JString(ss[i]))
  }

  function GapsToJson(gs: seq<ReportGap>): seq<Json>
  {
    seq(|gs|, i requires 0 <= i < |gs| => GapToJson(gs[i]))
  }

  function RecommendationsToJson(xs: seq<Recommendation>): seq<Json>
  {
    seq(|xs|, i requires 0 <= i < |xs| => RecommendationToJson(xs[i]))
  }

  /** The members every encoded report carries. */
  function BaseFields(r: Report): seq<Field>
  {
    [Field("summary", JString(r.summary)),
     Field("strengths", JArray(StringsToJson(r.strengths))),
     Field("gaps", JArray(GapsToJson(r.gaps))),
     Field("compliance", JString(r.compliance)),
     Field("recommendations", JArray(RecommendationsToJson(r.recommendations))),
     Field("conclusion", JString(r.conclusion))]
  }

  /** The report as JSON; `environment` is written only when present. */
  function ReportToJson(r: Report): Json
  {
    match r.environment
    case None => JObject(BaseFields(r))
    case Some(e) => JObject(BaseFields(r) + [Field("environment", JString(e))])
  }

  lemma GapRoundTrip(g: ReportGap)
    ensures ParseGap(GapToJson(g)) == Some(g)
  {
    var fields := GapToJson(g).fields;
    assert KeysDistinct(fields);
    GetListed(fields, 0);
    GetListed(fields, 1);
    GetListed(fields, 2);
    GetListed(fields, 3);
    GetListed(fields, 4);
    GetListed(fields, 5);
  }

  lemma RecommendationRoundTrip(x: Recommendation)
    ensures ParseRecommendation(RecommendationToJson(x)) == Some(x)
  {
    if x.Action? {
      var fields := RecommendationToJson(x).fields;
      assert KeysDistinct(fields);
      GetListed(fields, 0);
      GetListed(fields, 1);
    }
  }

  lemma StringsRoundTrip(ss: seq<string>)
    ensures Strings(StringsToJson(ss)) == Some(ss)
  {
    var items := StringsToJson(ss);
    var r := Strings(items);
    assert r.Some?;
    assert r.value == ss;
  }

  lemma GapsRoundTrip(gs: seq<ReportGap>)
    ensures Gaps(GapsToJson(gs)) == Some(gs)
  {
    var items := GapsToJson(gs);
    forall i | 0 <= i < |items|
      ensures ParseGap(items[i]) == Some(gs[i])
    {
      GapRoundTrip(gs[i]);
    }
    GapsOf(items, gs);
  }

  lemma GapsOf(items: seq<Json>, gs: seq<ReportGap>)
    requires |items| == |gs|
    requires forall i :: 0 <= i < |items| ==> ParseGap(items[i]) == Some(gs[i])
    ensures Gaps(items) == Some(gs)
  {
    var r := Gaps(items);
    assert r.Some?;
    assert r.value == gs;
  }

  lemma RecommendationsRoundTrip(xs: seq<Recommendation>)
    ensures Recommendations(RecommendationsToJson(xs)) == Some(xs)
  {
    var items := RecommendationsToJson(xs);
    forall i | 0 <= i < |items|
      ensures ParseRecommendation(items[i]) == Some(xs[i])
    {
      RecommendationRoundTrip(xs[i]);
    }
    RecommendationsOf(items, xs);
  }

  lemma RecommendationsOf(items: seq<Json>, xs: seq<Recommendation>)
    requires |items| == |xs|
    requires forall i :: 0 <= i < |items| ==> ParseRecommendation(items[i]) == Some(xs[i])
    ensures Recommendations(items) == Some(xs)
  {
    var r := Recommendations(items);
    assert r.Some?;
    assert r.value == xs;
  }

  /** Every report survives encoding and re-validation unchanged. */
  lemma ReportRoundTrip(r: Report)
    ensures ParseReport(ReportToJson(r)) == Some(r)
  {
    ReportMembers(r);
    ReportFromEncoded(r);
  }

  lemma ReportFromEncoded(r: Report)
    ensures ReportFrom(if r.environment.Some? then Some(JString(r.environment.value)) else None,
                       Some(JString(r.summary)), Some(JArray(StringsToJson(r.strengths))),
                       Some(JArray(GapsToJson(r.gaps))), Some(JString(r.compliance)),
                       Some(JArray(RecommendationsToJson(r.recommendations))), Some(JString(r.conclusion))) == Some(r)
  {
    StringsRoundTrip(r.strengths);
    GapsRoundTrip(r.gaps);
    RecommendationsRoundTrip(r.recommendations);
  }

  /** Each member of an encoded report is found with the value it was written with. */
  lemma ReportMembers(r: Report)
    ensures var j := ReportToJson(r);
      && j.JObject?
      && Member(j, "environment") == (if r.environment.Some? then Some(JString(r.environment.value)) else None)
      && Member(j, "summary") == Some(JString(r.summary))
      && Member(j, "strengths") == Some(JArray(StringsToJson(r.strengths)))
      && Member(j, "gaps") == Some(JArray(GapsToJson(r.gaps)))
      && Member(j, "compliance") == Some(JString(r.compliance))
      && Member(j, "recommendations") == Some(JArray(RecommendationsToJson(r.recommendations)))
      && Member(j, "conclusion") == Some(JString(r.conclusion))
  {
    var base := BaseFields(r);
    BaseMembers(r);
    if r.environment.Some? {
      var env := Field("environment", JString(r.environment.value));
      GetSkipLast(base, env, "summary");
      GetSkipLast(base, env, "strengths");
      GetSkipLast(base, env, "gaps");
      GetSkipLast(base, env, "compliance");
      GetSkipLast(base, env, "recommendations");
      GetSkipLast(base, env, "conclusion");
    }
  }

  lemma BaseMembers(r: Report)
    ensures var base := BaseFields(r);
      && Get(base, "environment").None?
      && Get(base, "summary") == Some(JString(r.summary))
      && Get(base, "strengths") == Some(JArray(StringsToJson(r.strengths)))
      && Get(base, "gaps") == Some(JArray(GapsToJson(r.gaps)))
      && Get(base, "compliance") == Some(JString(r.compliance))
      && Get(base, "recommendations") == Some(JArray(RecommendationsToJson(r.recommendations)))
      && Get(base, "conclusion") == Some(JString(r.conclusion))
  {
    var base := BaseFields(r);
    BaseKeysDistinct(r);
    GetListed(base, 0);
    GetListed(base, 1);
    GetListed(base, 2);
    GetListed(base, 3);
    GetListed(base, 4);
    GetListed(base, 5);
  }

  lemma BaseKeysDistinct(r: Report)
    ensures KeysDistinct(BaseFields(r))
  {
  }

  lemma GetSkipLast(fields: seq<Field>, f: Field, key: string)
    requires f.key != key
    ensures Get(fields + [f], key) == Get(fields, key)
  {
    assert (fields + [f])[..|fields|] == fields;
  }

  /** An object holding only a summary validates, with every other member defaulted. */
  lemma SummaryOnly(s: string)
    ensures ParseReport(JObject([Field("summary", JString(s))])) == Some(Report(None, s, [], [], "", [], ""))
  {
  }

  /** A gap with only a name gets empty texts and "Medium" levels. */
  lemma GapNameOnly(n: string)
    ensures ParseGap(JObject([Field("name", JString(n))])) == Some(ReportGap(n, "", "", "Medium", "Medium", "Medium"))
  {
  }
}
