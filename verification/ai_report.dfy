/**
 * The server endpoint that turns a submission into an AI-written report:
 * payload check, API-key lookup, the dataset sent to the model, the
 * per-function averages, the extraction and validation of the model's
 * JSON answer, and the status code of every outcome.
 */
module AiReport {
  import opened Wrappers
  import opened Json
  import opened Api
  import opened Scoring
  import opened ReportSchema

  // ---------------------------------------------------------------------
  // Payload check
  // ---------------------------------------------------------------------

  /** `body.responses`: an array of answers, or anything else (absent included). */
  datatype ResponsesMember = ItemList(items: seq<ResponseItem>) | NotAList(value: Option<Json>)

  /** The parsed request body; members that may be absent are `Option`s. */
  datatype ReportRequest = ReportRequest(
    organization: Option<Json>,
    contactEmail: Option<Json>,
    submittedAt: Option<Json>,
    responses: ResponsesMember)

  /** `body && body.organization && Array.isArray(body.responses)` */
  predicate PayloadOk(body: Option<ReportRequest>)
  {
    body.Some? && Truthy(body.value.organization) && body.value.responses.ItemList?
  }

  /** An environment variable that is set to a non-empty value, i.e. truthy. */
  predicate IsSet(k: Option<string>)
  {
    k.Some? && k.value != ""
  }

  /** `k1 || k2 || k3` over three environment variables: the first one set to a non-empty value. */
  function ResolveApiKey(k1: Option<string>, k2: Option<string>, k3: Option<string>): (key: Option<string>)
    ensures key.None? <==> !IsSet(k1) && !IsSet(k2) && !IsSet(k3)
    ensures key.Some? ==> IsSet(key)
    ensures IsSet(k1) ==> key == k1
    ensures !IsSet(k1) && IsSet(k2) ==> key == k2
    ensures !IsSet(k1) && !IsSet(k2) && IsSet(k3) ==> key == k3
  {
    if k1.Some? && k1.value != "" then k1
    else if k2.Some? && k2.value != "" then k2
    else if k3.Some? && k3.value != "" then k3
    else None
  }

  // ---------------------------------------------------------------------
  // Dataset sent to the model
  // ---------------------------------------------------------------------

  datatype DatasetRow = DatasetRow(
    id: string,
    nistFunction: NistFunction,
    category: string,
    control: string,
    prompt: string,
    response: string,
    maturity: Maturity)

  function RowOf(r: ResponseItem): DatasetRow
  {
    DatasetRow(r.meta.id, r.meta.nistFunction, r.meta.category, r.meta.control, r.meta.prompt, r.response, r.maturity)
  }

  /** The row read back as an answer: the inverse of `RowOf`. */
  function ItemOf(d: DatasetRow): ResponseItem
  {
    ResponseItem(QuestionMeta(d.id, d.nistFunction, d.category, d.control, d.prompt), d.response, d.maturity)
  }

  /** `body.responses.map(...)` */
  function Dataset(rs: seq<ResponseItem>): (ds: seq<DatasetRow>)
    ensures |ds| == |rs|
  {
    seq(|rs|, i requires 0 <= i < |rs| => RowOf(rs[i]))
  }

  function ItemsOf(ds: seq<DatasetRow>): (rs: seq<ResponseItem>)
    ensures |rs| == |ds|
  {
    seq(|ds|, i requires 0 <= i < |ds| => ItemOf(ds[i]))
  }

  /** The projection loses nothing: every answer is recovered from its row, in order. */
  lemma DatasetRoundTrip(rs: seq<ResponseItem>)
    ensures ItemsOf(Dataset(rs)) == rs
  {
    var back := ItemsOf(Dataset(rs));
    forall i | 0 <= i < |rs|
      ensures back[i] == rs[i]
    {
      assert back[i] == ItemOf(RowOf(rs[i]));
    }
  }

  lemma RowsRoundTrip(ds: seq<DatasetRow>)
    ensures Dataset(ItemsOf(ds)) == ds
  {
  }

  // ---------------------------------------------------------------------
  // Server-side averages
  // ---------------------------------------------------------------------

  /**
   * The `byFunction` loop and the `Object.fromEntries` that follows it: one
   * entry per function present, in first-seen order, each the mean rating.
   */
  method ServerFunctionAverages(ds: seq<DatasetRow>) returns (avgs: seq<FnAverage>)
    ensures avgs == AveragesOf(ItemsOf(ds))
  {
    ghost var rs := ItemsOf(ds);
    var byFunction: map<NistFunction, Acc> := map[];
    var keys: seq<NistFunction> := [];
    for i := 0 to |ds|
      invariant Accumulated(rs, i, byFunction, keys)
    {
      ghost var before, keysBefore := byFunction, keys;
      var key := ds[i].nistFunction;
      assert rs[i].meta.nistFunction == key && rs[i].maturity == ds[i].maturity;
      if key !in byFunction {
        byFunction := byFunction[key := Acc(0, 0)];
        keys := keys + [key];
      }
      byFunction := byFunction[key := Acc(byFunction[key].total + ds[i].maturity, byFunction[key].count + 1)];
      AccumulateStep(rs, i, before, keysBefore, byFunction, keys);
    }
    EntriesOfAccumulated(rs, byFunction, keys);
    avgs := EntriesOf(byFunction, keys);
  }

  /** The server's averages of the dataset are exactly the client's averages of the submission. */
  lemma ServerAgreesWithClient(rs: seq<ResponseItem>)
    ensures AveragesOf(ItemsOf(Dataset(rs))) == AveragesOf(rs)
  {
    DatasetRoundTrip(rs);
  }

  // ---------------------------------------------------------------------
  // Reading the model's answer
  // ---------------------------------------------------------------------

  /** The characters `String.prototype.trim` removes: white space and line terminators. */
  predicate IsJsWhitespace(c: char)
  {
    c == '\t' || c == '\n' || c == '\U{0B}' || c == '\U{0C}' || c == '\r' || c == ' ' || c == '\U{A0}'
    || c == '\U{1680}' || ('\U{2000}' <= c <= '\U{200A}') || c == '\U{2028}' || c == '\U{2029}'
    || c == '\U{202F}' || c == '\U{205F}' || c == '\U{3000}' || c == '\U{FEFF}'
  }

  /** The number of white-space characters `trim` removes from the front. */
  function LeadingSpace(s: string): (n: nat)
    ensures n <= |s|
    ensures forall i :: 0 <= i < n ==> IsJsWhitespace(s[i])
    ensures n < |s| ==> !IsJsWhitespace(s[n])
  {
    if s != [] && IsJsWhitespace(s[0]) then 1 + LeadingSpace(s[1..]) else 0
  }

  /** The number of white-space characters `trim` removes from the back. */
  function TrailingSpace(s: string): (n: nat)
    ensures n <= |s|
    ensures forall i :: |s| - n <= i < |s| ==> IsJsWhitespace(s[i])
    ensures n < |s| ==> !IsJsWhitespace(s[|s| - n - 1])
  {
    if s != [] && IsJsWhitespace(s[|s| - 1]) then 1 + TrailingSpace(s[..|s| - 1]) else 0
  }

  /** `s.trim()`: the longest infix without white space at either end. */
  function Trim(s: string): (r: string)
    ensures var a := LeadingSpace(s);
      && a + |r| <= |s| && r == s[a..a + |r|]
      && (forall i :: 0 <= i < a ==> IsJsWhitespace(s[i]))
      && (forall i :: a + |r| <= i < |s| ==> IsJsWhitespace(s[i]))
    ensures r != [] ==> !IsJsWhitespace(r[0]) && !IsJsWhitespace(r[|r| - 1])
  {
    var t := s[LeadingSpace(s)..];
    t[..|t| - TrailingSpace(t)]
  }

  lemma TrimIdempotent(s: string)
    ensures Trim(Trim(s)) == Trim(s)
  {
    var r := Trim(s);
    assert LeadingSpace(r) == 0;
    assert TrailingSpace(r) == 0;
  }

  /** What `data?.choices?.[0]?.message?.content?.trim?.()` yields. */
  datatype ContentOutcome = Text(s: string) | Missing | Throws

  /** `x?.[0]`: the first element of an array, or the member "0" of an object. */
  function First(x: Option<Json>): Option<Json>
  {
    match x
    case Some(JArray(items)) => if |items| > 0 then Some(items[0]) else None
    case Some(JObject(_)) => Member(x.value, "0")
    case _ => None
  }

  /** `v?.key` on a possibly-absent value. */
  function Prop(x: Option<Json>, key: string): Option<Json>
  {
    if x.Some? then Member(x.value, key) else None
  }

  /** `data?.choices?.[0]?.message?.content` */
  function Content(data: Json): Option<Json>
  {
    Prop(Prop(First(Prop(Some(data), "choices")), "message"), "content")
  }

  /**
   * The trimmed message text. A string is trimmed; an object whose `trim`
   * member is set to anything but null makes the call throw; anything else
   * yields `undefined`.
   */
  function ModelContent(data: Json): (c: ContentOutcome)
    ensures c.Text? <==> Content(data).Some? && Content(data).value.JString?
    ensures c.Text? ==> c.s == Trim(Content(data).value.s)
    ensures c.Throws? <==> && Content(data).Some? && Content(data).value.JObject?
                           && Get(Content(data).value.fields, "trim").Some?
                           && Get(Content(data).value.fields, "trim") != Some(JNull)
  {
    var content := Content(data);
    match content
    case Some(JString(s)) => Text(Trim(s))
    case Some(JObject(fields)) =>
      var trim := Get(fields, "trim");
      if trim.None? || trim == Some(JNull) then Missing else Throws
    case _ => Missing
  }

  /** `s.indexOf(c)`: the first position of `c`, or -1. */
  function IndexOf(s: string, c: char): (r: int)
    ensures -1 <= r < |s|
    ensures r == -1 <==> c !in s
    ensures r >= 0 ==> s[r] == c && forall i :: 0 <= i < r ==> s[i] != c
  {
    if s == [] then -1
    else if s[0] == c then 0
    else
      var r := IndexOf(s[1..], c);
      if r == -1 then -1 else r + 1
  }

  /** `s.lastIndexOf(c)`: the last position of `c`, or -1. */
  function LastIndexOf(s: string, c: char): (r: int)
    ensures -1 <= r < |s|
    ensures r == -1 <==> c !in s
    ensures r >= 0 ==> s[r] == c && forall i :: r < i < |s| ==> s[i] != c
  {
    if s == [] then -1
    else if s[|s| - 1] == c then |s| - 1
    else
      var r := LastIndexOf(s[..|s| - 1], c);
      assert forall i :: 0 <= i < |s| - 1 ==> s[..|s| - 1][i] == s[i];
      r
  }

  /** `s.slice(start, end)` for non-negative bounds: clamped to the string, empty when end <= start. */
  function Slice(s: string, start: nat, end: nat): (r: string)
    ensures start <= end <= |s| ==> r == s[start..end]
    ensures end <= start ==> r == ""
  {
    var from := if start < |s| then start else |s|;
    var to := if end < |s| then end else |s|;
    if to <= from then "" else s[from..to]
  }

  /** Cuts the text from the first `{` through the last `}`; leaves it unchanged when either is missing. */
  function ExtractJsonText(content: string): (r: string)
    ensures '{' !in content || '}' !in content ==> r == content
    ensures '{' in content && '}' in content && IndexOf(content, '{') <= LastIndexOf(content, '}') ==>
      && r == content[IndexOf(content, '{')..LastIndexOf(content, '}') + 1]
      && r[0] == '{' && r[|r| - 1] == '}'
    ensures '{' in content && '}' in content && LastIndexOf(content, '}') < IndexOf(content, '{') ==> r == ""
  {
    var first := IndexOf(content, '{');
    var last := LastIndexOf(content, '}');
    if first != -1 && last != -1 then Slice(content, first, last + 1) else content
  }

  /** Extraction is idempotent: a cut text starts at its own first `{` and ends at its own last `}`. */
  lemma ExtractIdempotent(content: string)
    ensures ExtractJsonText(ExtractJsonText(content)) == ExtractJsonText(content)
  {
    var r := ExtractJsonText(content);
    if '{' in content && '}' in content && IndexOf(content, '{') <= LastIndexOf(content, '}') {
      assert IndexOf(r, '{') == 0;
      assert LastIndexOf(r, '}') == |r| - 1;
    }
  }

  // ---------------------------------------------------------------------
  // The handler
  // ---------------------------------------------------------------------

  /** What the call to the model returned: a thrown fetch, an HTTP error, or a 2xx whose body may not be JSON. */
  datatype Upstream = FetchFailed | HttpError(text: string) | HttpOk(data: Option<Json>)

  datatype ReplyBody =
    | ErrorReply(error: string)
    | ReportReply(report: Report, functionAverages: seq<FnAverage>, totalQuestions: nat)

  datatype Reply = Reply(status: int, body: ReplyBody)

  /**
   * `generateAssessmentReport`. `keys` are the three environment variables,
   * `upstream` the outcome of the model call, `parse` stands for `JSON.parse`
   * (None when it throws).
   */
  method GenerateAssessmentReport(body: Option<ReportRequest>, keys: (Option<string>, Option<string>, Option<string>),
                                  upstream: Upstream, parse: string -> Option<Json>) returns (reply: Reply)
    ensures !PayloadOk(body) ==> reply == Reply(400, ErrorReply("Invalid submission payload"))
    ensures PayloadOk(body) && ResolveApiKey(keys.0, keys.1, keys.2).None? ==> reply == Reply(503, ErrorReply("AI not configured"))
    ensures PayloadOk(body) && ResolveApiKey(keys.0, keys.1, keys.2).Some? ==>
      match upstream
      case FetchFailed => reply == Reply(500, ErrorReply("AI processing error"))
      case HttpError(_) => reply == Reply(502, ErrorReply("AI request failed"))
      case HttpOk(None) => reply == Reply(500, ErrorReply("AI processing error"))
      case HttpOk(Some(data)) =>
        match ModelContent(data)
        case Throws => reply == Reply(500, ErrorReply("AI processing error"))
        case Missing => reply == Reply(502, ErrorReply("Empty AI response"))
        case Text(c) =>
          if c == "" then reply == Reply(502, ErrorReply("Empty AI response"))
          else match parse(ExtractJsonText(c))
            case None => reply == Reply(502, ErrorReply("Failed to parse AI JSON"))
            case Some(parsed) =>
              match ParseReport(parsed)
              case None => reply == Reply(502, ErrorReply("AI JSON did not match schema"))
              case Some(report) =>
                reply == Reply(200, ReportReply(report, AveragesOf(body.value.responses.items), |body.value.responses.items|))
  {
    if !PayloadOk(body) {
      return Reply(400, ErrorReply("Invalid submission payload"));
    }
    var apiKey := ResolveApiKey(keys.0, keys.1, keys.2);
    if apiKey.None? {
      return Reply(503, ErrorReply("AI not configured"));
    }
    var items := body.value.responses.items;
    var dataset := Dataset(items);
    var functionAverages := ServerFunctionAverages(dataset);
    ServerAgreesWithClient(items);
    match upstream {
      case FetchFailed =>
        return Reply(500, ErrorReply("AI processing error"));
      case HttpError(_) =>
        return Reply(502, ErrorReply("AI request failed"));
      case HttpOk(None) =>
        return Reply(500, ErrorReply("AI processing error"));
      case HttpOk(Some(data)) =>
        var content := ModelContent(data);
        if content.Throws? {
          return Reply(500, ErrorReply("AI processing error"));
        }
        if content.Missing? || content.s == "" {
          return Reply(502, ErrorReply("Empty AI response"));
        }
        var jsonText := ExtractJsonText(content.s);
        var parsed := parse(jsonText);
        if parsed.None? {
          return Reply(502, ErrorReply("Failed to parse AI JSON"));
        }
        var safe := ParseReport(parsed.value);
        if safe.None? {
          return Reply(502, ErrorReply("AI JSON did not match schema"));
        }
        return Reply(200, ReportReply(safe.value, functionAverages, |body.value.responses.items|));
    }
  }
}
