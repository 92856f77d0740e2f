/**
 * The persistence endpoint: the submission schema the server re-checks,
 * and the handler that stores a valid submission as one header row plus
 * one row per answer inside a single transaction.
 */
module Assessments {
  import opened Wrappers
  import opened Json
  import opened Api
  import opened ReportSchema
  import Catalog

  // ---------------------------------------------------------------------
  // Schemas
  // ---------------------------------------------------------------------

  /** `z.union([z.literal(0), ..., z.literal(4)])` */
  function ParseMaturity(v: Option<Json>): (r: Option<Maturity>)
    ensures r.Some? ==> v == Some(JNumber(r.value as real))
    ensures v.Some? && v.value.JNumber? && v.value.n in {0.0, 1.0, 2.0, 3.0, 4.0} ==> r.Some?
  {
    match v
    case Some(JNumber(n)) =>
      if n == 0.0 then Some(0)
      else if n == 1.0 then Some(1)
      else if n == 2.0 then Some(2)
      else if n == 3.0 then Some(3)
      else if n == 4.0 then Some(4)
      else None
    case _ => None
  }

  /** Every rating is read back as itself. */
  lemma MaturityRoundTrip(m: Maturity)
    ensures ParseMaturity(Some(JNumber(m as real))) == Some(m)
  {
    if m == 0 {
    } else if m == 1 {
    } else if m == 2 {
    } else if m == 3 {
    } else {
      assert m == 4;
    }
  }

  /** `z.enum([...six tags...])` */
  function ParseNistFunction(v: Option<Json>): (r: Option<NistFunction>)
    ensures r.Some? ==> v == Some(JString(Name(r.value)))
    ensures (exists f :: v == Some(JString(Name(f)))) ==> r.Some?
  {
    match v
    case Some(JString(s)) => ParseFunction(s)
    case _ =>
      None
  }

  /** The `meta` object: five required members, the function one of the six tags. */
  function ParseMeta(v: Option<Json>): (r: Option<QuestionMeta>)
    ensures r.Some? ==> v.Some? && v.value.JObject?
    ensures r.Some? ==>
      && Member(v.value, "id") == Some(JString(r.value.id))
      && Member(v.value, "nistFunction") == Some(JString(Name(r.value.nistFunction)))
      && Member(v.value, "category") == Some(JString(r.value.category))
      && Member(v.value, "control") == Some(JString(r.value.control))
      && Member(v.value, "prompt") == Some(JString(r.value.prompt))
  {
    if v.None? || !v.value.JObject? then None
    else
      var j := v.value;
      var id := RequiredString(Member(j, "id"));
      var fn := ParseNistFunction(Member(j, "nistFunction"));
      var category := RequiredString(Member(j, "category"));
      var control := RequiredString(Member(j, "control"));
      var prompt := RequiredString(Member(j, "prompt"));
      if id.Some? && fn.Some? && category.Some? && control.Some? && prompt.Some? then
        Some(QuestionMeta(id.value, fn.value, category.value, control.value, prompt.value))
      else None
  }

  /** What `ResponseItemSchema` adds to the types: the response text is non-empty. */
  predicate ItemValid(it: ResponseItem)
  {
    |it.response| >= 1
  }

  /** `ResponseItemSchema`: metadata, a non-empty response, a literal rating 0..4. */
  function ParseItem(j: Json): (r: Option<ResponseItem>)
    ensures r.Some? ==> j.JObject? && ItemValid(r.value)
    ensures r.Some? ==>
      && ParseMeta(Member(j, "meta")) == Some(r.value.meta)
      && Member(j, "response") == Some(JString(r.value.response))
      && Member(j, "maturity") == Some(JNumber(r.value.maturity as real))
  {
    if !j.JObject? then None
    else
      var meta := ParseMeta(Member(j, "meta"));
      var response := RequiredString(Member(j, "response"));
      var maturity := ParseMaturity(Member(j, "maturity"));
      if meta.Some? && response.Some? && |response.value| >= 1 && maturity.Some? then
        Some(ResponseItem(meta.value, response.value, maturity.value))
      else None
  }

  function Items(items: seq<Json>): (r: Option<seq<ResponseItem>>)
    ensures r.Some? <==> forall i :: 0 <= i < |items| ==> ParseItem(items[i]).Some?
    ensures r.Some? ==> |r.value| == |items| && forall i :: 0 <= i < |items| ==> ParseItem(items[i]) == Some(r.value[i])
  {
    if items == [] then Some([])
    else
      match (ParseItem(items[0]), Items(items[1..]))
      case (Some(x), Some(rest)) => Some([x] + rest)
      case _ => None
  }

  /**
   * What `SubmissionSchema` adds to the types: an organisation of at least two
   * characters, an e-mail address (`isEmail` stands for zod's `.email()`),
   * at least one answer, every answer valid.
   */
  predicate SubmissionValid(s: Submission, isEmail: string -> bool)
  {
    && |s.organization| >= 2
    && isEmail(s.contactEmail)
    && |s.responses| >= 1
    && forall i :: 0 <= i < |s.responses| ==> ItemValid(s.responses[i])
  }

  /** `SubmissionSchema.safeParse`: the validated submission, or None. Unknown members are dropped. */
  function ParseSubmission(j: Json, isEmail: string -> bool): (r: Option<Submission>)
    ensures r.Some? ==> SubmissionValid(r.value, isEmail)
    ensures r.Some? ==>
      && Member(j, "organization") == Some(JString(r.value.organization))
      && Member(j, "contactEmail") == Some(JString(r.value.contactEmail))
      && Member(j, "submittedAt") == Some(JString(r.value.submittedAt))
    ensures r.Some? ==> exists items :: Member(j, "responses") == Some(JArray(items)) && Items(items) == Some(r.value.responses)
  {
    if !j.JObject? then None
    else
      var organization := RequiredString(Member(j, "organization"));
      var contactEmail := RequiredString(Member(j, "contactEmail"));
      var submittedAt := RequiredString(Member(j, "submittedAt"));
      var responses := Member(j, "responses");
      if organization.Some? && |organization.value| >= 2 && contactEmail.Some? && isEmail(contactEmail.value)
         && submittedAt.Some? && responses.Some? && responses.value.JArray?
      then
        var items := Items(responses.value.items);
        if items.Some? && |items.value| >= 1 then
          Some(Submission(organization.value, contactEmail.value, submittedAt.value, items.value))
        else None
      else None
  }

  // Encoders: the submission as the client sends it.

  function MetaToJson(m: QuestionMeta): Json
  {
    JObject([Field("id", JString(m.id)), Field("nistFunction", JString(Name(m.nistFunction))),
             Field("category", JString(m.category)), Field("control", JString(m.control)),
             Field("prompt", JString(m.prompt))])
  }

  function ItemToJson(it: ResponseItem): Json
  {
    JObject([Field("meta", MetaToJson(it.meta)), Field("response", JString(it.response)),
             Field("maturity", JNumber(it.maturity as real))])
  }

  function ItemsToJson(rs: seq<ResponseItem>): seq<Json>
  {
    seq(|rs|, i requires 0 <= i < |rs| => ItemToJson(rs[i]))
  }

  function SubmissionToJson(s: Submission): Json
  {
    JObject([Field("organization", JString(s.organization)), Field("contactEmail", JString(s.contactEmail)),
             Field("submittedAt", JString(s.submittedAt)), Field("responses", JArray(ItemsToJson(s.responses)))])
  }

  lemma MetaRoundTrip(m: QuestionMeta)
    ensures ParseMeta(Some(MetaToJson(m))) == Some(m)
  {
    var fields := MetaToJson(m).fields;
    assert KeysDistinct(fields);
    GetListed(fields, 0);
    GetListed(fields, 1);
    GetListed(fields, 2);
    GetListed(fields, 3);
    GetListed(fields, 4);
    ParseFunctionName(m.nistFunction);
  }

  /** A valid answer survives encoding and re-validation unchanged. */
  lemma ItemRoundTrip(it: ResponseItem)
    requires ItemValid(it)
    ensures ParseItem(ItemToJson(it)) == Some(it)
  {
    var j := ItemToJson(it);
    assert KeysDistinct(j.fields);
    GetListed(j.fields, 0);
    GetListed(j.fields, 1);
    GetListed(j.fields, 2);
    MetaRoundTrip(it.meta);
    assert ParseMeta(Member(j, "meta")) == Some(it.meta);
    assert RequiredString(Member(j, "response")) == Some(it.response);
    MaturityRoundTrip(it.maturity);
  }

  lemma ItemsRoundTrip(rs: seq<ResponseItem>)
    requires forall i :: 0 <= i < |rs| ==> ItemValid(rs[i])
    ensures Items(ItemsToJson(rs)) == Some(rs)
  {
    var items := ItemsToJson(rs);
    forall i | 0 <= i < |items|
      ensures ParseItem(items[i]) == Some(rs[i])
    {
      ItemRoundTrip(rs[i]);
    }
    ItemsOf(items, rs);
  }

  lemma ItemsOf(items: seq<Json>, rs: seq<ResponseItem>)
    requires |items| == |rs|
    requires forall i :: 0 <= i < |items| ==> ParseItem(items[i]) == Some(rs[i])
    ensures Items(items) == Some(rs)
  {
    var r := Items(items);
    assert r.Some?;
    assert r.value == rs;
  }

  /** The schema accepts exactly the valid submissions: each one survives encoding and re-validation. */
  lemma SubmissionRoundTrip(s: Submission, isEmail: string -> bool)
    requires SubmissionValid(s, isEmail)
    ensures ParseSubmission(SubmissionToJson(s), isEmail) == Some(s)
  {
    var fields := SubmissionToJson(s).fields;
    assert KeysDistinct(fields);
    GetListed(fields, 0);
    GetListed(fields, 1);
    GetListed(fields, 2);
    GetListed(fields, 3);
    ItemsRoundTrip(s.responses);
  }

  /** A too-short organisation name is refused whatever else the body holds. */
  lemma ShortOrganizationRejected(j: Json, isEmail: string -> bool)
    requires exists o :: Member(j, "organization") == Some(JString(o)) && |o| < 2
    ensures ParseSubmission(j, isEmail).None?
  {
  }

  /** An empty answer list is refused. */
  lemma NoResponsesRejected(j: Json, isEmail: string -> bool)
    requires Member(j, "responses") == Some(JArray([]))
    ensures ParseSubmission(j, isEmail).None?
  {
  }

  /** Whatever the client's form accepts, the server's schema accepts unchanged. */
  lemma FormSubmissionAccepted(v: Catalog.FormValues, isEmail: string -> bool, now: string)
    requires Catalog.FormValid(v, isEmail)
    ensures SubmissionValid(Catalog.BuildSubmission(v, isEmail, now), isEmail)
    ensures ParseSubmission(SubmissionToJson(Catalog.BuildSubmission(v, isEmail, now)), isEmail)
         == Some(Catalog.BuildSubmission(v, isEmail, now))
  {
    var s := Catalog.BuildSubmission(v, isEmail, now);
    assert |Catalog.Questions| == 15;
    SubmissionRoundTrip(s, isEmail);
  }

  // ---------------------------------------------------------------------
  // The store: two tables and one transaction
  // ---------------------------------------------------------------------

  /** A row of `assessments`. */
  datatype AssessmentRow = AssessmentRow(id: nat, organization: string, contactEmail: string, submittedAt: string)

  /** A row of `assessment_responses`. */
  datatype ResponseRow = ResponseRow(
    assessmentId: nat,
    metaId: string,
    nistFunction: NistFunction,
    category: string,
    control: string,
    prompt: string,
    response: string,
    maturity: Maturity)

  /** The eight insert parameters of one answer. */
  function ResponseRowOf(assessmentId: nat, it: ResponseItem): ResponseRow
  {
    ResponseRow(assessmentId, it.meta.id, it.meta.nistFunction, it.meta.category, it.meta.control,
                it.meta.prompt, it.response, it.maturity)
  }

  /** A stored answer read back. */
  function ItemOfRow(r: ResponseRow): ResponseItem
  {
    ResponseItem(QuestionMeta(r.metaId, r.nistFunction, r.category, r.control, r.prompt), r.response, r.maturity)
  }

  /** The rows the insert loop writes for `items`, in order, each tagged with the header id. */
  function ResponseRows(assessmentId: nat, items: seq<ResponseItem>): (rows: seq<ResponseRow>)
    ensures |rows| == |items|
    ensures forall i :: 0 <= i < |items| ==> rows[i].assessmentId == assessmentId && ItemOfRow(rows[i]) == items[i]
  {
    seq(|items|, i requires 0 <= i < |items| => ResponseRowOf(assessmentId, items[i]))
  }

  lemma ResponseRowsStep(assessmentId: nat, items: seq<ResponseItem>, i: nat)
    requires i < |items|
    ensures ResponseRows(assessmentId, items[..i + 1]) == ResponseRows(assessmentId, items[..i]) + [ResponseRowOf(assessmentId, items[i])]
  {
    var a := ResponseRows(assessmentId, items[..i + 1]);
    var b := ResponseRows(assessmentId, items[..i]) + [ResponseRowOf(assessmentId, items[i])];
    forall k | 0 <= k < |a|
      ensures a[k] == b[k]
    {
    }
  }

  function IdsOf(headers: seq<AssessmentRow>): (ids: seq<nat>)
    ensures |ids| == |headers| && forall i :: 0 <= i < |headers| ==> ids[i] == headers[i].id
  {
    seq(|headers|, i requires 0 <= i < |headers| => headers[i].id)
  }

  /**
   * The tables' integrity: header ids increase and lie below the next id
   * the sequence hands out, and every answer row names an existing header.
   */
  ghost predicate Consistent(headers: seq<AssessmentRow>, rows: seq<ResponseRow>, nextId: nat)
  {
    && (forall i :: 0 <= i < |headers| ==> headers[i].id < nextId)
    && (forall i, j :: 0 <= i < j < |headers| ==> headers[i].id < headers[j].id)
    && (forall k :: 0 <= k < |rows| ==> rows[k].assessmentId in IdsOf(headers))
  }

  /** The database as the handler sees it through one pooled connection. */
  class Store {
    var assessments: seq<AssessmentRow>
    var responses: seq<ResponseRow>
    /** The `assessments.id` sequence; a rollback does not return the numbers it handed out. */
    var nextId: nat
    var inTransaction: bool
    /** The tables as they were at BEGIN. */
    var savedAssessments: seq<AssessmentRow>
    var savedResponses: seq<ResponseRow>

    ghost predicate Valid()
      reads this
    {
      && Consistent(assessments, responses, nextId)
      && (inTransaction ==> Consistent(savedAssessments, savedResponses, nextId))
    }

    constructor()
      ensures Valid() && !inTransaction
      ensures assessments == [] && responses == [] && nextId == 1
    {
      assessments := [];
      responses := [];
      nextId := 1;
      inTransaction := false;
      savedAssessments := [];
      savedResponses := [];
    }

    /** BEGIN */
    method Begin()
      requires Valid() && !inTransaction
      modifies this
      ensures Valid() && inTransaction
      ensures assessments == old(assessments) && responses == old(responses) && nextId == old(nextId)
      ensures savedAssessments == assessments && savedResponses == responses
    {
      inTransaction := true;
      savedAssessments := assessments;
      savedResponses := responses;
    }

    /** INSERT INTO assessments ... RETURNING id */
    method InsertAssessment(organization: string, contactEmail: string, submittedAt: string) returns (id: nat)
      requires Valid() && inTransaction
      modifies this
      ensures Valid() && inTransaction
      ensures id == old(nextId) && nextId == old(nextId) + 1
      ensures assessments == old(assessments) + [AssessmentRow(id, organization, contactEmail, submittedAt)]
      ensures responses == old(responses)
      ensures savedAssessments == old(savedAssessments) && savedResponses == old(savedResponses)
      ensures id in IdsOf(assessments)
    {
      id := nextId;
      assert IdsOf(assessments + [AssessmentRow(id, organization, contactEmail, submittedAt)])
          == IdsOf(assessments) + [id];
      assessments := assessments + [AssessmentRow(id, organization, contactEmail, submittedAt)];
      nextId := nextId + 1;
    }

    /** INSERT INTO assessment_responses ... */
    method InsertResponse(row: ResponseRow)
      requires Valid() && inTransaction
      requires row.assessmentId in IdsOf(assessments)
      modifies this
      ensures Valid() && inTransaction
      ensures responses == old(responses) + [row]
      ensures assessments == old(assessments) && nextId == old(nextId)
      ensures savedAssessments == old(savedAssessments) && savedResponses == old(savedResponses)
    {
      responses := responses + [row];
    }

    /** COMMIT */
    method Commit()
      requires Valid() && inTransaction
      modifies this
      ensures Valid() && !inTransaction
      ensures assessments == old(assessments) && responses == old(responses) && nextId == old(nextId)
    {
      inTransaction := false;
    }

    /** ROLLBACK: the tables return to their state at BEGIN; outside a transaction nothing happens. */
    method Rollback()
      requires Valid()
      modifies this
      ensures Valid() && !inTransaction
      ensures old(inTransaction) ==> assessments == old(savedAssessments) && responses == old(savedResponses)
      ensures !old(inTransaction) ==> assessments == old(assessments) && responses == old(responses)
      ensures nextId == old(nextId)
    {
      if inTransaction {
        assessments := savedAssessments;
        responses := savedResponses;
        inTransaction := false;
      }
    }
  }

  // ---------------------------------------------------------------------
  // Reading a stored submission back
  // ---------------------------------------------------------------------

  /** The answer rows of one header, in table order. */
  function RowsFor(rows: seq<ResponseRow>, id: nat): (sel: seq<ResponseRow>)
    ensures |sel| <= |rows|
    ensures forall r :: r in sel ==> r in rows && r.assessmentId == id
    ensures forall r :: r in rows && r.assessmentId == id ==> r in sel
  {
    if rows == [] then []
    else
      var init := RowsFor(rows[..|rows| - 1], id);
      if rows[|rows| - 1].assessmentId == id then init + [rows[|rows| - 1]] else init
  }

  function ItemsOfRows(rows: seq<ResponseRow>): seq<ResponseItem>
  {
    seq(|rows|, i requires 0 <= i < |rows| => ItemOfRow(rows[i]))
  }

  function FindHeader(headers: seq<AssessmentRow>, id: nat): (r: Option<AssessmentRow>)
    ensures r.Some? ==> r.value in headers && r.value.id == id
    ensures r.None? ==> id !in IdsOf(headers)
  {
    if headers == [] then None
    else if headers[|headers| - 1].id == id then Some(headers[|headers| - 1])
    else
      var r := FindHeader(headers[..|headers| - 1], id);
      assert IdsOf(headers) == IdsOf(headers[..|headers| - 1]) + [headers[|headers| - 1].id];
      r
  }

  /** The submission stored under `id`: its header and its answer rows. */
  function ReadBack(headers: seq<AssessmentRow>, rows: seq<ResponseRow>, id: nat): Option<Submission>
  {
    match FindHeader(headers, id)
    case None => None
    case Some(h) => Some(Submission(h.organization, h.contactEmail, h.submittedAt, ItemsOfRows(RowsFor(rows, id))))
  }

  lemma {:induction false} RowsForAppend(a: seq<ResponseRow>, b: seq<ResponseRow>, id: nat)
    ensures RowsFor(a + b, id) == RowsFor(a, id) + RowsFor(b, id)
  {
    if b != [] {
      var b' := b[..|b| - 1];
      assert (a + b)[..|a + b| - 1] == a + b';
      RowsForAppend(a, b', id);
    } else {
      assert a + b == a;
    }
  }

  lemma {:induction false} RowsForNone(rows: seq<ResponseRow>, id: nat)
    requires forall k :: 0 <= k < |rows| ==> rows[k].assessmentId != id
    ensures RowsFor(rows, id) == []
  {
    if rows != [] {
      RowsForNone(rows[..|rows| - 1], id);
    }
  }

  lemma {:induction false} RowsForAll(rows: seq<ResponseRow>, id: nat)
    requires forall k :: 0 <= k < |rows| ==> rows[k].assessmentId == id
    ensures RowsFor(rows, id) == rows
  {
    if rows != [] {
      var init := rows[..|rows| - 1];
      RowsForAll(init, id);
      assert rows == init + [rows[|rows| - 1]];
    }
  }

  /**
   * After a committed insert the store holds the submission under the new
   * id: the header, and exactly its answers in submission order.
   */
  lemma StoredReadsBack(headers: seq<AssessmentRow>, rows: seq<ResponseRow>, id: nat, s: Submission)
    requires Consistent(headers, rows, id)
    ensures ReadBack(headers + [AssessmentRow(id, s.organization, s.contactEmail, s.submittedAt)],
                     rows + ResponseRows(id, s.responses), id) == Some(s)
  {
    var h := AssessmentRow(id, s.organization, s.contactEmail, s.submittedAt);
    var added := ResponseRows(id, s.responses);
    FreshIdUnused(headers, rows, id);
    RowsForNone(rows, id);
    RowsForAll(added, id);
    RowsForAppend(rows, added, id);
    ItemsOfRowsBack(id, s.responses);
    assert RowsFor(rows + added, id) == added;
    assert FindHeader(headers + [h], id) == Some(h);
  }

  /** No stored answer row names the id the sequence hands out next. */
  lemma FreshIdUnused(headers: seq<AssessmentRow>, rows: seq<ResponseRow>, id: nat)
    requires Consistent(headers, rows, id)
    ensures forall k :: 0 <= k < |rows| ==> rows[k].assessmentId != id
  {
    forall k | 0 <= k < |rows|
      ensures rows[k].assessmentId != id
    {
      var ids := IdsOf(headers);
      assert rows[k].assessmentId in ids;
      var i :| 0 <= i < |ids| && ids[i] == rows[k].assessmentId;
      assert headers[i].id < id;
    }
  }

  /** The rows written for some answers read back as those answers. */
  lemma ItemsOfRowsBack(id: nat, items: seq<ResponseItem>)
    ensures ItemsOfRows(ResponseRows(id, items)) == items
  {
    var back := ItemsOfRows(ResponseRows(id, items));
    assert |back| == |items|;
    forall i | 0 <= i < |items|
      ensures back[i] == items[i]
    {
    }
  }

  // ---------------------------------------------------------------------
  // The handler
  // ---------------------------------------------------------------------

  /**
   * Where the database call fails, if it does: connecting, BEGIN, the
   * header insert, the insert of answer `index`, or COMMIT. An `index` past
   * the last answer never fires.
   */
  datatype Fault = NoFault | ConnectFails | BeginFails | HeaderFails | ItemFails(index: nat) | CommitFails

  predicate Fails(fault: Fault, answers: nat)
  {
    fault != NoFault && !(fault.ItemFails? && fault.index >= answers)
  }

  datatype SubmitBody = Created(id: nat) | SubmitError(error: string)

  datatype SubmitReply = SubmitReply(status: int, body: SubmitBody)

  /** The `for` loop of per-answer inserts; it stops at the answer whose insert fails. */
  method InsertAnswers(db: Store, assessmentId: nat, items: seq<ResponseItem>, fault: Fault) returns (inserted: bool)
    requires db.Valid() && db.inTransaction && assessmentId in IdsOf(db.assessments)
    modifies db
    ensures db.Valid() && db.inTransaction
    ensures db.assessments == old(db.assessments) && db.nextId == old(db.nextId)
    ensures db.savedAssessments == old(db.savedAssessments) && db.savedResponses == old(db.savedResponses)
    ensures inserted <==> !(fault.ItemFails? && fault.index < |items|)
    ensures inserted ==> db.responses == old(db.responses) + ResponseRows(assessmentId, items)
  {
    for i := 0 to |items|
      invariant db.Valid() && db.inTransaction
      invariant db.assessments == old(db.assessments) && db.nextId == old(db.nextId)
      invariant db.savedAssessments == old(db.savedAssessments) && db.savedResponses == old(db.savedResponses)
      invariant db.responses == old(db.responses) + ResponseRows(assessmentId, items[..i])
      invariant !(fault.ItemFails? && fault.index < i)
    {
      if fault == ItemFails(i) {
        return false;
      }
      ResponseRowsStep(assessmentId, items, i);
      db.InsertResponse(ResponseRowOf(assessmentId, items[i]));
    }
    assert items[..|items|] == items;
    return true;
  }

  /**
   * The `try` block of `submitAssessment`: connect, BEGIN, the header
   * insert, one insert per answer, COMMIT; on any failure ROLLBACK and 500.
   */
  method Persist(db: Store, data: Submission, fault: Fault) returns (reply: SubmitReply)
    requires db.Valid() && !db.inTransaction
    modifies db
    ensures db.Valid() && !db.inTransaction && db.nextId >= old(db.nextId)
    ensures !Fails(fault, |data.responses|) ==>
      && reply == SubmitReply(201, Created(old(db.nextId)))
      && db.assessments == old(db.assessments) + [AssessmentRow(old(db.nextId), data.organization, data.contactEmail, data.submittedAt)]
      && db.responses == old(db.responses) + ResponseRows(old(db.nextId), data.responses)
      && ReadBack(db.assessments, db.responses, old(db.nextId)) == Some(data)
    ensures Fails(fault, |data.responses|) ==>
      && reply == SubmitReply(500, SubmitError("Failed to persist assessment"))
      && db.assessments == old(db.assessments) && db.responses == old(db.responses)
  {
    if fault == ConnectFails {
      return SubmitReply(500, SubmitError("Failed to persist assessment"));
    }
    if fault == BeginFails {
      db.Rollback();
      return SubmitReply(500, SubmitError("Failed to persist assessment"));
    }
    db.Begin();
    if fault == HeaderFails {
      db.Rollback();
      return SubmitReply(500, SubmitError("Failed to persist assessment"));
    }
    var assessmentId := db.InsertAssessment(data.organization, data.contactEmail, data.submittedAt);
    var inserted := InsertAnswers(db, assessmentId, data.responses, fault);
    if !inserted || fault == CommitFails {
      db.Rollback();
      return SubmitReply(500, SubmitError("Failed to persist assessment"));
    }
    db.Commit();
    StoredReadsBack(old(db.assessments), old(db.responses), assessmentId, data);
    return SubmitReply(201, Created(assessmentId));
  }

  /**
   * `submitAssessment`: validate, then look for the pool (`db == null` when
   * none is configured), then persist in one transaction.
   */
  method SubmitAssessment(body: Json, isEmail: string -> bool, db: Store?, fault: Fault) returns (reply: SubmitReply)
    requires db != null ==> db.Valid() && !db.inTransaction
    modifies db
    ensures db != null ==> db.Valid() && !db.inTransaction && db.nextId >= old(db.nextId)
    ensures ParseSubmission(body, isEmail).None? ==>
      reply == SubmitReply(400, SubmitError("Invalid submission payload")) && (db != null ==> unchanged(db))
    ensures ParseSubmission(body, isEmail).Some? && db == null ==>
      reply == SubmitReply(503, SubmitError("Database not configured"))
    ensures ParseSubmission(body, isEmail).Some? && db != null && !Fails(fault, |ParseSubmission(body, isEmail).value.responses|) ==>
      var s := ParseSubmission(body, isEmail).value;
      && reply == SubmitReply(201, Created(old(db.nextId)))
      && db.assessments == old(db.assessments) + [AssessmentRow(old(db.nextId), s.organization, s.contactEmail, s.submittedAt)]
      && db.responses == old(db.responses) + ResponseRows(old(db.nextId), s.responses)
      && ReadBack(db.assessments, db.responses, old(db.nextId)) == Some(s)
    ensures ParseSubmission(body, isEmail).Some? && db != null && Fails(fault, |ParseSubmission(body, isEmail).value.responses|) ==>
      && reply == SubmitReply(500, SubmitError("Failed to persist assessment"))
      && db.assessments == old(db.assessments) && db.responses == old(db.responses)
  {
    var parsed := ParseSubmission(body, isEmail);
    if parsed.None? {
      return SubmitReply(400, SubmitError("Invalid submission payload"));
    }
    if db == null {
      return SubmitReply(503, SubmitError("Database not configured"));
    }
    reply := Persist(db, parsed.value, fault);
  }
}
