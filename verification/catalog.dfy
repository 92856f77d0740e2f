/**
 * The question catalogue shown by the assessment form, its grouping by
 * function, the form's validation rules, and the submission the form builds.
 */
module Catalog {
  import opened Api

  /** A catalogue entry; the control and prompt prose is not part of this model. */
  function Q(id: string, fn: NistFunction, category: string): QuestionMeta
  {
    QuestionMeta(id, fn, category, "", "")
  }

  const Questions: seq<QuestionMeta> := [
    Q("GO.SC-1", GOVERN, "GO.SC: Strategic Context"),
    Q("GO.RM-1", GOVERN, "GO.RM: Risk Management"),
    Q("ID.AM-1", IDENTIFY, "ID.AM: Asset Management"),
    Q("ID.AM-2", IDENTIFY, "ID.AM: Asset Management"),
    Q("ID.AM-3", IDENTIFY, "ID.AM: Asset Management"),
    Q("ID.BE-3", IDENTIFY, "ID.BE: Business Environment"),
    Q("PR.AC-4", PROTECT, "PR.AC: Identity Management & Access Control"),
    Q("PR.DS-1", PROTECT, "PR.DS: Data Security"),
    Q("PR.DS-4", PROTECT, "PR.DS: Data Security"),
    Q("PR.PT-1", PROTECT, "PR.PT: Protective Technology"),
    Q("DE.CM-1", DETECT, "DE.CM: Security Continuous Monitoring"),
    Q("RS.RP-1", RESPOND, "RS.RP: Response Planning"),
    Q("RS.MI-1", RESPOND, "RS.MI: Mitigation"),
    Q("RC.RP-1", RECOVER, "RC.RP: Recovery Planning"),
    Q("RC.IM-1", RECOVER, "RC.IM: Improvements")
  ]

  // ---------------------------------------------------------------------
  // groupByFunction
  // ---------------------------------------------------------------------

  /** The function tags of the questions, in order. */
  function Tags(qs: seq<QuestionMeta>): (fs: seq<NistFunction>)
    ensures |fs| == |qs| && forall i :: 0 <= i < |qs| ==> fs[i] == qs[i].nistFunction
  {
    seq(|qs|, i requires 0 <= i < |qs| => qs[i].nistFunction)
  }

  /** The questions among the first `n` tagged `f`, in catalogue order. */
  function QuestionsUpTo(qs: seq<QuestionMeta>, n: nat, f: NistFunction): (group: seq<QuestionMeta>)
    requires n <= |qs|
    ensures forall k :: 0 <= k < |group| ==> group[k].nistFunction == f
  {
    if n == 0 then []
    else QuestionsUpTo(qs, n - 1, f) + (if qs[n - 1].nistFunction == f then [qs[n - 1]] else [])
  }

  function QuestionsFor(qs: seq<QuestionMeta>, f: NistFunction): seq<QuestionMeta>
  {
    QuestionsUpTo(qs, |qs|, f)
  }

  /**
   * `items.reduce((acc, q) => { (acc[q.nistFunction] ||= []).push(q); ... }, {})`:
   * one group per function that occurs, keyed in first-seen order, each
   * holding that function's questions in catalogue order.
   */
  method GroupByFunction(qs: seq<QuestionMeta>) returns (groups: map<NistFunction, seq<QuestionMeta>>, keys: seq<NistFunction>)
    ensures keys == FirstSeen(Tags(qs))
    ensures forall f :: f in groups <==> f in keys
    ensures forall f :: f in groups ==> groups[f] == QuestionsFor(qs, f)
  {
    ghost var fs := Tags(qs);
    groups := map[];
    keys := [];
    for i := 0 to |qs|
      invariant keys == FirstSeen(fs[..i])
      invariant forall f :: f in groups <==> f in keys
      invariant forall f :: f in groups ==> groups[f] == QuestionsUpTo(qs, i, f)
      invariant forall f :: f !in groups ==> QuestionsUpTo(qs, i, f) == []
    {
      FirstSeenStep(fs, i);
      var f := qs[i].nistFunction;
      if f !in groups {
        groups := groups[f := []];
        keys := keys + [f];
      }
      groups := groups[f := groups[f] + [qs[i]]];
    }
    assert fs[..|qs|] == fs;
  }

  /** Each question lands in exactly one group: the group sizes add up to the number of questions. */
  lemma {:induction false} GroupsPartition(qs: seq<QuestionMeta>, n: nat)
    requires n <= |qs|
    ensures |QuestionsUpTo(qs, n, GOVERN)| + |QuestionsUpTo(qs, n, IDENTIFY)| + |QuestionsUpTo(qs, n, PROTECT)|
      + |QuestionsUpTo(qs, n, DETECT)| + |QuestionsUpTo(qs, n, RESPOND)| + |QuestionsUpTo(qs, n, RECOVER)| == n
  {
    if n > 0 {
      GroupsPartition(qs, n - 1);
    }
  }

  /** A question belongs to the group of its own function. */
  lemma {:induction false} InOwnGroup(qs: seq<QuestionMeta>, n: nat, i: nat)
    requires i < n <= |qs|
    ensures qs[i] in QuestionsUpTo(qs, n, qs[i].nistFunction)
  {
    if i < n - 1 {
      InOwnGroup(qs, n - 1, i);
    }
  }

  /** The function tags of the catalogue, in order. */
  const CatalogFunctions: seq<NistFunction> := [GOVERN, GOVERN, IDENTIFY, IDENTIFY, IDENTIFY, IDENTIFY,
    PROTECT, PROTECT, PROTECT, PROTECT, DETECT, RESPOND, RESPOND, RECOVER, RECOVER]

  lemma CatalogTags()
    ensures Tags(Questions) == CatalogFunctions
  {
  }

  /** On the catalogue the accordion lists all six functions, in the fixed order. */
  lemma CatalogGroupOrder()
    ensures FirstSeen(Tags(Questions)) == AllFunctions
  {
    CatalogTags();
    FirstSeenCatalog();
  }

  lemma FirstSeenCatalog()
    ensures FirstSeen(CatalogFunctions) == AllFunctions
  {
    FirstSeenCatalogTo15();
    assert CatalogFunctions[..15] == CatalogFunctions;
  }

  lemma FirstSeenCatalogTo5()
    ensures FirstSeen(CatalogFunctions[..5]) == [GOVERN, IDENTIFY]
  {
    assert CatalogFunctions[..0] == [];
    FirstSeenStep(CatalogFunctions, 0);
    FirstSeenStep(CatalogFunctions, 1);
    FirstSeenStep(CatalogFunctions, 2);
    FirstSeenStep(CatalogFunctions, 3);
    FirstSeenStep(CatalogFunctions, 4);
  }

  lemma FirstSeenCatalogTo10()
    ensures FirstSeen(CatalogFunctions[..10]) == [GOVERN, IDENTIFY, PROTECT]
  {
    FirstSeenCatalogTo5();
    FirstSeenStep(CatalogFunctions, 5);
    FirstSeenStep(CatalogFunctions, 6);
    FirstSeenStep(CatalogFunctions, 7);
    FirstSeenStep(CatalogFunctions, 8);
    FirstSeenStep(CatalogFunctions, 9);
  }

  lemma FirstSeenCatalogTo12()
    ensures FirstSeen(CatalogFunctions[..12]) == [GOVERN, IDENTIFY, PROTECT, DETECT, RESPOND]
  {
    FirstSeenCatalogTo10();
    FirstSeenStep(CatalogFunctions, 10);
    FirstSeenStep(CatalogFunctions, 11);
  }

  lemma FirstSeenCatalogTo14()
    ensures FirstSeen(CatalogFunctions[..14]) == AllFunctions
  {
    FirstSeenCatalogTo12();
    FirstSeenStep(CatalogFunctions, 12);
    FirstSeenStep(CatalogFunctions, 13);
  }

  lemma FirstSeenCatalogTo15()
    ensures FirstSeen(CatalogFunctions[..15]) == AllFunctions
  {
    FirstSeenCatalogTo14();
    FirstSeenStep(CatalogFunctions, 14);
  }

  /** The catalogue's groups hold 2, 4, 4, 1, 2 and 2 questions. */
  lemma CatalogGroupSizes()
    ensures |QuestionsFor(Questions, GOVERN)| == 2 && |QuestionsFor(Questions, IDENTIFY)| == 4
    ensures |QuestionsFor(Questions, PROTECT)| == 4 && |QuestionsFor(Questions, DETECT)| == 1
    ensures |QuestionsFor(Questions, RESPOND)| == 2 && |QuestionsFor(Questions, RECOVER)| == 2
  {
    CatalogTags();
    CatalogCountsTo15();
    forall f
      ensures |QuestionsFor(Questions, f)| == TagCount(CatalogFunctions, 15, f)
    {
      GroupSize(Questions, |Questions|, f);
    }
  }

  lemma CatalogCountsTo4()
    ensures TagCount(CatalogFunctions, 4, GOVERN) == 2
    ensures TagCount(CatalogFunctions, 4, IDENTIFY) == 2
    ensures TagCount(CatalogFunctions, 4, PROTECT) == 0
    ensures TagCount(CatalogFunctions, 4, DETECT) == 0
    ensures TagCount(CatalogFunctions, 4, RESPOND) == 0
    ensures TagCount(CatalogFunctions, 4, RECOVER) == 0
  {
  }

  lemma CatalogCountsTo8()
    ensures TagCount(CatalogFunctions, 8, GOVERN) == 2
    ensures TagCount(CatalogFunctions, 8, IDENTIFY) == 4
    ensures TagCount(CatalogFunctions, 8, PROTECT) == 2
    ensures TagCount(CatalogFunctions, 8, DETECT) == 0
    ensures TagCount(CatalogFunctions, 8, RESPOND) == 0
    ensures TagCount(CatalogFunctions, 8, RECOVER) == 0
  {
    CatalogCountsTo4();
  }

  lemma CatalogCountsTo12()
    ensures TagCount(CatalogFunctions, 12, GOVERN) == 2
    ensures TagCount(CatalogFunctions, 12, IDENTIFY) == 4
    ensures TagCount(CatalogFunctions, 12, PROTECT) == 4
    ensures TagCount(CatalogFunctions, 12, DETECT) == 1
    ensures TagCount(CatalogFunctions, 12, RESPOND) == 1
    ensures TagCount(CatalogFunctions, 12, RECOVER) == 0
  {
    CatalogCountsTo8();
  }

  lemma CatalogCountsTo15()
    ensures TagCount(CatalogFunctions, 15, GOVERN) == 2
    ensures TagCount(CatalogFunctions, 15, IDENTIFY) == 4
    ensures TagCount(CatalogFunctions, 15, PROTECT) == 4
    ensures TagCount(CatalogFunctions, 15, DETECT) == 1
    ensures TagCount(CatalogFunctions, 15, RESPOND) == 2
    ensures TagCount(CatalogFunctions, 15, RECOVER) == 2
  {
    CatalogCountsTo12();
  }

  /** How often `f` occurs among the first `n` tags. */
  function TagCount(fs: seq<NistFunction>, n: nat, f: NistFunction): nat
    requires n <= |fs|
  {
    if n == 0 then 0 else TagCount(fs, n - 1, f) + (if fs[n - 1] == f then 1 else 0)
  }

  /** A group's size is the number of times its function occurs among the tags. */
  lemma {:induction false} GroupSize(qs: seq<QuestionMeta>, n: nat, f: NistFunction)
    requires n <= |qs|
    ensures |QuestionsUpTo(qs, n, f)| == TagCount(Tags(qs), n, f)
  {
    if n > 0 {
      GroupSize(qs, n - 1, f);
    }
  }

  // ---------------------------------------------------------------------
  // Question lookup by id
  // ---------------------------------------------------------------------

  function Ids(qs: seq<QuestionMeta>): (ids: seq<string>)
    ensures |ids| == |qs| && forall i :: 0 <= i < |qs| ==> ids[i] == qs[i].id
  {
    seq(|qs|, i requires 0 <= i < |qs| => qs[i].id)
  }

  /** `qs.findIndex((qq) => qq.id === id)`: the first index carrying `id`, or -1. */
  function FindIndex(qs: seq<QuestionMeta>, id: string): (r: int)
    ensures -1 <= r < |qs|
    ensures r == -1 <==> forall j :: 0 <= j < |qs| ==> qs[j].id != id
    ensures r >= 0 ==> qs[r].id == id && forall j :: 0 <= j < r ==> qs[j].id != id
  {
    if qs == [] then -1
    else if qs[0].id == id then 0
    else
      var r := FindIndex(qs[1..], id);
      if r == -1 then -1 else r + 1
  }

  /** With distinct ids, looking a question's id up again finds that question's own index. */
  lemma FindOwnIndex(qs: seq<QuestionMeta>, i: nat)
    requires Distinct(Ids(qs))
    requires i < |qs|
    ensures FindIndex(qs, qs[i].id) == i
  {
    IdOnlyAt(qs, i);
  }

  lemma IdOnlyAt(qs: seq<QuestionMeta>, i: nat)
    requires Distinct(Ids(qs))
    requires i < |qs|
    ensures forall j :: 0 <= j < |qs| && j != i ==> qs[j].id != qs[i].id
  {
    forall j | 0 <= j < |qs| && j != i
      ensures qs[j].id != qs[i].id
    {
      if j < i {
        assert Ids(qs)[j] != Ids(qs)[i];
      } else {
        assert Ids(qs)[i] != Ids(qs)[j];
      }
    }
  }

  lemma CatalogIdsDistinct()
    ensures Distinct(Ids(Questions))
  {
  }

  // ---------------------------------------------------------------------
  // Form schema and submission building
  // ---------------------------------------------------------------------

  /** One answer as the form holds it. */
  datatype FormAnswer = FormAnswer(response: string, maturity: int)

  datatype FormValues = FormValues(organization: string, contactEmail: string, responses: seq<FormAnswer>)

  /**
   * The form schema: an organisation of at least two characters, an e-mail
   * address (`isEmail` stands for zod's `.email()` check), and exactly one
   * non-empty answer rated 0..4 per catalogue question.
   */
  predicate FormValid(v: FormValues, isEmail: string -> bool)
  {
    && |v.organization| >= 2
    && isEmail(v.contactEmail)
    && |v.responses| == |Questions|
    && forall i :: 0 <= i < |v.responses| ==> |v.responses[i].response| >= 1 && 0 <= v.responses[i].maturity <= 4
  }

  /** The form's starting values: every answer empty at level 0. */
  function DefaultValues(): FormValues
  {
    FormValues("", "", seq(|Questions|, _ => FormAnswer("", 0)))
  }

  /** The untouched form never passes validation. */
  lemma DefaultValuesInvalid(isEmail: string -> bool)
    ensures !FormValid(DefaultValues(), isEmail)
  {
  }

  /**
   * `onSubmit`: the i-th answer is paired with the i-th catalogue question;
   * `now` is the ISO timestamp of the submission moment.
   */
  function BuildSubmission(v: FormValues, isEmail: string -> bool, now: string): (s: Submission)
    requires FormValid(v, isEmail)
    ensures s.organization == v.organization && s.contactEmail == v.contactEmail && s.submittedAt == now
    ensures |s.responses| == |Questions|
    ensures forall i :: 0 <= i < |Questions| ==>
      s.responses[i].meta == Questions[i]
      && s.responses[i].response == v.responses[i].response
      && s.responses[i].maturity == v.responses[i].maturity
  {
    Submission(v.organization, v.contactEmail, now,
      seq(|v.responses|, i requires 0 <= i < |v.responses| =>
        ResponseItem(Questions[i], v.responses[i].response, v.responses[i].maturity)))
  }
}
