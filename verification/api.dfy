/**
 * The types shared by the browser client and the server: the six NIST CSF
 * functions, question metadata, one answer, and a whole submission.
 */
module Api {
  import opened Wrappers

  /** The six top-level NIST CSF functions that group the questions. */
  datatype NistFunction = GOVERN | IDENTIFY | PROTECT | DETECT | RESPOND | RECOVER

  /** The fixed order in which the report emits its per-function sections. */
  const AllFunctions: seq<NistFunction> := [GOVERN, IDENTIFY, PROTECT, DETECT, RESPOND, RECOVER]

  /** The string tag a function carries on the wire. */
  function Name(f: NistFunction): string
  {
    match f
    case GOVERN => "GOVERN"
    case IDENTIFY => "IDENTIFY"
    case PROTECT => "PROTECT"
    case DETECT => "DETECT"
    case RESPOND => "RESPOND"
    case RECOVER => "RECOVER"
  }

  /** Reads a wire tag back; only the six enum literals are accepted. */
  function ParseFunction(s: string): (r: Option<NistFunction>)
    ensures r.Some? ==> Name(r.value) == s
    ensures r.None? ==> forall f: NistFunction :: Name(f) != s
  {
    if s == "GOVERN" then Some(GOVERN)
    else if s == "IDENTIFY" then Some(IDENTIFY)
    else if s == "PROTECT" then Some(PROTECT)
    else if s == "DETECT" then Some(DETECT)
    else if s == "RESPOND" then Some(RESPOND)
    else if s == "RECOVER" then Some(RECOVER)
    else None
  }

  lemma ParseFunctionName(f: NistFunction)
    ensures ParseFunction(Name(f)) == Some(f)
  {
  }

  /** Position of a function in AllFunctions. */
  function Ordinal(f: NistFunction): (k: nat)
    ensures k < |AllFunctions| && AllFunctions[k] == f
    ensures forall i :: 0 <= i < |AllFunctions| && AllFunctions[i] == f ==> i == k
  {
    match f
    case GOVERN => 0
    case IDENTIFY => 1
    case PROTECT => 2
    case DETECT => 3
    case RESPOND => 4
    case RECOVER => 5
  }

  /** A maturity rating: the literal union 0 | 1 | 2 | 3 | 4. */
  type Maturity = m: int | 0 <= m <= 4

  datatype QuestionMeta = QuestionMeta(
    id: string,
    nistFunction: NistFunction,
    category: string,
    control: string,
    prompt: string)

  /** One answer: the full question metadata, the free-text response, the rating. */
  datatype ResponseItem = ResponseItem(meta: QuestionMeta, response: string, maturity: Maturity)

  datatype Submission = Submission(
    organization: string,
    contactEmail: string,
    submittedAt: string,
    responses: seq<ResponseItem>)

  /** The function tags of the answers, in order (defined from the last element). */
  function FunctionsOf(rs: seq<ResponseItem>): (fs: seq<NistFunction>)
    ensures |fs| == |rs|
    ensures forall i :: 0 <= i < |rs| ==> fs[i] == rs[i].meta.nistFunction
  {
    if rs == [] then [] else FunctionsOf(rs[..|rs| - 1]) + [rs[|rs| - 1].meta.nistFunction]
  }

  /**
   * The distinct functions of `fs` in order of first occurrence: the key order
   * of a JavaScript record filled by walking `fs` and adding missing keys.
   */
  function FirstSeen(fs: seq<NistFunction>): seq<NistFunction>
  {
    if fs == [] then []
    else
      var prefix := FirstSeen(fs[..|fs| - 1]);
      if fs[|fs| - 1] in prefix then prefix else prefix + [fs[|fs| - 1]]
  }

  /** Extending a prefix by one element appends that element to the key order when it is new. */
  lemma FirstSeenStep(fs: seq<NistFunction>, k: nat)
    requires k < |fs|
    ensures FirstSeen(fs[..k + 1]) == if fs[k] in FirstSeen(fs[..k]) then FirstSeen(fs[..k]) else FirstSeen(fs[..k]) + [fs[k]]
  {
    assert fs[..k + 1][..k] == fs[..k];
  }

  ghost predicate Distinct<T>(s: seq<T>)
  {
    forall i, j :: 0 <= i < j < |s| ==> s[i] != s[j]
  }

  /** Exactly the functions that occur in `fs` are keys, each once. */
  lemma {:induction false} FirstSeenKeys(fs: seq<NistFunction>)
    ensures forall f :: f in FirstSeen(fs) <==> f in fs
    ensures Distinct(FirstSeen(fs))
  {
    if fs != [] {
      var init := fs[..|fs| - 1];
      FirstSeenKeys(init);
      assert fs == init + [fs[|fs| - 1]];
    }
  }

  /** A duplicate-free list of functions has at most six entries. */
  lemma DistinctFunctionsAtMostSix(s: seq<NistFunction>)
    requires Distinct(s)
    ensures |s| <= 6
  {
    var all: set<NistFunction> := {GOVERN, IDENTIFY, PROTECT, DETECT, RESPOND, RECOVER};
    var elems := set i | 0 <= i < |s| :: s[i];
    forall f: NistFunction ensures f in all {
      match f
      case GOVERN =>
      case IDENTIFY =>
      case PROTECT =>
      case DETECT =>
      case RESPOND =>
      case RECOVER =>
    }
    ElementsCard(s);
    SubsetCard(elems, all);
  }

  lemma SubsetCard<T>(a: set<T>, b: set<T>)
    requires a <= b
    ensures |a| <= |b|
  {
    if a != {} {
      var x :| x in a;
      SubsetCard(a - {x}, b - {x});
    }
  }

  lemma {:induction false} ElementsCard<T>(s: seq<T>)
    requires Distinct(s)
    ensures |set i | 0 <= i < |s| :: s[i]| == |s|
  {
    if s != [] {
      var init := s[..|s| - 1];
      ElementsCard(init);
      assert (set i | 0 <= i < |s| :: s[i]) == (set i | 0 <= i < |init| :: init[i]) + {s[|s| - 1]};
    }
  }
}
