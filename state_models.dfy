/**
 * The auditor's records (`Evidence`, `JudicialOpinion`, a rubric dimension)
 * and the shared workflow state `AgentState` with the reducer each of its
 * fields is merged by.
 */
module StateModels {
  import opened Wrappers
  import opened Dicts

  /**
   * A fact found by a collector. `confidence` is a float in the source; here
   * it is an exact rational, and only its range is ever checked.
   */
  datatype Evidence = Evidence(
    goal: string,
    found: bool,
    content: Option<string>,
    location: string,
    rationale: string,
    confidence: real)

  /** The field constraint `confidence: float = Field(ge=0.0, le=1.0)`. */
  predicate ValidEvidence(e: Evidence) {
    0.0 <= e.confidence <= 1.0
  }

  /** Building an `Evidence`: pydantic raises a ValidationError outside [0, 1]. */
  function MakeEvidence(goal: string, found: bool, content: Option<string>, location: string,
                        rationale: string, confidence: real): (r: Outcome<Evidence>)
    ensures r.Returned? <==> 0.0 <= confidence <= 1.0
    ensures r.Returned? ==> (ValidEvidence(r.value) && r.value.goal == goal && r.value.found == found
                             && r.value.content == content && r.value.location == location
                             && r.value.rationale == rationale && r.value.confidence == confidence)
  {
    if 0.0 <= confidence <= 1.0 then Returned(Evidence(goal, found, content, location, rationale, confidence))
    else Raised("1 validation error for Evidence")
  }

  /** The three judge personas, `Literal["Prosecutor", "Defense", "TechLead"]`. */
  datatype Persona = Prosecutor | Defense | TechLead

  function PersonaName(p: Persona): string {
    match p
    case Prosecutor => "Prosecutor"
    case Defense => "Defense"
    case TechLead => "TechLead"
  }

  /** The literal check on the `judge` field. */
  function ParsePersona(s: string): (r: Option<Persona>)
    ensures r.Some? <==> s in {"Prosecutor", "Defense", "TechLead"}
    ensures r.Some? ==> PersonaName(r.value) == s
  {
    if s == "Prosecutor" then Some(Prosecutor)
    else if s == "Defense" then Some(Defense)
    else if s == "TechLead" then Some(TechLead)
    else None
  }

  lemma ParsePersonaName(p: Persona)
    ensures ParsePersona(PersonaName(p)) == Some(p)
  {
  }

  /**
   * A judge's opinion on one criterion. The score is an unbounded integer
   * because the judges' post-processing inspects scores outside [1, 5] too.
   */
  datatype JudicialOpinion = JudicialOpinion(
    judge: Persona,
    criterionId: string,
    score: int,
    argument: string,
    citedEvidence: seq<string>)

  /** The field constraint `score: int = Field(ge=1, le=5)`. */
  predicate ValidOpinion(o: JudicialOpinion) {
    1 <= o.score <= 5
  }

  /** Building a `JudicialOpinion`: pydantic raises unless the judge is a persona and 1 <= score <= 5. */
  function MakeOpinion(judge: string, criterionId: string, score: int, argument: string,
                       citedEvidence: seq<string>): (r: Outcome<JudicialOpinion>)
    ensures r.Returned? <==> judge in {"Prosecutor", "Defense", "TechLead"} && 1 <= score <= 5
    ensures r.Returned? ==> (ValidOpinion(r.value) && PersonaName(r.value.judge) == judge
                             && r.value.criterionId == criterionId && r.value.score == score
                             && r.value.argument == argument && r.value.citedEvidence == citedEvidence)
  {
    match ParsePersona(judge)
    case None => Raised("1 validation error for JudicialOpinion: judge")
    case Some(p) =>
      if 1 <= score <= 5 then Returned(JudicialOpinion(p, criterionId, score, argument, citedEvidence))
      else Raised("1 validation error for JudicialOpinion: score")
  }

  /**
   * One entry of the rubric's `dimensions` list: a JSON object, so each key
   * may be missing. `judicial_logic` maps a lower-case persona name to the
   * instruction for that persona.
   */
  datatype Dimension = Dimension(
    id: Option<string>,
    name: Option<string>,
    targetArtifact: Option<string>,
    forensicInstruction: Option<string>,
    judicialLogic: Option<Dict<string>>)

  /** `AgentState`: the record every node reads. */
  datatype AgentState = AgentState(
    repoUrl: string,
    pdfPath: string,
    rubricDimensions: seq<Dimension>,
    evidences: Dict<seq<Evidence>>,
    opinions: seq<JudicialOpinion>,
    finalReport: string,
    errors: seq<string>)

  /**
   * The dict a node returns: the fields it writes. `hasFatalError` is not a
   * field of `AgentState`; nodes return it, and the aggregator and the router
   * receive it as an explicit input.
   */
  datatype Update = Update(
    rubricDimensions: Option<seq<Dimension>>,
    evidences: Option<Dict<seq<Evidence>>>,
    opinions: Option<seq<JudicialOpinion>>,
    errors: Option<seq<string>>,
    finalReport: Option<string>,
    hasFatalError: Option<bool>)

  const NoUpdate := Update(None, None, None, None, None, None)

  /**
   * Merging a node's update into the state. `evidences` uses `operator.ior`
   * (a dict update), `opinions` and `errors` use `operator.add` (list
   * concatenation), and the fields without a reducer take the written value.
   */
  function Apply(s: AgentState, u: Update): (r: AgentState)
    ensures r.repoUrl == s.repoUrl && r.pdfPath == s.pdfPath
    ensures Keys(r.evidences) == Keys(s.evidences) + (if u.evidences.Some? then Keys(u.evidences.value) else {})
    ensures forall k :: (u.evidences.None? || k !in Keys(u.evidences.value)) ==> Get(r.evidences, k) == Get(s.evidences, k)
    ensures u.opinions.None? ==> r.opinions == s.opinions
    ensures u.opinions.Some? ==> (|r.opinions| == |s.opinions| + |u.opinions.value|
                                  && r.opinions[..|s.opinions|] == s.opinions
                                  && r.opinions[|s.opinions|..] == u.opinions.value)
    ensures u.errors.None? ==> r.errors == s.errors
    ensures u.errors.Some? ==> (|r.errors| == |s.errors| + |u.errors.value|
                                && r.errors[..|s.errors|] == s.errors
                                && r.errors[|s.errors|..] == u.errors.value)
  {
    AgentState(
      s.repoUrl,
      s.pdfPath,
      u.rubricDimensions.GetOr(s.rubricDimensions),
      if u.evidences.Some? then UpdateWith(s.evidences, u.evidences.value) else s.evidences,
      s.opinions + u.opinions.GetOr([]),
      u.finalReport.GetOr(s.finalReport),
      s.errors + u.errors.GetOr([]))
  }

  /** On a collision the newer evidence list replaces the older one. */
  lemma {:induction false} EvidenceCollisionReplaces(s: AgentState, u: Update, k: string)
    requires u.evidences.Some? && DistinctKeys(u.evidences.value) && k in Keys(u.evidences.value)
    ensures Get(Apply(s, u).evidences, k) == Get(u.evidences.value, k)
  {
    UpdateWithRightWins(s.evidences, u.evidences.value, k);
  }

  /** Lists are not concatenated on a collision: the older list is lost. */
  lemma EvidenceCollisionDropsOlder(s: AgentState, older: Evidence, newer: Evidence)
    requires s.evidences == [("repo", [older])]
    ensures Apply(s, NoUpdate.(evidences := Some([("repo", [newer])]))).evidences == [("repo", [newer])]
  {
    var e: Dict<seq<Evidence>> := [("repo", [newer])];
    assert Put(s.evidences, "repo", [newer]) == e;
    assert UpdateWith(s.evidences, e) == UpdateWith(e, e[1..]);
  }

  /** Writing `{}` to `evidences` or `[]` to `opinions` and `errors` leaves them as they were. */
  lemma EmptyWritesAreNeutral(s: AgentState, u: Update)
    requires u.evidences == Some([]) && u.opinions == Some([]) && u.errors == Some([])
    ensures Apply(s, u).evidences == s.evidences
    ensures Apply(s, u).opinions == s.opinions
    ensures Apply(s, u).errors == s.errors
  {
  }

  /** `rubric_dimensions` and `final_report` have no reducer: the last write wins. */
  lemma LastWriterWins(s: AgentState, u: Update, v: Update)
    requires v.rubricDimensions.Some? && v.finalReport.Some?
    ensures Apply(Apply(s, u), v).rubricDimensions == v.rubricDimensions.value
    ensures Apply(Apply(s, u), v).finalReport == v.finalReport.value
  {
  }

  /**
   * Two nodes that write disjoint evidence keys, such as the two collectors
   * (`"repo"` and `"doc"`), give the same lookups in either merge order.
   */
  lemma {:induction false} DisjointEvidenceMergesCommute(s: AgentState, u: Update, v: Update, k: string)
    requires u.evidences.Some? && v.evidences.Some?
    requires DistinctKeys(u.evidences.value) && DistinctKeys(v.evidences.value)
    requires Keys(u.evidences.value) !! Keys(v.evidences.value)
    ensures Get(Apply(Apply(s, u), v).evidences, k) == Get(Apply(Apply(s, v), u).evidences, k)
  {
    var eu := u.evidences.value;
    var ev := v.evidences.value;
    if k in Keys(eu) {
      EvidenceCollisionReplaces(s, u, k);
      EvidenceCollisionReplaces(Apply(s, v), u, k);
    } else if k in Keys(ev) {
      EvidenceCollisionReplaces(s, v, k);
      EvidenceCollisionReplaces(Apply(s, u), v, k);
    }
  }
}
