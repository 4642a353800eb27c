/**
 * The judicial layer: three personas score each repository criterion. The
 * language model is an oracle `llm` that is given the persona, the
 * criterion, the persona's rubric instruction and the evidence, and either
 * answers with an opinion or raises (a `ValidationError` of the structured
 * output, or any other exception). What the code around that call decides
 * is modelled exactly: the evidence pool, the relevance filter, the
 * dimension filter, the score clamp and the two fallbacks.
 */
module Judges {
  import opened Wrappers
  import opened Text
  import opened Dicts
  import SM = StateModels
  import ContextBuilder
  import Seqs

  /** What `self.llm.invoke(messages)` did. */
  datatype LlmOutcome =
    | Answer(opinion: SM.JudicialOpinion)
    | InvalidStructure(message: string)
    | Failure(message: string)

  /** The language model: persona, criterion id, rubric instruction and evidence in, an outcome out. */
  type Llm = (SM.Persona, string, string, seq<SM.Evidence>) -> LlmOutcome

  // ---------------------------------------------------------------------
  // JudgeAgent
  // ---------------------------------------------------------------------

  /** The key `create_prompt` looks the persona up by: `persona.lower()`. */
  function RubricKey(persona: SM.Persona): (k: string)
    ensures persona == SM.Prosecutor ==> k == "prosecutor"
    ensures persona == SM.Defense ==> k == "defense"
    ensures persona == SM.TechLead ==> k == "techlead"
  {
    LowerProsecutor();
    LowerDefense();
    LowerTechLead();
    Lower(SM.PersonaName(persona))
  }

  /** Lowering each persona's name. */
  lemma LowerProsecutor()
    ensures Lower("Prosecutor") == "prosecutor"
  {
    calc {
      Lower("Prosecutor");
    == { assert "Prosecutor" == "P" + "rosecutor"; }
      Lower("P" + "rosecutor");
    == { LowerAppend("P", "rosecutor"); }
      Lower("P") + Lower("rosecutor");
    == { assert Lower("P") == "p"; LowerNoUpper("rosecutor"); }
      "p" + "rosecutor";
    ==
      "prosecutor";
    }
  }

  lemma LowerDefense()
    ensures Lower("Defense") == "defense"
  {
    calc {
      Lower("Defense");
    == { assert "Defense" == "D" + "efense"; }
      Lower("D" + "efense");
    == { LowerAppend("D", "efense"); }
      Lower("D") + Lower("efense");
    == { assert Lower("D") == "d"; LowerNoUpper("efense"); }
      "d" + "efense";
    ==
      "defense";
    }
  }

  lemma LowerTechLead()
    ensures Lower("TechLead") == "techlead"
  {
    calc {
      Lower("TechLead");
    == { assert "TechLead" == "T" + "ech" + "L" + "ead"; }
      Lower("T" + "ech" + "L" + "ead");
    == { LowerAppend("T" + "ech" + "L", "ead"); LowerAppend("T" + "ech", "L"); LowerAppend("T", "ech"); }
      Lower("T") + Lower("ech") + Lower("L") + Lower("ead");
    == { assert Lower("T") == "t"; assert Lower("L") == "l"; LowerNoUpper("ech"); LowerNoUpper("ead"); }
      "t" + "ech" + "l" + "ead";
    ==
      "techlead";
    }
  }

  /** `self.rubric_logic.get(self.persona.lower(), "")`. */
  function RubricInstruction(persona: SM.Persona, logic: Dict<string>): (r: string)
    ensures RubricKey(persona) !in Keys(logic) ==> r == ""
    ensures RubricKey(persona) in Keys(logic) ==> Get(logic, RubricKey(persona)) == Some(r)
  {
    Get(logic, RubricKey(persona)).GetOr("")
  }

  /** A judicial logic keyed `prosecutor`, `defense`, `tech_lead`, the first two with instructions. */
  predicate DefaultKeyed(logic: Dict<string>) {
    |logic| == 3 && logic[0].0 == "prosecutor" && logic[1].0 == "defense" && logic[2].0 == "tech_lead"
    && logic[0].1 != "" && logic[1].1 != ""
  }

  /** Both default dimensions carry such a logic. */
  lemma DefaultRubricKeyed(k: nat)
    requires k < 2
    ensures ContextBuilder.DefaultRubric()[k].judicialLogic.Some?
    ensures DefaultKeyed(ContextBuilder.DefaultRubric()[k].judicialLogic.value)
  {
  }

  /** Under such a logic only the TechLead agent, which looks up `techlead`, gets nothing. */
  lemma KeyedLogicMissesTechLead(persona: SM.Persona, logic: Dict<string>)
    requires DefaultKeyed(logic)
    ensures persona == SM.TechLead <==> RubricInstruction(persona, logic) == ""
  {
    assert |logic[0].0| == 10 && |logic[1].0| == 7 && |logic[2].0| == 9;
    match persona {
      case Prosecutor =>
        assert Get(logic, "prosecutor") == Some(logic[0].1);
      case Defense =>
        assert Get(logic, "defense") == Get(logic[1..], "defense") == Some(logic[1].1);
      case TechLead =>
        assert logic[1..][1..][1..] == [];
        assert Get(logic, "techlead") == Get(logic[1..], "techlead") == Get(logic[1..][1..], "techlead")
               == Get(logic[1..][1..][1..], "techlead") == None;
    }
  }

  /**
   * The rubric's own keys are `prosecutor`, `defense` and `tech_lead`, but the
   * TechLead agent looks up `techlead`: with the default rubric it gets the
   * empty instruction, while the other two personas get theirs.
   */
  lemma DefaultRubricMissesTechLead(persona: SM.Persona, k: nat)
    requires k < 2
    ensures var logic := ContextBuilder.DefaultRubric()[k].judicialLogic.value;
            (persona == SM.TechLead <==> RubricInstruction(persona, logic) == "")
  {
    DefaultRubricKeyed(k);
    KeyedLogicMissesTechLead(persona, ContextBuilder.DefaultRubric()[k].judicialLogic.value);
  }

  /** `[ev.goal for ev in evidences]`. */
  function Goals(evidences: seq<SM.Evidence>): (r: seq<string>)
    ensures |r| == |evidences|
    ensures forall k :: 0 <= k < |r| ==> r[k] == evidences[k].goal
  {
    if evidences == [] then [] else [evidences[0].goal] + Goals(evidences[1..])
  }

  /**
   * `JudgeAgent.evaluate` after the call: the answer gets the agent's persona
   * and the requested criterion and a score outside [1, 5] becomes 3; a
   * `ValidationError` gives the neutral score 3 citing every goal; any other
   * exception gives score 1 citing nothing.
   */
  function Evaluate(persona: SM.Persona, criterionId: string, evidences: seq<SM.Evidence>,
                    outcome: LlmOutcome): (o: SM.JudicialOpinion)
    ensures o.judge == persona && o.criterionId == criterionId
    ensures SM.ValidOpinion(o)
    ensures outcome.Answer? ==>
              o.argument == outcome.opinion.argument && o.citedEvidence == outcome.opinion.citedEvidence
              && (1 <= outcome.opinion.score <= 5 ==> o.score == outcome.opinion.score)
              && (!(1 <= outcome.opinion.score <= 5) ==> o.score == 3)
    ensures outcome.InvalidStructure? ==>
              o.score == 3 && o.citedEvidence == Goals(evidences)
              && o.argument == "Error in structured output: " + outcome.message + ". Defaulting to neutral score."
    ensures outcome.Failure? ==>
              o.score == 1 && o.citedEvidence == [] && o.argument == "Evaluation error: " + outcome.message
  {
    match outcome
    case Answer(raw) =>
      var o := raw.(judge := persona, criterionId := criterionId);
      if !(1 <= o.score <= 5) then o.(score := 3) else o
    case InvalidStructure(message) =>
      SM.JudicialOpinion(persona, criterionId, 3,
                         "Error in structured output: " + message + ". Defaulting to neutral score.",
                         Goals(evidences))
    case Failure(message) =>
      SM.JudicialOpinion(persona, criterionId, 1, "Evaluation error: " + message, [])
  }

  /** Whatever the model does, `evaluate` returns an opinion the record's own validation accepts. */
  lemma EvaluateIsValidRecord(persona: SM.Persona, criterionId: string, evidences: seq<SM.Evidence>,
                              outcome: LlmOutcome)
    ensures var o := Evaluate(persona, criterionId, evidences, outcome);
            SM.MakeOpinion(SM.PersonaName(persona), criterionId, o.score, o.argument, o.citedEvidence)
            == Returned(o)
  {
    var o := Evaluate(persona, criterionId, evidences, outcome);
    SM.ParsePersonaName(persona);
  }

  // ---------------------------------------------------------------------
  // Evidence selection
  // ---------------------------------------------------------------------

  /** `any(keyword in ev.goal.lower() for keyword in terms)`. */
  predicate MatchesAny(e: SM.Evidence, terms: seq<string>) {
    ContainsAny(Lower(e.goal), terms)
  }

  /** An item is relevant to a criterion when its goal mentions a word of the criterion's id. */
  predicate Relevant(e: SM.Evidence, criterionId: string) {
    MatchesAny(e, Split(criterionId, '_'))
  }

  /** The relevant evidence, in order. */
  function RelevantEvidence(evidences: seq<SM.Evidence>, criterionId: string): (r: seq<SM.Evidence>)
    ensures |r| <= |evidences|
  {
    var terms := Split(criterionId, '_');
    Seqs.Filter(evidences, e => MatchesAny(e, terms))
  }

  /** The filter keeps exactly the relevant items. */
  lemma RelevantEvidenceKeeps(evidences: seq<SM.Evidence>, criterionId: string, e: SM.Evidence)
    ensures e in RelevantEvidence(evidences, criterionId) <==> e in evidences && Relevant(e, criterionId)
  {
    var terms := Split(criterionId, '_');
    Seqs.FilterKeeps(evidences, e => MatchesAny(e, terms), e);
  }

  /** The filter distributes over concatenation, so it keeps the relative order. */
  lemma RelevantEvidenceAppend(a: seq<SM.Evidence>, b: seq<SM.Evidence>, criterionId: string)
    ensures RelevantEvidence(a + b, criterionId) == RelevantEvidence(a, criterionId) + RelevantEvidence(b, criterionId)
  {
    var terms := Split(criterionId, '_');
    Seqs.FilterAppend(a, b, e => MatchesAny(e, terms));
  }

  /** The evidence a judge is given: the relevant items, or all of them when none is relevant. */
  function EvidencePool(evidences: seq<SM.Evidence>, criterionId: string): (r: seq<SM.Evidence>)
    ensures RelevantEvidence(evidences, criterionId) != [] ==> r == RelevantEvidence(evidences, criterionId)
    ensures RelevantEvidence(evidences, criterionId) == [] ==> r == evidences
  {
    var relevant := RelevantEvidence(evidences, criterionId);
    if relevant == [] then evidences else relevant
  }

  /** The pool is empty only when there is no evidence at all, and it never holds anything new. */
  lemma EvidencePoolShape(evidences: seq<SM.Evidence>, criterionId: string)
    ensures EvidencePool(evidences, criterionId) == [] <==> evidences == []
    ensures forall e :: e in EvidencePool(evidences, criterionId) ==> e in evidences
  {
    forall e | e in RelevantEvidence(evidences, criterionId) ensures e in evidences {
      RelevantEvidenceKeeps(evidences, criterionId, e);
    }
    if evidences != [] && RelevantEvidence(evidences, criterionId) == [] {
      assert EvidencePool(evidences, criterionId) == evidences;
    }
  }

  // ---------------------------------------------------------------------
  // The judge nodes
  // ---------------------------------------------------------------------

  /**
   * One rubric dimension in a judge node: an exception (a missing key, shown
   * as Python shows a `KeyError`, or the agent's construction failing), no
   * opinion (the dimension is not about the repository), or the opinion.
   */
  function JudgeDimension(persona: SM.Persona, d: SM.Dimension, evidences: seq<SM.Evidence>,
                          agentInit: Option<string>, llm: Llm): (r: Outcome<Option<SM.JudicialOpinion>>)
    ensures StepAgrees(persona, d, r)
  {
    match d.targetArtifact
    case None => Raised("'target_artifact'")
    case Some(target) =>
      if target != "github_repo" then Returned(None)
      else
        match d.id
        case None => Raised("'id'")
        case Some(criterionId) =>
          match d.judicialLogic
          case None => Raised("'judicial_logic'")
          case Some(logic) => JudgeCriterion(persona, criterionId, logic, evidences, agentInit, llm)
  }

  /** A repository criterion whose keys are all present: build the agent, then evaluate the pool. */
  function JudgeCriterion(persona: SM.Persona, criterionId: string, logic: Dict<string>, evidences: seq<SM.Evidence>,
                          agentInit: Option<string>, llm: Llm): (r: Outcome<Option<SM.JudicialOpinion>>)
    ensures r.Raised? <==> agentInit.Some?
    ensures r.Returned? ==>
              r.value.Some? && r.value.value.judge == persona && r.value.value.criterionId == criterionId
              && SM.ValidOpinion(r.value.value)
  {
    var pool := EvidencePool(evidences, criterionId);
    if agentInit.Some? then Raised(agentInit.value)
    else
      var instruction := RubricInstruction(persona, logic);
      Returned(Some(Evaluate(persona, criterionId, pool, llm(persona, criterionId, instruction, pool))))
  }

  /** What JudgeDimension promises about the step `st` for the dimension `d`. */
  predicate StepAgrees(persona: SM.Persona, d: SM.Dimension, st: Outcome<Option<SM.JudicialOpinion>>) {
    (st.Returned? && st.value.Some? ==>
       d.targetArtifact == Some("github_repo") && d.id.Some?
       && st.value.value.judge == persona && st.value.value.criterionId == d.id.value
       && SM.ValidOpinion(st.value.value))
    && (st.Returned? && st.value.None? <==> d.targetArtifact.Some? && d.targetArtifact.value != "github_repo")
  }

  /** The outcome of every dimension, as if the loop went on after an exception. */
  function Steps(persona: SM.Persona, dims: seq<SM.Dimension>, evidences: seq<SM.Evidence>,
                 agentInit: Option<string>, llm: Llm): (r: seq<Outcome<Option<SM.JudicialOpinion>>>)
    ensures |r| == |dims|
    ensures forall k :: 0 <= k < |dims| ==> StepAgrees(persona, dims[k], r[k])
  {
    seq(|dims|, k requires 0 <= k < |dims| => JudgeDimension(persona, dims[k], evidences, agentInit, llm))
  }

  /** The opinions a judge node has collected, and the exception that stopped it, if any. */
  datatype Tally = Tally(opinions: seq<SM.JudicialOpinion>, failure: Option<string>)

  /** The judge node's loop over the step outcomes: opinions are collected and the first exception ends it. */
  function Fold(steps: seq<Outcome<Option<SM.JudicialOpinion>>>): (t: Tally)
    ensures |t.opinions| <= |steps|
  {
    if steps == [] then Tally([], None)
    else
      var t := Fold(steps[..|steps| - 1]);
      if t.failure.Some? then t
      else
        match steps[|steps| - 1]
        case Raised(e) => Tally(t.opinions, Some(e))
        case Returned(None) => t
        case Returned(Some(o)) => Tally(t.opinions + [o], None)
  }

  /** What a judge node collects for its rubric. */
  function Judging(persona: SM.Persona, dims: seq<SM.Dimension>, evidences: seq<SM.Evidence>,
                   agentInit: Option<string>, llm: Llm): Tally
  {
    Fold(Steps(persona, dims, evidences, agentInit, llm))
  }

  /** The criterion ids of the dimensions about the repository, in rubric order. */
  function RepoCriteria(dims: seq<SM.Dimension>): (r: seq<string>)
    ensures |r| <= |dims|
  {
    if dims == [] then []
    else
      var last := dims[|dims| - 1];
      RepoCriteria(dims[..|dims| - 1])
      + (if last.targetArtifact == Some("github_repo") then [last.id.GetOr("")] else [])
  }

  /** Every opinion in `ops` is valid and is by `persona`. */
  predicate AllValidBy(persona: SM.Persona, ops: seq<SM.JudicialOpinion>) {
    forall k :: 0 <= k < |ops| ==> ops[k].judge == persona && SM.ValidOpinion(ops[k])
  }

  lemma {:induction false} FoldValid(persona: SM.Persona, dims: seq<SM.Dimension>,
                                     steps: seq<Outcome<Option<SM.JudicialOpinion>>>)
    requires |steps| == |dims|
    requires forall k :: 0 <= k < |dims| ==> StepAgrees(persona, dims[k], steps[k])
    ensures AllValidBy(persona, Fold(steps).opinions)
  {
    if steps != [] {
      var n := |steps| - 1;
      FoldValid(persona, dims[..n], steps[..n]);
      var t0 := Fold(steps[..n]);
      assert StepAgrees(persona, dims[n], steps[n]);
      if t0.failure.None? && steps[n].Returned? && steps[n].value.Some? {
        var o := steps[n].value.value;
        var t := Fold(steps);
        assert t.opinions == t0.opinions + [o];
        assert forall k :: 0 <= k < |t.opinions| ==> t.opinions[k] == o || t.opinions[k] == t0.opinions[k];
      }
    }
  }

  lemma {:induction false} FoldFollowsRubric(persona: SM.Persona, dims: seq<SM.Dimension>,
                                             steps: seq<Outcome<Option<SM.JudicialOpinion>>>)
    requires |steps| == |dims|
    requires forall k :: 0 <= k < |dims| ==> StepAgrees(persona, dims[k], steps[k])
    ensures var t := Fold(steps);
            var ids := RepoCriteria(dims);
            |t.opinions| <= |ids|
            && (forall k :: 0 <= k < |t.opinions| ==> t.opinions[k].criterionId == ids[k])
            && (t.failure.None? ==> |t.opinions| == |ids|)
  {
    if steps != [] {
      var n := |steps| - 1;
      FoldFollowsRubric(persona, dims[..n], steps[..n]);
      assert StepAgrees(persona, dims[n], steps[n]);
      var t0 := Fold(steps[..n]);
      if t0.failure.None? && steps[n].Returned? && steps[n].value.Some? {
        assert RepoCriteria(dims) == RepoCriteria(dims[..n]) + [dims[n].id.value];
      }
    }
  }

  /** Every opinion a judge node collects is valid and carries its persona. */
  lemma JudgingValid(persona: SM.Persona, dims: seq<SM.Dimension>, evidences: seq<SM.Evidence>,
                     agentInit: Option<string>, llm: Llm)
    ensures AllValidBy(persona, Judging(persona, dims, evidences, agentInit, llm).opinions)
  {
    FoldValid(persona, dims, Steps(persona, dims, evidences, agentInit, llm));
  }

  /**
   * The opinions follow the repository dimensions in rubric order: one per
   * dimension when nothing raised, and those before the failing dimension
   * when something did.
   */
  lemma JudgingFollowsRubric(persona: SM.Persona, dims: seq<SM.Dimension>, evidences: seq<SM.Evidence>,
                             agentInit: Option<string>, llm: Llm)
    ensures var t := Judging(persona, dims, evidences, agentInit, llm);
            var ids := RepoCriteria(dims);
            |t.opinions| <= |ids|
            && (forall k :: 0 <= k < |t.opinions| ==> t.opinions[k].criterionId == ids[k])
            && (t.failure.None? ==> |t.opinions| == |ids|)
  {
    FoldFollowsRubric(persona, dims, Steps(persona, dims, evidences, agentInit, llm));
  }

  /** Once a prefix of the steps has raised, the remaining steps change nothing. */
  lemma {:induction false} FoldStopsAtFailure(steps: seq<Outcome<Option<SM.JudicialOpinion>>>, n: nat)
    requires n <= |steps|
    requires Fold(steps[..n]).failure.Some?
    ensures Fold(steps) == Fold(steps[..n])
  {
    if n < |steps| {
      var init := steps[..|steps| - 1];
      assert init[..n] == steps[..n];
      FoldStopsAtFailure(init, n);
    } else {
      assert steps[..n] == steps;
    }
  }

  /** The update a judge node returns for a tally. */
  function JudgeUpdate(persona: SM.Persona, t: Tally): (u: SM.Update)
    ensures u.opinions == Some(t.opinions)
    ensures u.errors.Some? && |u.errors.value| == (if t.failure.Some? then 1 else 0)
    ensures t.failure.Some? ==> u.errors.value[0] == SM.PersonaName(persona) + " error: " + t.failure.value
    ensures u.rubricDimensions.None? && u.evidences.None? && u.finalReport.None? && u.hasFatalError.None?
  {
    var errors := if t.failure.Some? then [SM.PersonaName(persona) + " error: " + t.failure.value] else [];
    SM.NoUpdate.(opinions := Some(t.opinions), errors := Some(errors))
  }

  /**
   * `prosecutor_node`, `defense_node` and `tech_lead_node`, which differ only
   * in the persona: flatten the evidence map, then judge every repository
   * dimension in rubric order.
   */
  method JudgeNode(persona: SM.Persona, s: SM.AgentState, agentInit: Option<string>, llm: Llm)
    returns (u: SM.Update)
    ensures u == JudgeUpdate(persona, Judging(persona, s.rubricDimensions, ConcatValues(s.evidences), agentInit, llm))
  {
    var allEvidences: seq<SM.Evidence> := [];
    for i := 0 to |s.evidences|
      invariant allEvidences == ConcatValues(s.evidences[..i])
    {
      assert s.evidences[..i + 1] == s.evidences[..i] + [s.evidences[i]];
      ConcatValuesAppend(s.evidences[..i], s.evidences[i].0, s.evidences[i].1);
      allEvidences := allEvidences + s.evidences[i].1;
    }
    assert s.evidences[..|s.evidences|] == s.evidences;

    var dims := s.rubricDimensions;
    ghost var steps := Steps(persona, dims, allEvidences, agentInit, llm);
    var opinions: seq<SM.JudicialOpinion> := [];
    var failure: Option<string> := None;
    var i := 0;
    while i < |dims| && failure.None?
      invariant 0 <= i <= |dims|
      invariant Fold(steps[..i]) == Tally(opinions, failure)
      decreases |dims| - i
    {
      assert steps[..i + 1][..i] == steps[..i];
      var step := JudgeDimension(persona, dims[i], allEvidences, agentInit, llm);
      assert step == steps[i];
      match step {
        case Raised(e) =>
          failure := Some(e);
        case Returned(None) =>
        case Returned(Some(o)) =>
          opinions := opinions + [o];
      }
      i := i + 1;
    }
    if failure.Some? {
      FoldStopsAtFailure(steps, i);
    } else {
      assert steps[..i] == steps;
    }
    u := JudgeUpdate(persona, Tally(opinions, failure));
  }

  /**
   * The judges run one after another on the non-fatal route, so the opinions
   * accumulate: the merged state holds each judge's opinions after the
   * earlier ones, and every one of them is valid.
   */
  lemma JudgeMergeAppends(s: SM.AgentState, persona: SM.Persona, agentInit: Option<string>, llm: Llm)
    ensures var t := Judging(persona, s.rubricDimensions, ConcatValues(s.evidences), agentInit, llm);
            var s' := SM.Apply(s, JudgeUpdate(persona, t));
            s'.opinions == s.opinions + t.opinions && s'.evidences == s.evidences
            && AllValidBy(persona, s'.opinions[|s.opinions|..])
            && |s'.errors| == |s.errors| + (if t.failure.Some? then 1 else 0)
  {
    JudgingValid(persona, s.rubricDimensions, ConcatValues(s.evidences), agentInit, llm);
  }
}
