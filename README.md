# Automaton Auditor, modelled in Dafny

The Automaton Auditor is a LangGraph pipeline that audits a student repository
and its PDF report as a "digital courtroom":

- A context builder loads the rubric.
- Two detectives collect evidence in parallel: the repository investigator and
  the document analyst.
- An evidence aggregator decides whether judging can go ahead.
- Three judge personas score every repository criterion of the rubric:
  Prosecutor, Defense and TechLead.
- A chief justice reduces those opinions to a verdict per criterion and writes
  the audit report.

This project models the deterministic code around the graph engine and the
language model:

- the state record and its merge rules (`StateModels`);
- the fixed topology and routing of the graph (`Graph`, `ContextBuilder`);
- the decision logic of each node (`Detectives`, `Judges`, `Justice`);
- the analysis tools the detectives call (`GitTools`, `AstTools`, `PdfTools`).

Three helper modules supply Python's ordered `dict`, string operations and a
sequence filter (`Dicts`, `Text`, `Seqs`). `Wrappers` holds `Option` and
`Outcome`; an `Outcome` is a value returned or an exception raised.

The model keeps the program's own quirks. Each of these is stated and proved:

- Judges run one after another, not in parallel as the docstring of
  `build_audit_graph` says. The edges at `src/graph.py:148-150` make them
  sequential.
- Merging `evidences` replaces a list on a key collision; it does not
  concatenate.
- The security override reads the score of the *last* Prosecutor opinion and
  the argument of the *first* one, for every list of opinions
  (`Justice.SecurityOverrideReads`).
- `vision_inspector` is a node that no edge reaches.
- The document analyst always ends in its exception handler, because
  `file_paths` is never bound.
- The keywords "StateGraph" and "LangGraph" can never match a lowercased
  chunk.
- A commit message containing "|" drops the commit.

The following are parameters of the model, not things it performs:

- tool results: the clone outcome, the `git log` output, parsed ASTs, the
  extracted PDF text;
- the language model, an oracle function;
- the incoming `has_fatal_error` flag.

Stateful code is imperative Dafny:

- `GraphBuilder` is a class whose methods append to its node and edge lists.
- `PDFAnalyzer` is a class whose fields its ingest step sets.
- Every loop of the source is a method with invariants. Each method is proved
  equal to a specification function, and the properties are proved about that
  function.

## Model

| member | source | states |
|---|---|---|
| StateModels.MakeEvidence | src/nodes/state_models.py:11-18 | An `Evidence` is built exactly when 0 <= confidence <= 1. The built record carries every field as given; content is optional. |
| StateModels.ParsePersona | src/nodes/state_models.py:35-37 | Only "Prosecutor", "Defense" and "TechLead" name a judge, and each parses to the persona of that name. |
| StateModels.ParsePersonaName | src/nodes/state_models.py:35-37 | Parsing a persona's name gives back that persona. |
| StateModels.MakeOpinion | src/nodes/state_models.py:33-43 | A `JudicialOpinion` is built exactly when the judge is one of the three personas and 1 <= score <= 5. The built record carries every field as given. |
| StateModels.Apply | src/nodes/state_models.py:57-77 | Merging an update into the state works field by field. `evidences` keys become the union of both key sets, and keys the update does not write keep their old lists. `opinions` and `errors` become the old list followed by the new one. |
| StateModels.EvidenceCollisionReplaces | src/nodes/state_models.py:67-68 | On a key the update writes, the merged `evidences` holds the update's list (`operator.ior`, right side wins). |
| StateModels.EvidenceCollisionDropsOlder | src/nodes/state_models.py:67-68 | Writing `{"repo": [newer]}` over `{"repo": [older]}` leaves only `[newer]`: the lists are not concatenated. |
| StateModels.EmptyWritesAreNeutral | src/nodes/state_models.py:68-77 | Merging `{}` into `evidences` and `[]` into `opinions` and `errors` leaves all three unchanged. |
| StateModels.LastWriterWins | src/nodes/state_models.py:65-74 | The fields without a reducer (`rubric_dimensions`, `final_report`) take the last writer's value. |
| StateModels.DisjointEvidenceMergesCommute | src/nodes/state_models.py:67-68 | Two `evidences` writes with disjoint keys give the same lookups in either order. |
| Graph.GraphBuilder.constructor | src/graph.py:99 | A new builder has no nodes, edges or conditional branches. |
| Graph.GraphBuilder.AddNode | src/graph.py:102-116 | `add_node` appends the node and changes nothing else. |
| Graph.GraphBuilder.AddEdge | src/graph.py:121-160 | `add_edge` appends the edge and changes nothing else. |
| Graph.GraphBuilder.AddConditionalEdges | src/graph.py:141-145 | `add_conditional_edges` appends the branch and changes nothing else. |
| Graph.AddAuditNodes | src/graph.py:101-116 | The builder's nodes become the old ones followed by the nine audit nodes, in source order. Edges and branches are unchanged. |
| Graph.AddAuditEdges | src/graph.py:118-160 | The builder's edges and branches become the old ones followed by the audit edges and the aggregator branch, in source order. Nodes are unchanged. |
| Graph.BuildAuditGraph | src/graph.py:87-163 | `build_audit_graph` yields a fresh builder holding exactly the audit nodes, edges and branch. |
| Graph.NoFatalError | src/graph.py:133-134 | The route is taken as "no fatal error" iff the flag is not `True`; a missing flag counts as false. |
| Graph.Supersteps | src/graph.py:87-163 | The run of the graph has one active-node set per step, and the first set is the given one. |
| Graph.AggregatorRoute | src/graph.py:141-145 | From evidence_aggregator the only successor is prosecutor, unless has_fatal_error is true; then it is chief_justice. |
| Graph.ContextBuilderFansOut | src/graph.py:124-125 | context_builder's successors are exactly repo_investigator and doc_analyst. |
| Graph.CollectorsFanIn | src/graph.py:128-129 | Each collector's only successor is evidence_aggregator. |
| Graph.ProsecutorOnlyAfterAggregator | src/graph.py:141-145 | A node triggers prosecutor iff it is evidence_aggregator on the non-fatal route. |
| Graph.JudgesInSequence | src/graph.py:148-149 | defense is triggered only by prosecutor, and tech_lead only by defense. |
| Graph.ChiefJusticeEnds | src/graph.py:141-160 | chief_justice is reached from tech_lead, and from the aggregator on the fatal route. Its only successor is END, which has none. |
| Graph.VisionInspectorUnreachable | src/graph.py:108-130 | vision_inspector is a node of the graph, but no node triggers it. |
| Graph.StepFromStart | src/graph.py:121 | The step after {START} is {context_builder}. |
| Graph.StepFromContextBuilder | src/graph.py:124-125 | The step after {context_builder} is {repo_investigator, doc_analyst}. |
| Graph.StepFromCollectors | src/graph.py:128-129 | The step after both collectors is {evidence_aggregator}: a fan-in. |
| Graph.StepFromAggregator | src/graph.py:141-145 | The step after {evidence_aggregator} is {prosecutor} or {chief_justice}, by the flag. |
| Graph.StepsThroughJudges | src/graph.py:148-150 | The judge steps go {prosecutor}, then {defense}, then {tech_lead}, then {chief_justice}. |
| Graph.StepsToEnd | src/graph.py:160 | {chief_justice} steps to {END}, and {END} to nothing. |
| Graph.RunFromStart | src/graph.py:121-129 | Every run begins with {START}, {context_builder} and both collectors, and then continues from {evidence_aggregator}. |
| Graph.RunFromAggregator | src/graph.py:141-160 | From the aggregator, the non-fatal run visits prosecutor, defense, tech_lead, chief_justice and END, each once and in that order. The fatal run goes straight to chief_justice and END. |
| Graph.RunFromChiefJustice | src/graph.py:160 | From chief_justice the run is {chief_justice}, {END}, then nothing. |
| Graph.AuditRun | src/graph.py:87-163 | Without a fatal error, the whole ten-step run from START is exactly the sequence of steps through all judges to END. |
| ContextBuilder.DefaultRubric | src/graph.py:59-84 | The default rubric has exactly two dimensions, forensic_accuracy_code and langgraph_architecture, both targeting "github_repo". |
| ContextBuilder.ContextBuilderNode | src/graph.py:23-56 | A loaded rubric gives its `dimensions` (or `[]`) and no error. A missing or unparsable file gives the default rubric and exactly one error, with the source's text. Every branch writes empty evidences and opinions and sets has_fatal_error to false. |
| ContextBuilder.ContextBuilderMerge | src/graph.py:34-56 | Merging the context builder's update leaves evidences and opinions unchanged, sets the rubric, and adds an error only when the rubric did not load. |
| Judges.RubricKey | src/nodes/judges.py:92 | `persona.lower()` gives the keys "prosecutor", "defense" and "techlead", so the TechLead looks up a key without the underscore. |
| Judges.RubricInstruction | src/nodes/judges.py:92 | The instruction is the rubric logic's value under the persona's key, and "" when that key is missing. |
| Judges.DefaultRubricKeyed | src/graph.py:67-82 | Both default dimensions carry judicial logic keyed "prosecutor", "defense" and "tech_lead", with non-empty first two entries. |
| Judges.KeyedLogicMissesTechLead | src/nodes/judges.py:92 | For logic keyed like the default rubric, the instruction is empty exactly for TechLead: "techlead" is not "tech_lead". |
| Judges.DefaultRubricMissesTechLead | src/nodes/judges.py:92 | Under the default rubric, TechLead, and only TechLead, gets an empty rubric instruction. |
| Judges.Goals | src/nodes/judges.py:156 | The fallback's citations are the goals of the given evidence, one per item and in order. |
| Judges.Evaluate | src/nodes/judges.py:123-165 | The opinion's judge and criterion are always overwritten with the agent's persona and criterion, and its score is always in [1, 5]. An answer keeps its argument and citations, with an out-of-range score replaced by 3. A ValidationError gives score 3, citations equal to the evidence goals, and the source's message. Any other failure gives score 1, no citations and "Evaluation error: ...". |
| Judges.EvaluateIsValidRecord | src/nodes/judges.py:149-165 | Every opinion `evaluate` returns passes the `JudicialOpinion` field constraints. |
| Judges.RelevantEvidence | src/nodes/judges.py:186-190 | The relevant evidence is never longer than the pool it is taken from. |
| Judges.RelevantEvidenceKeeps | src/nodes/judges.py:186-190 | An item is kept iff it is in the pool and its lowercased goal contains some "_"-separated piece of the criterion id. |
| Judges.RelevantEvidenceAppend | src/nodes/judges.py:186-190 | Filtering distributes over concatenation, so the relevant items keep their relative order. |
| Judges.EvidencePool | src/nodes/judges.py:186-193 | The pool is the relevant items when there are any, and all the evidence otherwise. |
| Judges.EvidencePoolShape | src/nodes/judges.py:186-193 | The pool is empty only when there is no evidence at all, and every item of it is given evidence. |
| Judges.JudgeDimension | src/nodes/judges.py:180-197 | A dimension not targeting "github_repo" gives no opinion. An opinion is given only for a repository dimension with an id, and it is valid, by the persona, and on that id. A missing key raises. |
| Judges.JudgeCriterion | src/nodes/judges.py:182-197 | A repository criterion raises exactly when building the agent fails. Otherwise it yields a valid opinion by the persona on that criterion. |
| Judges.Steps | src/nodes/judges.py:180-197 | There is one outcome per dimension. A non-repository dimension gives none, a missing target raises, and any opinion is valid, by the persona and on that dimension's id. |
| Judges.FoldValid | src/nodes/judges.py:180-197 | Every opinion the loop collects is valid and by the persona. |
| Judges.FoldFollowsRubric | src/nodes/judges.py:180-200 | The k-th collected opinion is on the k-th repository criterion, in rubric order. Without an exception there is one opinion per repository criterion. |
| Judges.FoldStopsAtFailure | src/nodes/judges.py:173-200 | Once a dimension raises, later dimensions change nothing: the loop is left. |
| Judges.JudgingValid | src/nodes/judges.py:168-205 | A judge node only emits valid opinions by its own persona. |
| Judges.JudgingFollowsRubric | src/nodes/judges.py:180-205 | A judge node emits opinions on the repository criteria in rubric order, one per criterion when nothing raises. On an exception it keeps those collected so far. |
| Judges.JudgeUpdate | src/nodes/judges.py:199-205 | The node writes only its opinions and errors. There is exactly one "<Persona> error: ..." when an exception ended it, and none otherwise. |
| Judges.JudgeNode | src/nodes/judges.py:168-279 | The three judge nodes flatten the evidence map in iteration order and judge every dimension in rubric order. They stop at the first exception and return `JudgeUpdate` of that tally. |
| Judges.JudgeMergeAppends | src/nodes/judges.py:202-205 | Merging a judge's update appends its opinions after the earlier ones, all valid. Evidences are unchanged, and at most one error is added. |
| Detectives.GitEvidence | src/nodes/detectives.py:43-55 | The git item is found iff the commit count is positive, with count 0 when history extraction failed. Its confidence is 0.95 iff the count is over 3, and 0.5 otherwise. |
| Detectives.StateEvidence | src/nodes/detectives.py:66-82 | The state item is found iff a typed state was found. Its content is the snippet only then. Its location is the file, or "src/state.py (not found)". |
| Detectives.StateManagement | src/nodes/detectives.py:66-82 | The state item is found iff one of the target files holds a state class. Then it points at the first such file and carries its first 500 characters; otherwise it says "src/state.py (not found)" with no content. |
| Detectives.GraphEvidence | src/nodes/detectives.py:93-103 | The graph item raises exactly when the analysis has no location, since pydantic refuses a `None` location. Otherwise it is found iff a StateGraph call was seen, and is located at the graph file. |
| Detectives.SecurityEvidence | src/nodes/detectives.py:114-132 | The security item is found iff no issue was reported. Its confidence is 0.9 then, and 0.3 otherwise. |
| Detectives.InvestigateClone | src/nodes/detectives.py:42-145 | Building the four items in order, and stopping with one "RepoInvestigator error" when the graph item raises, is exactly `ClonedFindings`. |
| Detectives.RepoInvestigatorNode | src/nodes/detectives.py:13-157 | The node writes its findings under "repo", together with its errors and fatal flag: one clone error when cloning failed, and the investigation's findings otherwise. |
| Detectives.RepoCloneFailure | src/nodes/detectives.py:33-40 | A failed clone gives `{"repo": []}`, one "Failed to clone repo: ..." error, and fatal set. |
| Detectives.RepoSuccess | src/nodes/detectives.py:42-132 | A successful run yields four items in order: Git Forensic Analysis, State Management Rigor, Graph Orchestration, Safe Tool Engineering. It has no errors and is not fatal, with the found flags and confidence set as in the source. |
| Detectives.RepoGraphWithoutLocation | src/nodes/detectives.py:93-103 | When the graph item raises, the two items already built are kept, and one "RepoInvestigator error" is added with fatal set. |
| Detectives.MissingGraphFileIsFatal | src/tools/ast_tools.py:62-112 | A graph file that is missing or unreadable leaves no location, so the repository run always fails fatally. |
| Detectives.ClonedFindingsShape | src/nodes/detectives.py:42-145 | After a clone, all items are valid evidence, there is at most one error, and fatal holds iff there is an error. |
| Detectives.RepoFindingsShape | src/nodes/detectives.py:13-157 | On every path, all items are valid, there is at most one error, and fatal holds iff there is an error. |
| Detectives.DepthEvidence | src/nodes/detectives.py:197-209 | The depth item is found iff some concept was found. Its confidence is 0.8 iff more than two concepts are explained in depth, and 0.5 otherwise. |
| Detectives.TrueKeys | src/nodes/detectives.py:184 | The found concepts are exactly the keys whose value is true, each listed once, as dict keys are distinct. |
| Detectives.TrueKeysMentioned | src/nodes/detectives.py:183-184 | For `query_terms` results, a concept is found iff it is a queried term that the text mentions. |
| Detectives.ExplainedConcepts | src/nodes/detectives.py:186-195 | The concepts with depth are exactly the found concepts that `verify_deep_understanding` accepts, each listed once when the found concepts are. |
| Detectives.DocAnalystNode | src/nodes/detectives.py:160-269 | The document analyst writes only the Theoretical Depth item under "doc". It writes one "DocAnalyst error" for the unbound `file_paths`, and never sets fatal. The item's found concepts are exactly the key concepts the text mentions, and its deep concepts those explained in depth, each listed once. |
| Detectives.DepthConfidenceDetermined | src/nodes/detectives.py:186-207 | Whatever order the concepts come in, the number explained in depth is the same, and so are the 0.8/0.5 confidence and the count in the rationale. |
| Detectives.EvidenceAggregatorNode | src/nodes/detectives.py:272-326 | The aggregator writes only errors and the fatal flag. Errors are the incoming list, plus "Fatal: missing repo evidence; skipping judges." iff repo evidence is missing or empty. The flag is the incoming flag or that condition. |
| Detectives.AggregatorDecidesRoute | src/nodes/detectives.py:313-316 | The run goes on to the judges iff the incoming flag is not true and repo evidence exists and is non-empty. |
| Detectives.AggregatorRepeatsErrors | src/nodes/detectives.py:282-326 | Because the aggregator returns the whole incoming list and errors merge by concatenation, the merged errors hold the old errors twice. |
| Detectives.CollectorEvidenceLands | src/nodes/detectives.py:153-157 | After a collector's update is merged, its key holds exactly its items. |
| Detectives.RepoEvidenceNonEmpty | src/nodes/detectives.py:33-55 | The repository items are non-empty iff the clone succeeded with a path. |
| Detectives.RepoRunFeedsJudges | src/nodes/detectives.py:280-285 | After the repository collector's merge, "repo" is present in the evidences. It is non-empty exactly when the clone succeeded, so this decides the aggregator's route. |
| Justice.OfCriterion | src/nodes/justice.py:24-26 | A criterion's group holds only opinions on that criterion, taken from the input. |
| Justice.OfCriterionHas | src/nodes/justice.py:24-26 | Every opinion lands in the group of its own criterion. |
| Justice.GroupedDistinct | src/nodes/justice.py:24-26 | The grouping has one entry per criterion. |
| Justice.GroupedAt | src/nodes/justice.py:24-26 | A criterion has a group iff some opinion is on it. That group is the criterion's opinions in their original order. |
| Justice.OccursGroupedKey | src/nodes/justice.py:24-26 | Every opinion's criterion has a group. |
| Justice.FirstIndex | src/nodes/justice.py:24-26 | The position of the first opinion on a criterion: no earlier opinion is on it, and the length when none is. |
| Justice.FirstIndexSnoc | src/nodes/justice.py:24-26 | A later opinion never moves a criterion's first occurrence. |
| Justice.GroupedFirstOccurrence | src/nodes/justice.py:24-26 | As with a `defaultdict`, the groups' criteria are listed by first occurrence: each occurs, and an earlier group's criterion first occurs strictly earlier. |
| Justice.GroupByCriterion | src/nodes/justice.py:23-26 | The grouping loop computes exactly `Grouped`. |
| Justice.ScoreOfIsLast | src/nodes/justice.py:83-87 | A persona's score defaults to 3 when it has no opinion. Otherwise it is the score of its *last* opinion. |
| Justice.FirstBy | src/nodes/justice.py:96 | `next(...)` finds an opinion by the persona at some position with no earlier opinion by that persona, so it is the first; None iff there is none. |
| Justice.SecurityOverrideReads | src/nodes/justice.py:83-101 | For every opinion list with the Prosecutor first at i and last at j: the override applies iff the score at j is <= 2 and the argument at i names a security keyword. |
| Justice.NoProsecutorNoOverride | src/nodes/justice.py:96-101 | With no Prosecutor opinion, the override never applies. |
| Justice.Max3 | src/nodes/justice.py:100 | `max` of three scores is one of them and at least each. |
| Justice.Min3 | src/nodes/justice.py:114-116 | `min` of three scores is one of them and at most each. |
| Justice.RoundQuarterIsRoundHalfEven | src/nodes/justice.py:109-111 | The integer rounding of s/4 is the unique round-half-to-even of s/4. |
| Justice.RoundQuarterTies | src/nodes/justice.py:111 | Python's `round` takes sums 6, 10, 14 and 18 to 2, 2, 4 and 4. |
| Justice.Clamp | src/nodes/justice.py:112 | The clamp lands in [1, 5] and keeps scores already there. |
| Justice.Synthesize | src/nodes/justice.py:70-138 | An empty group gives exactly (1, "No opinions provided"). Off the override path the score is in [1, 5]. |
| Justice.SynthesizeOverride | src/nodes/justice.py:94-106 | The override applies when a Prosecutor opinion exists, the Prosecutor score is <= 2, and the first Prosecutor argument names a security keyword. Then the score is min(3, max(p, d, t)) and the dissent is the override text. |
| Justice.SynthesizeWeighted | src/nodes/justice.py:108-112 | Otherwise the score is the clamp of round-half-to-even((p + d + 2t) / 4). |
| Justice.SynthesizeDissent | src/nodes/justice.py:114-136 | On the weighted path, the dissent reports significant disagreement with the three scores iff max - min > 2. Otherwise it reports consensus over min..max. |
| Justice.ScoreOfValid | src/nodes/justice.py:83-87 | Over valid opinions every persona's score, defaulted or not, is in [1, 5]. |
| Justice.SynthesizeBounds | src/nodes/justice.py:80-112 | Over valid opinions every verdict is in [1, 5], and an overridden one is at most 3. |
| Justice.ScoreOfThree | src/nodes/justice.py:83-96 | With one opinion per persona, each persona's score is its own opinion's. |
| Justice.SynthesizeExamples | src/nodes/justice.py:109-112 | Scores (4, 3, 5) give 4, and (2, 2, 3) without a keyword give 2. |
| Justice.OverrideUsesLastProsecutorScore | src/nodes/justice.py:83-98 | A first Prosecutor opinion is not enough for the override when a later Prosecutor opinion scores above 2. The score is read last-wins, the argument first-wins. |
| Justice.VerdictsDistinct | src/nodes/justice.py:39-42 | The verdicts have one entry per criterion. |
| Justice.VerdictsAt | src/nodes/justice.py:39-42 | There is a verdict for exactly the grouped criteria, and each is the synthesis of its group. |
| Justice.RuleOnEach | src/nodes/justice.py:36-42 | The verdict loop computes exactly `Verdicts`. |
| Justice.AuditReportRulings | src/nodes/justice.py:20-42 | The report rules on exactly the criteria that have opinions, each by the synthesis of that criterion's opinions. |
| Justice.VerdictsInRange | src/nodes/justice.py:39-42 | Over valid opinions every verdict is in [1, 5]. |
| Justice.BadgeOf | src/nodes/justice.py:272-280 | The badge is the star iff score >= 5, the check iff 4, the caution iff 3, and the cross iff <= 2. |
| Justice.ScoreSumBounds | src/nodes/justice.py:149 | The sum of n verdicts in [1, 5] lies in [n, 5n]. |
| Justice.OverallScoreBounds | src/nodes/justice.py:149 | The overall score is 0 when there are no verdicts, so there is no division by zero. Otherwise it is in [1, 5]. |
| Justice.AuditReportScores | src/nodes/justice.py:149 | Over valid opinions, the overall score is 0 iff there are no opinions, and otherwise in [1, 5]. |
| Justice.AdviceFor | src/nodes/justice.py:240-249 | The advice follows the first keyword found, checking "missing", then "security", then "parallel". Otherwise it restates the first 100 characters of the argument. |
| Justice.ActionsForLow | src/nodes/justice.py:236-249 | A criterion's actions come exactly from its opinions scoring below 4, each with its advice. |
| Justice.RecommendActions | src/nodes/justice.py:236-249 | The action loop computes exactly `ActionsFor`. |
| Justice.RemediationHas | src/nodes/justice.py:230-231 | Every verdict below 4 gets a remediation entry. |
| Justice.RemediationFrom | src/nodes/justice.py:230-231 | Every remediation entry comes from a verdict below 4. |
| Justice.RemediationOfLow | src/nodes/justice.py:230-249 | The remediation plan lists exactly the verdicts below 4, each with the actions of its criterion. |
| Justice.PlanRemediation | src/nodes/justice.py:230-251 | The remediation loop computes exactly `RemediationOf`. |
| Justice.ChiefJusticeNode | src/nodes/justice.py:10-58 | The node's report, with its verdicts, badges, overall score, perspectives and remediation, is exactly `AuditReport` of the state. |
| GitTools.ParseLogLine | src/tools/git_tools.py:77-85 | A line yields a commit iff it is non-empty and splits on the bar character into exactly four fields. |
| GitTools.ParseLogLineRoundTrip | src/tools/git_tools.py:80-85 | For fields without a bar character, the parsed commit has the first 8 characters of the hash and the other three fields verbatim. |
| GitTools.BarInMessageDropsCommit | src/tools/git_tools.py:78-79 | A message containing the bar character makes the line split into more than four parts, so the commit is dropped. |
| GitTools.ParseLog | src/tools/git_tools.py:75-85 | Every parsed commit comes from some line, and there are no more commits than lines. |
| GitTools.ParseLogAppend | src/tools/git_tools.py:75-85 | Parsing two runs of lines gives the commits of the first run followed by those of the second, so line order is kept. |
| GitTools.ParseLogComplete | src/tools/git_tools.py:75-85 | Every line that parses contributes its commit; none is skipped. |
| GitTools.ParseLogInOrder | src/tools/git_tools.py:75-85 | When every line parses, the commits are exactly the lines' commits, in order. |
| GitTools.ExtractGitHistory | src/tools/git_tools.py:52-90 | A failed `git log` gives the failure. Otherwise the history is the parse of the stripped output split on newlines. |
| GitTools.ClassifyCommitPattern | src/tools/git_tools.py:107-135 | The result is one of "atomic", "mixed" and "monolithic". It is "atomic" iff len > 1 and matched/len > 0.4, written 5·matched > 2·len. It is "mixed" iff len > 5 and not atomic. |
| AstTools.GetName | src/tools/ast_tools.py:197-203 | `_get_name` gives a Name's id, an Attribute's attr, and None otherwise. |
| AstTools.GetFullName | src/tools/ast_tools.py:205-214 | `_get_full_name` gives a name exactly for Names and Attributes, and a Name's own id for a Name. |
| AstTools.UnnamedBaseKeepsAttr | src/tools/ast_tools.py:208-211 | An attribute whose base has no name, or the falsy empty name, is named by the attribute alone. |
| AstTools.FullNameOfDotted | src/tools/ast_tools.py:205-214 | An attribute chain over a named base gives the dotted string. |
| AstTools.JoinSnoc | src/tools/ast_tools.py:210 | Adding one more attribute appends "." and that attribute to the dotted name. |
| AstTools.NameEndsFullName | src/tools/ast_tools.py:197-214 | The short name is a suffix of the full name. |
| AstTools.ExtractStringArg | src/tools/ast_tools.py:216-220 | Only string constants yield a value, and the value is the constant. |
| AstTools.Swapped | src/tools/ast_tools.py:132-133 | Swapping turns each edge (s, t) into (t, s), position by position. |
| AstTools.GroupKeys | src/tools/ast_tools.py:120-122 | The `defaultdict` of outgoing targets has a key exactly for each source, with at least one target. |
| AstTools.GroupGrows | src/tools/ast_tools.py:121-122 | Appending an edge never loses a key or shortens a target list. |
| AstTools.SharedSourceRepeats | src/tools/ast_tools.py:116-125 | Two edges from the same source make some target list longer than 1. |
| AstTools.RepeatsShareSource | src/tools/ast_tools.py:116-125 | A target list longer than 1 means two edges share a source. |
| AstTools.GroupRepeatsIff | src/tools/ast_tools.py:116-125 | Some list is longer than 1 iff some source occurs in two edges, duplicates included. |
| AstTools.DetectParallelBranches | src/tools/ast_tools.py:116-125 | Parallel branches are reported iff some source occurs in at least two edges. |
| AstTools.DetectFanIn | src/tools/ast_tools.py:127-136 | Fan-in is reported iff some target occurs in at least two edges. |
| AstTools.FanInByGroup | src/tools/ast_tools.py:127-136 | Grouping the swapped edges repeats iff some target is shared. |
| AstTools.FanInIsSwappedFanOut | src/tools/ast_tools.py:116-136 | fan_in(E) is parallel(E with each pair swapped), and both are false on no edges. |
| AstTools.AddedNode | src/tools/ast_tools.py:91-96 | A node name is recorded exactly for an `add_node` attribute call whose first argument is a non-empty string constant. |
| AstTools.AddedEdge | src/tools/ast_tools.py:99-105 | An edge is recorded exactly for an `add_edge` attribute call with at least two arguments that are both non-empty string constants. |
| AstTools.NodeNamesRecorded | src/tools/ast_tools.py:83-96 | The recorded node names are exactly those of the walk's `add_node` calls. |
| AstTools.EdgeNamesRecorded | src/tools/ast_tools.py:83-105 | The recorded edges are exactly those of the walk's `add_edge` calls. |
| AstTools.EdgeFromNameIgnored | src/tools/ast_tools.py:101-105 | `add_edge(START, "x")` records nothing, because START is a Name, not a string constant. |
| AstTools.WalkGraphFile | src/tools/ast_tools.py:83-105 | The walk loop sets has_state_graph iff some call is named StateGraph, and collects exactly the recorded nodes and edges, in walk order. |
| AstTools.AnalyzeGraphStructure | src/tools/ast_tools.py:51-114 | A missing graph file gives the default result with no location. An unreadable one adds the error. A parsed one has its location, the walk's nodes and edges, and both detectors applied to those edges. |
| AstTools.FileIssues | src/tools/ast_tools.py:181-190 | A file's issues are exactly the calls named "os.system" or "subprocess.call", each located by file name and line. |
| AstTools.AllIssues | src/tools/ast_tools.py:186-190 | Every issue is an "Unsafe system call" of severity "high". |
| AstTools.AllIssuesAppend | src/tools/ast_tools.py:175-193 | The issues of two runs of files are those of the first run followed by those of the second, so glob order is kept. |
| AstTools.AllIssuesExact | src/tools/ast_tools.py:175-193 | An issue is reported iff the walk of some file that parsed yields it; a file that failed to parse contributes nothing. |
| AstTools.CheckForSecurityIssues | src/tools/ast_tools.py:166-195 | The scan over all parsed files computes exactly `AllIssues`: each unsafe call of each parsed file, in order, and nothing else. |
| AstTools.OnlyDottedCallsFlagged | src/tools/ast_tools.py:184-185 | `os.system(...)` is flagged but a bare `system(...)` is not: the full dotted name is compared. |
| AstTools.StateSnippet | src/tools/ast_tools.py:35-44 | A file's snippet is that of its first class deriving from BaseModel or TypedDict with a non-empty source segment, and None iff there is none. |
| AstTools.FindStateDefinition | src/tools/ast_tools.py:15-49 | Found iff one of the three target files holds a state class. Then the path and the first 500 characters of the snippet come from the first such file; otherwise both are None. |
| PdfTools.ChunksFrom | src/tools/pdf_tools.py:46-52 | No chunk is empty. |
| PdfTools.ChunksStep | src/tools/pdf_tools.py:46-52 | Each group of five sentences is joined with ". " and kept, with id `chunk_{i//5}`, iff the join is non-empty. |
| PdfTools.ChunkCount | src/tools/pdf_tools.py:43-53 | With non-empty sentences there is one chunk per group of five, that is ceil(n/5). |
| PdfTools.OccurrencesMatch | src/tools/pdf_tools.py:100-119 | Every reported position is at or after the start, and the concept occurs there. |
| PdfTools.OccurrencesIncreasing | src/tools/pdf_tools.py:100-119 | The positions are strictly increasing. |
| PdfTools.OccurrencesComplete | src/tools/pdf_tools.py:100-119 | No occurrence at or after the start is missed, overlapping ones included. |
| PdfTools.OccurrencesExact | src/tools/pdf_tools.py:100-119 | The positions are exactly all occurrences, strictly increasing. |
| PdfTools.ContextLength | src/tools/pdf_tools.py:108-111 | A context is at most the length of the concept plus 2w. |
| PdfTools.HitsFromStep | src/tools/pdf_tools.py:102-119 | The hits from `start` are the hit at the next occurrence, followed by the hits from one past it. |
| PdfTools.HitsFromAdvance | src/tools/pdf_tools.py:103-119 | One loop step keeps the collected hits plus the hits still to come equal to all hits. |
| PdfTools.Claims | src/tools/pdf_tools.py:195-198 | The claims are at most the chunks, and each names a claim keyword. |
| PdfTools.ClaimsAppend | src/tools/pdf_tools.py:195-198 | The claims of two runs of chunks are those of the first run followed by those of the second, so chunk order is kept. |
| PdfTools.ClaimsComplete | src/tools/pdf_tools.py:195-198 | Every chunk whose lowercased text holds a keyword is kept. |
| PdfTools.MixedCaseKeywordsNeverMatch | src/tools/pdf_tools.py:189-197 | "StateGraph" and "LangGraph" never occur in lowercased text, so only the other ten keywords decide a claim. |
| PdfTools.KeptMissingPartition | src/tools/pdf_tools.py:164-168 | Verified and hallucinated files partition the mentioned ones as a multiset, and their lengths sum to the total. The verified are all in the list and the hallucinated none. |
| PdfTools.RatioAtMostOne | src/tools/pdf_tools.py:171 | The verification rate is between 0 and 1. |
| PdfTools.PDFAnalyzer.constructor | src/tools/pdf_tools.py:15-22 | An existing, extractable PDF sets the text (pages joined by " "), the chunks and the file paths. Otherwise all three stay empty. |
| PdfTools.PDFAnalyzer.IngestPdf | src/tools/pdf_tools.py:24-60 | Ingesting sets text, chunks and file paths from the extraction. A failed extraction leaves them as they were. |
| PdfTools.PDFAnalyzer.QueryTerms | src/tools/pdf_tools.py:70-83 | The result has exactly the given terms as keys, each true iff lower(term) occurs in lower(text). |
| PdfTools.PDFAnalyzer.QueryConcept | src/tools/pdf_tools.py:85-121 | The search loop returns exactly one hit per occurrence (see OccurrencesExact), with the context window sliced from the original text. |
| PdfTools.PDFAnalyzer.VerifyDeepUnderstanding | src/tools/pdf_tools.py:123-145 | True iff some context, with the exact-case concept removed and stripped, is longer than the minimum; the evidence then quotes the first such context. With no occurrence, or none explained, it returns the source's two messages. |
| PdfTools.PDFAnalyzer.CrossReferenceFiles | src/tools/pdf_tools.py:147-177 | Mentioned files go to verified or hallucinated, in order. The lengths sum to the total, and the rate is verified/total, or 0.0 with nothing mentioned. |
| PdfTools.PDFAnalyzer.ExtractArchitecturalClaims | src/tools/pdf_tools.py:179-200 | The claims loop computes exactly `Claims` of the chunks: every keyword chunk, in chunk order, and nothing else. |
| Dicts.Get | src/nodes/justice.py:85-87 | `d.get(k)` is None iff k is not a key, and otherwise a value stored under k. |
| Dicts.Put | src/nodes/justice.py:41 | `d[k] = v` adds k to the keys, maps k to v, and leaves every other key alone. |
| Dicts.PutPlace | src/nodes/justice.py:26 | A new key goes last and an existing key keeps its place, as in a Python dict. |
| Dicts.KeyListPut | src/nodes/justice.py:26 | Assigning to a key leaves `list(d.keys())` as it was, or appends the key when it is new. |
| Dicts.UpdateWith | src/nodes/state_models.py:68 | Updating d in place with e (`operator.ior`) gives the union of the keys, keeps distinct keys, and leaves keys that e does not mention alone. |
| Dicts.UpdateWithRightWins | src/nodes/state_models.py:68 | Under `operator.ior`, a key of e takes e's value. |
| Dicts.ConcatValuesAppend | src/nodes/judges.py:176-177 | Extending by one more list appends it at the end. |
| Dicts.PutEach | src/tools/pdf_tools.py:80-81 | Filling a dict key by key gives exactly the given keys, each mapped to its own value. |
| Seqs.FilterKeeps | src/nodes/judges.py:186-190 | A comprehension with a condition keeps an item iff it is in the input and satisfies the condition. |
| Seqs.FilterAppend | src/nodes/judges.py:186-190 | A filtering comprehension distributes over concatenation. |
| Seqs.DistinctSameLength | src/nodes/detectives.py:203-206 | Two repeat-free lists holding the same items have the same length. |
| Text.Lower | src/tools/pdf_tools.py:97-98 | `str.lower()` preserves length. |
| Text.LowerAt | src/tools/pdf_tools.py:97-98 | `str.lower()` lowercases character by character. |
| Text.Find | src/tools/pdf_tools.py:103 | `str.find` returns -1 or a position at or after `start` where the substring occurs. |
| Text.FindFirst | src/tools/pdf_tools.py:103-105 | `str.find` returns the first occurrence and misses none before it, and -1 means no occurrence. |
| Text.ContainsIff | src/tools/pdf_tools.py:81 | `sub in s` holds iff sub occurs somewhere in s. |
| Text.UpperNeverInLower | src/tools/pdf_tools.py:196-197 | A keyword holding an upper-case letter never occurs in lowercased text. |
| Text.Split | src/tools/git_tools.py:78 | `str.split(sep)` gives at least one part, and no part holds the separator. |
| Text.SplitJoin | src/tools/git_tools.py:78 | Splitting a join of separator-free parts gives the parts back. |
| Text.JoinSplit | src/tools/git_tools.py:78 | Joining the parts of a split gives the string back. |
| Text.SplitCount | src/tools/git_tools.py:78-79 | A split has one more part than the separator occurs, so four parts means exactly three bars. |
| Text.StripTrims | src/tools/pdf_tools.py:139 | `str.strip()` gives a substring with no leading or trailing whitespace, and everything it cuts off on either side is whitespace. |
| Text.RemoveAll | src/tools/pdf_tools.py:139 | `str.replace(concept, "")` never lengthens the text, and an empty pattern changes nothing. |
| Text.RemoveAllAbsent | src/tools/pdf_tools.py:139 | Text in which the concept never occurs is left unchanged. |
| Text.RemoveAllRepeated | src/tools/pdf_tools.py:139 | Any number of back-to-back copies of the concept at the front are all removed. |
| Text.Slice | src/tools/pdf_tools.py:111 | Python slicing equals the Dafny slice within bounds, and is never longer than the text. |
| Text.Prefix | src/tools/git_tools.py:81 | `s[:n]` is the first min(n, len(s)) characters of s. |

## Left out

- The LangGraph engine (`StateGraph`, `compile`, `invoke`) and its concurrent scheduling. The graph is modelled as its fixed edge list, and a run as the synchronous steps it gives rise to (`Graph.Supersteps`).
- `has_fatal_error` is written by the nodes but is not a field of `AgentState`, so how the engine merges it is not shown. The aggregator and the router take it as an explicit input.
- Language-model calls and prompt text: the `ChatOpenAI` setup, the system and user prompts, and `create_prompt`'s evidence formatting. `llm.invoke` is an oracle parameter that returns an opinion, a `ValidationError` or another failure. Building a `JudgeAgent` is an outcome parameter `agentInit`.
- `vision_inspector_node`: it is unreachable, its file does not import `ChatOpenAI`, and it does only file and model I/O. Only its place in the graph is modelled.
- Subprocesses, the temporary directory and `rmtree` in `GitTool`; cloning is a `CloneResult` parameter; `count_commits` is not called by the modelled pipeline.
- `GitTool.cleanup`: it only removes the temporary directory, so its calls in `clone_repo`'s exception handlers, in the `finally` clause of `repo_investigator_node` and in `__del__` are not modelled, and nothing is proved about how often it runs.
- File reading, `ast.parse`, `ast.walk` and `rglob`. A parsed file is given as the sequence of nodes `ast.walk` yields, and its line numbers and source segments come with the nodes.
- PyPDF2 extraction and the two regular expressions of `_ingest_pdf` and `_extract_file_paths`. The pages, the sentence split and the file paths are inputs of `PdfSource`.
- `check_structured_output`, which the modelled pipeline does not call.
- src/main.py and src/config.py (command line, environment, report writing) are not part of this model.
- Markdown layout of the report, emoji strings (a `Badge` stands for each), `print` logging, `_get_timestamp`, the evidence listing in the report, and float formatting.
- Floating point: Evidence confidences, the overall score and the verification rate are exact `real`s. The weighted score is integer arithmetic on (p + d + 2t) with round-half-to-even of a quarter, and the 0.4 ratio is the integer test 5·matched > 2·len.
- `str.lower()` is ASCII only, and the model depends on it preserving length; case mapping outside ASCII is not modelled.
- The text of Python's exception messages (`str(e)` of a pydantic `ValidationError` or a `KeyError`) is a fixed placeholder string.
- Detectives.DocAnalystNode: states the found and deep concepts by membership and without repeats, so their number (and with it the confidence) is fixed, but not their order in the content string; the repr of that content is left out.
- Detectives.TrueKeys: states which keys are returned and that none repeats, not that they keep the dict's order.
- Detectives.ExplainedConcepts: states which concepts are kept and that none repeats, not that they keep the order of the found concepts.
- Text.RemoveAll: states what happens when the concept is absent or repeated up front, not a closed form of `replace` for every text.
- Detectives.EvidenceAggregatorNode: returns a new list; the source appends to the state's own `errors` list in place, and that aliasing is not modelled.
- The repr strings inside evidence `content` and `rationale` are built with the Python formatting the source uses, but no property is proved about their text.
