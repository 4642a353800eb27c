/**
 * The detective layer: the repository collector, the document collector and
 * the aggregator that decides whether the judges run. The tools the
 * collectors call are modelled elsewhere (`GitTools`, `AstTools`,
 * `PdfTools`); what cloning, `git log` and parsing gave is passed in.
 */
module Detectives {
  import opened Wrappers
  import opened Text
  import opened Dicts
  import Seqs
  import SM = StateModels
  import GitTools
  import AstTools
  import PdfTools
  import Graph

  // ---------------------------------------------------------------------
  // How Python prints the values the evidence texts embed
  // ---------------------------------------------------------------------

  /** `str(b)` for a bool. */
  function PyBool(b: bool): string {
    if b then "True" else "False"
  }

  /** `repr` of one commit dict `{hash, message, timestamp, author}`. */
  function ReprCommit(c: GitTools.Commit): string {
    "{'hash': " + ReprString(c.hash) + ", 'message': " + ReprString(c.message)
    + ", 'timestamp': " + ReprString(c.timestamp) + ", 'author': " + ReprString(c.author) + "}"
  }

  function ReprCommitItems(cs: seq<GitTools.Commit>): string {
    if cs == [] then ""
    else if |cs| == 1 then ReprCommit(cs[0])
    else ReprCommit(cs[0]) + ", " + ReprCommitItems(cs[1..])
  }

  /** `repr` of one issue dict `{type, location, severity}`. */
  function ReprIssue(i: AstTools.SecurityIssue): string {
    "{'type': " + ReprString(i.kind) + ", 'location': " + ReprString(i.location)
    + ", 'severity': " + ReprString(i.severity) + "}"
  }

  function ReprIssueItems(xs: seq<AstTools.SecurityIssue>): string {
    if xs == [] then ""
    else if |xs| == 1 then ReprIssue(xs[0])
    else ReprIssue(xs[0]) + ", " + ReprIssueItems(xs[1..])
  }

  // ---------------------------------------------------------------------
  // repo_investigator_node
  // ---------------------------------------------------------------------

  /** What `clone_repo` returned: it catches its own failures. */
  datatype CloneResult = CloneResult(success: bool, message: string, repoPath: Option<string>)

  /** The number of commits the evidence reports: 0 when `git log` failed. */
  function CommitCount(h: GitTools.History): nat {
    if h.History? then |h.commits| else 0
  }

  /**
   * The first three items of the list `extract_git_history` returned; on a
   * failure that list is `[{"error": message}]`.
   */
  function CommitSample(h: GitTools.History): string {
    match h
    case History(commits) => "[" + ReprCommitItems(if |commits| <= 3 then commits else commits[..3]) + "]"
    case HistoryFailed(error) => "[{'error': " + ReprString(error) + "}]"
  }

  /** The "Git Forensic Analysis" item for history `h` classified as `pattern`. */
  function GitEvidence(h: GitTools.History, pattern: string): (e: SM.Evidence)
    ensures e.goal == "Git Forensic Analysis" && e.location == ".git/" && SM.ValidEvidence(e)
    ensures e.found <==> CommitCount(h) > 0
    ensures e.confidence == 0.95 <==> CommitCount(h) > 3
    ensures e.confidence == 0.5 <==> CommitCount(h) <= 3
  {
    var n := CommitCount(h);
    SM.Evidence(
      "Git Forensic Analysis",
      n > 0,
      Some("Commits: " + NatToString(n) + ", Pattern: " + pattern + ". Sample: " + CommitSample(h)),
      ".git/",
      "Pattern: " + pattern + " with " + NatToString(n) + " commits",
      if n > 3 then 0.95 else 0.5)
  }

  /** The pattern the evidence names: the classification, or "unknown" when `git log` failed. */
  function PatternOf(h: GitTools.History): string {
    if h.History? then GitTools.CommitPattern(h.commits) else "unknown"
  }

  /** The "State Management Rigor" item. */
  function StateEvidence(d: AstTools.StateDefinition): (e: SM.Evidence)
    ensures e.goal == "State Management Rigor" && SM.ValidEvidence(e)
    ensures e.found <==> d.found
    ensures e.content == (if d.found then d.snippet else None)
    ensures e.location == (if d.path.Some? && d.path.value != "" then d.path.value else "src/state.py (not found)")
  {
    SM.Evidence(
      "State Management Rigor",
      d.found,
      if d.found then d.snippet else None,
      if d.path.Some? && d.path.value != "" then d.path.value else "src/state.py (not found)",
      if d.found then "Found typed state with Pydantic/TypedDict" else "No typed state definition found",
      if d.found then 0.9 else 0.3)
  }

  /**
   * The state-management step of `repo_investigator_node`: look the state
   * definition up, then report it. The evidence points at the first state
   * file that holds one, and says "not found" otherwise.
   */
  method StateManagement(repoPath: string, fs: string -> AstTools.StateFile) returns (e: SM.Evidence)
    ensures e.goal == "State Management Rigor"
    ensures e.found <==> exists k :: 0 <= k < |AstTools.StateFiles| && AstTools.HoldsState(fs(AstTools.StateFiles[k]))
    ensures !e.found ==> e.content == None && e.location == "src/state.py (not found)"
    ensures e.found ==> exists k :: 0 <= k < |AstTools.StateFiles| && AstTools.HoldsState(fs(AstTools.StateFiles[k]))
                                    && (forall k' :: 0 <= k' < k ==> !AstTools.HoldsState(fs(AstTools.StateFiles[k'])))
                                    && e.location == repoPath + "/" + AstTools.StateFiles[k]
                                    && e.content == Some(Prefix(AstTools.StateSnippet(fs(AstTools.StateFiles[k]).walk).value, 500))
  {
    var d := AstTools.FindStateDefinition(repoPath, fs);
    e := StateEvidence(d);
  }

  /** pydantic's complaint about `location=None`. */
  const LocationNotString := "1 validation error for Evidence\nlocation\n  Input should be a valid string"

  /**
   * The "Graph Orchestration" item. `graph_analysis.get("location", ...)`
   * finds the key set to None when `src/graph.py` is missing or did not
   * parse, and building an `Evidence` with that location raises.
   */
  function GraphEvidence(g: AstTools.GraphAnalysis): (r: Outcome<SM.Evidence>)
    ensures r.Raised? <==> g.location.None?
    ensures r.Raised? ==> r.error == LocationNotString
    ensures r.Returned? ==> (r.value.goal == "Graph Orchestration" && SM.ValidEvidence(r.value)
                             && r.value.location == g.location.value
                             && (r.value.found <==> g.hasStateGraph))
  {
    if g.location.None? then Raised(LocationNotString)
    else
      Returned(SM.Evidence(
        "Graph Orchestration",
        g.hasStateGraph,
        Some("Nodes: " + ReprStrings(g.nodes) + ", Parallel: " + PyBool(g.parallelBranches)
             + ", Fan-in: " + PyBool(g.fanInNode)),
        g.location.value,
        "StateGraph " + (if g.hasStateGraph then "found" else "not found") + ", Parallelism: " + PyBool(g.parallelBranches),
        if g.hasStateGraph then 0.85 else 0.2))
  }

  /** The "Safe Tool Engineering" item. */
  function SecurityEvidence(issues: seq<AstTools.SecurityIssue>): (e: SM.Evidence)
    ensures e.goal == "Safe Tool Engineering" && e.location == "src/tools/" && SM.ValidEvidence(e)
    ensures e.found <==> issues == []
    ensures e.confidence == (if issues == [] then 0.9 else 0.3)
  {
    var flagged := |issues| > 0;
    SM.Evidence(
      "Safe Tool Engineering",
      !flagged,
      Some(if flagged then "[" + ReprIssueItems(issues) + "]" else "No security issues detected"),
      "src/tools/",
      if !flagged then "Safe sandboxed operations" else "Found " + NatToString(|issues|) + " security issues",
      if !flagged then 0.9 else 0.3)
  }

  /** What a collector returns: its evidence list, its errors and its fatal flag. */
  datatype Findings = Findings(evidences: seq<SM.Evidence>, errors: seq<string>, fatal: bool)

  /** What the `try` block finds once the repository is cloned. */
  function ClonedFindings(h: GitTools.History, d: AstTools.StateDefinition, g: AstTools.GraphAnalysis,
                          issues: seq<AstTools.SecurityIssue>): Findings
  {
    var first := [GitEvidence(h, PatternOf(h))] + [StateEvidence(d)];
    match GraphEvidence(g)
    case Raised(msg) => Findings(first, ["RepoInvestigator error: " + msg], true)
    case Returned(e) => Findings(first + [e] + [SecurityEvidence(issues)], [], false)
  }

  /** What `repo_investigator_node` finds, path by path through its `try`. */
  function RepoFindings(clone: CloneResult, h: GitTools.History, d: AstTools.StateDefinition,
                        g: AstTools.GraphAnalysis, issues: seq<AstTools.SecurityIssue>): Findings
  {
    if !clone.success || clone.repoPath.None? then Findings([], ["Failed to clone repo: " + clone.message], true)
    else ClonedFindings(h, d, g, issues)
  }

  /** The update a collector returns, writing its evidence under `key`. */
  function CollectorUpdate(key: string, f: Findings): SM.Update {
    SM.NoUpdate.(evidences := Some([(key, f.evidences)]), errors := Some(f.errors), hasFatalError := Some(f.fatal))
  }

  /** The `try` block after a successful clone: the items are appended one by one until one raises. */
  method InvestigateClone(h: GitTools.History, d: AstTools.StateDefinition, g: AstTools.GraphAnalysis,
                          issues: seq<AstTools.SecurityIssue>)
    returns (evidences: seq<SM.Evidence>, errors: seq<string>, fatal: bool)
    ensures Findings(evidences, errors, fatal) == ClonedFindings(h, d, g, issues)
  {
    errors := [];
    fatal := false;
    var pattern := "unknown";
    if h.History? {
      pattern := GitTools.ClassifyCommitPattern(h.commits);
    }
    assert pattern == PatternOf(h);
    evidences := [GitEvidence(h, pattern)];
    evidences := evidences + [StateEvidence(d)];
    var graphItem := GraphEvidence(g);
    if graphItem.Raised? {
      errors := ["RepoInvestigator error: " + graphItem.error];
      fatal := true;
    } else {
      evidences := evidences + [graphItem.value];
      evidences := evidences + [SecurityEvidence(issues)];
    }
  }

  /** `repo_investigator_node`. */
  method RepoInvestigatorNode(clone: CloneResult, h: GitTools.History, d: AstTools.StateDefinition,
                              g: AstTools.GraphAnalysis, issues: seq<AstTools.SecurityIssue>)
    returns (u: SM.Update)
    ensures u == CollectorUpdate("repo", RepoFindings(clone, h, d, g, issues))
  {
    var evidences: seq<SM.Evidence> := [];
    var errors: seq<string> := [];
    var fatal := false;
    if !clone.success || clone.repoPath.None? {
      errors := ["Failed to clone repo: " + clone.message];
      fatal := true;
    } else {
      evidences, errors, fatal := InvestigateClone(h, d, g, issues);
    }
    u := CollectorUpdate("repo", Findings(evidences, errors, fatal));
  }

  /** A failed clone: no evidence, one error, fatal. */
  lemma RepoCloneFailure(clone: CloneResult, h: GitTools.History, d: AstTools.StateDefinition,
                         g: AstTools.GraphAnalysis, issues: seq<AstTools.SecurityIssue>)
    requires !clone.success || clone.repoPath.None?
    ensures RepoFindings(clone, h, d, g, issues) == Findings([], ["Failed to clone repo: " + clone.message], true)
  {
  }

  /** After a clone, the four items come in order and nothing is fatal, unless building one raises. */
  lemma RepoSuccess(clone: CloneResult, h: GitTools.History, d: AstTools.StateDefinition,
                    g: AstTools.GraphAnalysis, issues: seq<AstTools.SecurityIssue>)
    requires clone.success && clone.repoPath.Some? && g.location.Some?
    ensures var f := RepoFindings(clone, h, d, g, issues);
            |f.evidences| == 4 && f.errors == [] && !f.fatal
            && f.evidences[0].goal == "Git Forensic Analysis" && f.evidences[1].goal == "State Management Rigor"
            && f.evidences[2].goal == "Graph Orchestration" && f.evidences[3].goal == "Safe Tool Engineering"
            && (f.evidences[0].found <==> CommitCount(h) > 0)
            && (f.evidences[0].confidence == 0.95 <==> CommitCount(h) > 3)
            && (f.evidences[3].found <==> issues == [])
  {
  }

  /**
   * Without a location for `src/graph.py` the third item raises: the two
   * items built so far are kept, one "RepoInvestigator error" is added and
   * the run is fatal.
   */
  lemma RepoGraphWithoutLocation(clone: CloneResult, h: GitTools.History, d: AstTools.StateDefinition,
                                 g: AstTools.GraphAnalysis, issues: seq<AstTools.SecurityIssue>)
    requires clone.success && clone.repoPath.Some? && g.location.None?
    ensures var f := RepoFindings(clone, h, d, g, issues);
            f.evidences == [GitEvidence(h, PatternOf(h)), StateEvidence(d)]
            && f.errors == ["RepoInvestigator error: " + LocationNotString] && f.fatal
  {
  }

  /** A graph file that is missing or does not parse leaves the location unset, so the collector fails. */
  lemma MissingGraphFileIsFatal(file: AstTools.GraphFile, g: AstTools.GraphAnalysis)
    requires !file.GraphParsed?
    requires file.GraphMissing? ==> g == AstTools.NoGraph
    requires file.GraphUnreadable? ==> g == AstTools.NoGraph.(error := Some(file.message))
    ensures GraphEvidence(g).Raised?
  {
  }

  /** The findings of a cloned repository: valid items, at most one error, fatal exactly when there is one. */
  lemma ClonedFindingsShape(h: GitTools.History, d: AstTools.StateDefinition,
                            g: AstTools.GraphAnalysis, issues: seq<AstTools.SecurityIssue>)
    ensures var f := ClonedFindings(h, d, g, issues);
            (forall e :: e in f.evidences ==> SM.ValidEvidence(e))
            && |f.errors| <= 1 && (f.fatal <==> f.errors != [])
  {
    var git, state := GitEvidence(h, PatternOf(h)), StateEvidence(d);
    var f := ClonedFindings(h, d, g, issues);
    match GraphEvidence(g)
    case Raised(msg) =>
      assert f.evidences == [git] + [state];
    case Returned(e) =>
      assert f.evidences == [git] + [state] + [e] + [SecurityEvidence(issues)];
  }

  /** On every path: valid items, at most one error, and fatal exactly when there is one. */
  lemma RepoFindingsShape(clone: CloneResult, h: GitTools.History, d: AstTools.StateDefinition,
                          g: AstTools.GraphAnalysis, issues: seq<AstTools.SecurityIssue>)
    ensures var f := RepoFindings(clone, h, d, g, issues);
            (forall e :: e in f.evidences ==> SM.ValidEvidence(e))
            && |f.errors| <= 1 && (f.fatal <==> f.errors != [])
  {
    if clone.success && clone.repoPath.Some? {
      ClonedFindingsShape(h, d, g, issues);
    }
  }

  // ---------------------------------------------------------------------
  // doc_analyst_node
  // ---------------------------------------------------------------------

  const KeyConcepts: seq<string> :=
    ["Dialectical Synthesis", "Fan-In", "Fan-Out", "Metacognition", "State Synchronization"]

  /** The document mentions `c`, ignoring case. */
  predicate Mentions(text: string, c: string) {
    Contains(Lower(text), Lower(c))
  }

  /** Some mention of `c` (context window 150) is explained beyond 100 characters. */
  predicate ExplainsInDepth(text: string, c: string) {
    var hits := PdfTools.HitsFrom(text, c, 150, 0);
    exists k :: 0 <= k < |hits| && PdfTools.Explained(hits[k], c, 100)
  }

  /** The "Theoretical Depth" item for the concepts found and those explained in depth. */
  function DepthEvidence(found: seq<string>, deep: seq<string>): (e: SM.Evidence)
    ensures e.goal == "Theoretical Depth" && e.location == "PDF report" && SM.ValidEvidence(e)
    ensures e.found <==> found != []
    ensures e.confidence == (if |deep| > 2 then 0.8 else 0.5)
  {
    SM.Evidence(
      "Theoretical Depth",
      |found| > 0,
      Some("Found concepts: " + ReprStrings(found) + ". Deep understanding: " + ReprStrings(deep)),
      "PDF report",
      "Document shows deep understanding for " + NatToString(|deep|) + " concepts",
      if |deep| > 2 then 0.8 else 0.5)
  }

  /**
   * The error every run ends with: the "Documentation Accuracy" item reads
   * `file_paths`, which the function never assigns.
   */
  const UnboundFilePaths := "DocAnalyst error: name 'file_paths' is not defined"

  /** The text the analyzer holds after ingesting `source`. */
  function IngestedText(source: PdfTools.PdfSource): string {
    if source.Extracted? then Join(" ", source.pages) else ""
  }

  /** `[k for k, v in results.items() if v]`. */
  method TrueKeys(results: Dict<bool>) returns (keys: seq<string>)
    requires DistinctKeys(results)
    ensures forall c :: c in keys <==> exists k :: 0 <= k < |results| && results[k] == (c, true)
    ensures Seqs.Distinct(keys)
  {
    keys := [];
    for i := 0 to |results|
      invariant forall c :: c in keys <==> exists k :: 0 <= k < i && results[k] == (c, true)
      invariant Seqs.Distinct(keys)
    {
      if results[i].1 {
        assert results[i].0 !in keys;
        keys := keys + [results[i].0];
      }
    }
  }

  /** An item of a `query_terms` result is true exactly for a term the text mentions. */
  lemma TrueKeysMentioned(results: Dict<bool>, terms: seq<string>, text: string, c: string)
    requires DistinctKeys(results)
    requires forall c :: c in Keys(results) <==> c in terms
    requires forall k :: 0 <= k < |terms| ==> Get(results, terms[k]) == Some(Mentions(text, terms[k]))
    ensures (exists k :: 0 <= k < |results| && results[k] == (c, true)) <==> c in terms && Mentions(text, c)
  {
    if exists k :: 0 <= k < |results| && results[k] == (c, true) {
      var k :| 0 <= k < |results| && results[k] == (c, true);
      GetAt(results, k);
      assert c in Keys(results);
      var j :| 0 <= j < |terms| && terms[j] == c;
      assert Get(results, terms[j]) == Some(Mentions(text, c));
    }
    if c in terms && Mentions(text, c) {
      var j :| 0 <= j < |terms| && terms[j] == c;
      assert Get(results, c) == Some(true);
    }
  }

  /** The loop over the found concepts that keeps those explained in depth. */
  method ExplainedConcepts(analyzer: PdfTools.PDFAnalyzer, found: seq<string>) returns (deep: seq<string>)
    requires Seqs.Distinct(found)
    ensures forall c :: c in deep <==> c in found && ExplainsInDepth(analyzer.text, c)
    ensures Seqs.Distinct(deep)
  {
    deep := [];
    for i := 0 to |found|
      invariant forall c :: c in deep <==> c in found[..i] && ExplainsInDepth(analyzer.text, c)
      invariant Seqs.Distinct(deep)
    {
      assert found[..i + 1] == found[..i] + [found[i]];
      assert found[i] !in found[..i];
      assert found[i] !in deep;
      var hasDepth, _ := analyzer.VerifyDeepUnderstanding(found[i], 100);
      if hasDepth {
        deep := deep + [found[i]];
      }
    }
    assert found[..|found|] == found;
  }

  /**
   * `found` lists, once each, the key concepts the text mentions, and `deep`
   * those of them it explains in depth.
   */
  ghost predicate DocAnalysis(text: string, found: seq<string>, deep: seq<string>) {
    (forall c :: c in found <==> c in KeyConcepts && Mentions(text, c))
    && (forall c :: c in deep <==> c in found && ExplainsInDepth(text, c))
    && Seqs.Distinct(found) && Seqs.Distinct(deep)
  }

  /** The number of concepts explained in depth, and with it the confidence, is fixed by the text. */
  lemma DepthConfidenceDetermined(text: string, found: seq<string>, deep: seq<string>,
                                  found': seq<string>, deep': seq<string>)
    requires DocAnalysis(text, found, deep) && DocAnalysis(text, found', deep')
    ensures |deep| == |deep'|
    ensures DepthEvidence(found, deep).confidence == DepthEvidence(found', deep').confidence
  {
    assert forall c :: c in deep <==> c in deep';
    Seqs.DistinctSameLength(deep, deep');
  }

  /**
   * `doc_analyst_node`. The Theoretical Depth item is built from the key
   * concepts the document mentions and those it explains; the next item
   * raises a NameError, so the run always ends in the `except` clause.
   */
  method DocAnalystNode(source: PdfTools.PdfSource) returns (u: SM.Update)
    ensures u.rubricDimensions.None? && u.opinions.None? && u.finalReport.None?
    ensures u.hasFatalError == Some(false)
    ensures u.errors == Some([UnboundFilePaths])
    ensures u.evidences.Some? && |u.evidences.value| == 1 && u.evidences.value[0].0 == "doc"
    ensures exists found: seq<string>, deep: seq<string> ::
              DocAnalysis(IngestedText(source), found, deep) && u.evidences.value[0].1 == [DepthEvidence(found, deep)]
  {
    var analyzer := new PdfTools.PDFAnalyzer(source);
    var terms := KeyConcepts;
    var results := analyzer.QueryTerms(terms);
    var found := TrueKeys(results);
    forall c ensures c in found <==> c in terms && Mentions(analyzer.text, c) {
      TrueKeysMentioned(results, terms, analyzer.text, c);
    }
    var deep := ExplainedConcepts(analyzer, found);
    u := SM.NoUpdate.(evidences := Some([("doc", [DepthEvidence(found, deep)])]), errors := Some([UnboundFilePaths]),
                      hasFatalError := Some(false));
  }

  // ---------------------------------------------------------------------
  // evidence_aggregator_node
  // ---------------------------------------------------------------------

  const MissingRepoEvidence := "Fatal: missing repo evidence; skipping judges."

  /**
   * `evidence_aggregator_node`. `fatal` is the incoming `has_fatal_error`,
   * absent when no node wrote it. The returned `errors` is the whole
   * incoming list, extended when the repository evidence is missing.
   */
  method EvidenceAggregatorNode(s: SM.AgentState, fatal: Option<bool>) returns (u: SM.Update)
    ensures u.rubricDimensions.None? && u.evidences.None? && u.opinions.None? && u.finalReport.None?
    ensures u.errors == Some(s.errors + (if Get(s.evidences, "repo").GetOr([]) == [] then [MissingRepoEvidence] else []))
    ensures u.hasFatalError == Some(fatal.GetOr(false) || Get(s.evidences, "repo").GetOr([]) == [])
  {
    var repoEvidences := Get(s.evidences, "repo").GetOr([]);
    var errors := s.errors;
    var fatalFlag := fatal.GetOr(false);
    var hasRepo := |repoEvidences| > 0;
    if !hasRepo {
      errors := errors + [MissingRepoEvidence];
      fatalFlag := true;
    } else {
      assert errors == s.errors + [];
    }
    u := SM.NoUpdate.(errors := Some(errors), hasFatalError := Some(fatalFlag));
  }

  /** The judges run after the aggregator exactly when nothing was fatal before and there is repository evidence. */
  lemma AggregatorDecidesRoute(s: SM.AgentState, fatal: Option<bool>, u: SM.Update)
    requires u.hasFatalError == Some(fatal.GetOr(false) || Get(s.evidences, "repo").GetOr([]) == [])
    ensures Graph.NoFatalError(u.hasFatalError)
            <==> fatal != Some(true) && Get(s.evidences, "repo").Some? && Get(s.evidences, "repo").value != []
  {
  }

  /**
   * Because the returned list already holds the incoming errors and the
   * `errors` reducer concatenates, merging the update repeats them.
   */
  lemma AggregatorRepeatsErrors(s: SM.AgentState, u: SM.Update)
    requires u.errors == Some(s.errors + (if Get(s.evidences, "repo").GetOr([]) == [] then [MissingRepoEvidence] else []))
    ensures SM.Apply(s, u).errors
            == s.errors + s.errors + (if Get(s.evidences, "repo").GetOr([]) == [] then [MissingRepoEvidence] else [])
  {
  }

  /** Whatever a collector finds is what the state holds under its key afterwards. */
  lemma CollectorEvidenceLands(s: SM.AgentState, key: string, f: Findings)
    ensures Get(SM.Apply(s, CollectorUpdate(key, f)).evidences, key) == Some(f.evidences)
  {
    SM.EvidenceCollisionReplaces(s, CollectorUpdate(key, f), key);
  }

  /** The repository collector finds some evidence exactly when the clone worked. */
  lemma RepoEvidenceNonEmpty(clone: CloneResult, h: GitTools.History, d: AstTools.StateDefinition,
                             g: AstTools.GraphAnalysis, issues: seq<AstTools.SecurityIssue>)
    ensures RepoFindings(clone, h, d, g, issues).evidences != [] <==> clone.success && clone.repoPath.Some?
  {
    if clone.success && clone.repoPath.Some? {
      var f := ClonedFindings(h, d, g, issues);
      assert f.evidences[0] == GitEvidence(h, PatternOf(h));
    }
  }

  /** A collector run leaves repository evidence exactly when the clone worked. */
  lemma RepoRunFeedsJudges(s: SM.AgentState, clone: CloneResult, h: GitTools.History,
                           d: AstTools.StateDefinition, g: AstTools.GraphAnalysis,
                           issues: seq<AstTools.SecurityIssue>)
    ensures var t := SM.Apply(s, CollectorUpdate("repo", RepoFindings(clone, h, d, g, issues)));
            Get(t.evidences, "repo").Some?
            && (Get(t.evidences, "repo").value != [] <==> clone.success && clone.repoPath.Some?)
  {
    CollectorEvidenceLands(s, "repo", RepoFindings(clone, h, d, g, issues));
    RepoEvidenceNonEmpty(clone, h, d, g, issues);
  }
}
